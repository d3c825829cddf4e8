/** A Coulomb counter that estimates the state of charge of a battery.

    Amounts are real numbers, and rounding to two decimals is to the nearest hundredth,
    ties upwards.  Wall-clock stamps are numbers.
 */
module SocEstimator {
  import opened Wrappers
  import opened Trapezoids

  datatype Mode = LithiumVoltage | LithiumBms | LeadAcid

  function ChargeEfficiency(mode: Mode): real
  {
    match mode case LithiumVoltage => 0.99 case LeadAcid => 0.90 case LithiumBms => 1.0
  }

  function DischargeEfficiency(mode: Mode): real
  {
    match mode case LithiumVoltage => 1.0 case LeadAcid => 0.95 case LithiumBms => 1.0
  }

  /** The current of the absorption tail, as a fraction of the capacity. */
  function TailRate(mode: Mode): real
  {
    match mode case LithiumVoltage => 0.05 case LeadAcid => 0.02 case LithiumBms => 0.05
  }

  const SYNC_DEBOUNCE_TICKS := 3

  function Clamp(x: real, lo: real, hi: real): real { Max(lo, Min(hi, x)) }

  function Fraction(charge: real, full: real): real
    requires full > 0.0
  {
    charge / full
  }

  function Portion(fraction: real, full: real): real { fraction * full }

  lemma WholePortion(full: real)
    ensures Portion(1.0, full) == full
  {
  }

  function Round2(x: real): real { (100.0 * x + 0.5).Floor as real / 100.0 }

  datatype Estimator = Estimator(
    capacity: Option<real>, mode: Mode,
    deadband: bool, window: real, noiseFloor: real,
    charge: real, ticks: int,
    prevCurrent: Option<real>, prevEffective: Option<real>, prevTs: Option<real>,
    lastSync: Option<int>, soc: Option<real>)

  /** One tick of the integrator: the current is positive while charging. */
  datatype Sample = Sample(
    current: real, voltage: real, now: real,
    syncVoltage: Option<real>, floatVoltage: Option<real>, bms: Option<real>, wallNow: Option<int>)

  const FRESH := Estimator(None, LithiumVoltage, true, 0.5, 1.5, 0.0, 0, None, None, None, None, None)

  // ---------------------------------------------------------------- configuration

  /** An unknown mode is ignored. */
  function SetMode(e: Estimator, mode: Option<Mode>): Estimator
  {
    match mode
    case None => e
    case Some(m) => e.(ticks := if m != e.mode then 0 else e.ticks, mode := m)
  }

  function SetDeadband(e: Estimator, enabled: bool, window: real, noiseFloor: real): Estimator
  {
    e.(deadband := enabled, window := Max(0.0, window), noiseFloor := Max(0.0, noiseFloor))
  }

  /** The fraction that a change of capacity preserves. */
  function HeldFraction(e: Estimator): real
  {
    match e.capacity
    case None => if e.soc.Some? then Clamp(e.soc.value / 100.0, 0.0, 1.0) else 1.0
    case Some(prior) =>
      var held := if prior > 0.0 then Fraction(e.charge, prior) else if e.soc.Some? then e.soc.value / 100.0 else 1.0;
      Clamp(held, 0.0, 1.0)
  }

  function SetCapacity(e: Estimator, value: Option<real>): Estimator
  {
    if value.None? || value.value <= 0.0 then e.(capacity := None)
    else
      var frac := HeldFraction(e);
      var soc := if e.capacity.Some? then Some(Round2(frac * 100.0)) else if e.soc.Some? then e.soc else Some(100.0);
      e.(capacity := value, charge := Portion(frac, value.value), soc := soc)
  }

  function Restore(e: Estimator, soc: Option<real>, charge: real, lastSync: Option<int>): Estimator
  {
    e.(soc := soc, charge := charge, lastSync := lastSync)
  }

  // ---------------------------------------------------------------- one tick

  predicate Configured(e: Estimator) { e.capacity.Some? && e.capacity.value > 0.0 }

  predicate Mirrors(e: Estimator, x: Sample) { Configured(e) && e.mode.LithiumBms? && x.bms.Some? }

  /** The tick is integrated, or idles in the float deadband. */
  predicate Counts(e: Estimator, x: Sample) { Configured(e) && !Mirrors(e, x) && x.syncVoltage.Some? }

  predicate Idle(e: Estimator, x: Sample)
  {
    e.deadband && x.floatVoltage.Some? && Abs(x.voltage - x.floatVoltage.value) < e.window
    && Abs(x.current) <= e.noiseFloor
  }

  function Effective(mode: Mode, current: real): real
  {
    if current >= 0.0 then current * ChargeEfficiency(mode) else current / DischargeEfficiency(mode)
  }

  function Increment(e: Estimator, x: Sample): real
  {
    if Idle(e, x) || e.prevEffective.None? then 0.0
    else
      var elapsed := if e.prevTs.Some? then x.now - e.prevTs.value else 0.0;
      Trapezoid(elapsed, e.prevEffective.value, Effective(e.mode, x.current))
  }

  function TailCurrent(e: Estimator): real
    requires Configured(e)
  {
    Portion(TailRate(e.mode), e.capacity.value)
  }

  function FullThreshold(x: Sample): real
    requires x.syncVoltage.Some?
  {
    if x.floatVoltage.Some? && x.floatVoltage.value > 0.0
    then Min(x.syncVoltage.value, x.floatVoltage.value) else x.syncVoltage.value
  }

  /** The battery is at full voltage with no more than the tail current. */
  predicate Qualifies(e: Estimator, x: Sample)
    requires Counts(e, x)
  {
    x.voltage >= FullThreshold(x) && Abs(x.current) <= TailCurrent(e)
  }

  predicate Heavy(e: Estimator, x: Sample)
    requires Counts(e, x)
  {
    x.current < -TailCurrent(e)
  }

  function NextTicks(e: Estimator, x: Sample): int
    requires Counts(e, x)
  {
    if Qualifies(e, x) then e.ticks + 1
    else if Heavy(e, x) then 0
    else if e.ticks - 1 >= 0 then e.ticks - 1 else 0
  }

  function Integrate(e: Estimator, x: Sample): Estimator
    requires Counts(e, x)
  {
    e.(charge := e.charge + Increment(e, x), prevCurrent := Some(x.current),
       prevEffective := if Idle(e, x) then None else Some(Effective(e.mode, x.current)), prevTs := Some(x.now))
  }

  function Publish(e: Estimator, ticks: int, wallNow: Option<int>): Estimator
    requires Configured(e)
  {
    var full := e.capacity.value;
    var snaps := ticks >= SYNC_DEBOUNCE_TICKS;
    var charge := if snaps then full else Clamp(e.charge, 0.0, full);
    var soc := if snaps then 100.0 else Fraction(charge, full) * 100.0;
    e.(ticks := ticks, charge := charge, soc := Some(Round2(Clamp(soc, 0.0, 100.0))),
       lastSync := if ticks == SYNC_DEBOUNCE_TICKS && wallNow.Some? then wallNow else e.lastSync)
  }

  function Mirror(e: Estimator, x: Sample): Estimator
    requires Mirrors(e, x)
  {
    e.(charge := Portion(x.bms.value / 100.0, e.capacity.value), prevCurrent := Some(x.current),
       prevEffective := None, prevTs := Some(x.now), ticks := 0, soc := Some(Round2(x.bms.value)))
  }

  function Update(e: Estimator, x: Sample): Estimator
  {
    if Mirrors(e, x) then Mirror(e, x)
    else if Counts(e, x) then Publish(Integrate(e, x), NextTicks(e, x), x.wallNow)
    else e.(soc := None)
  }

  // ---------------------------------------------------------------- the estimator as an object

  class SocEstimator {
    var capacity: Option<real>
    var mode: Mode
    var deadband: bool
    var window: real
    var noiseFloor: real
    var charge: real
    var ticks: int
    var prevCurrent: Option<real>
    var prevEffective: Option<real>
    var prevTs: Option<real>
    var lastSync: Option<int>
    var soc: Option<real>

    constructor ()
      ensures State() == FRESH
    {
      capacity, mode, deadband, window, noiseFloor := None, LithiumVoltage, true, 0.5, 1.5;
      charge, ticks, prevCurrent, prevEffective, prevTs, lastSync, soc := 0.0, 0, None, None, None, None, None;
    }

    function State(): Estimator
      reads this
    {
      Estimator(capacity, mode, deadband, window, noiseFloor, charge, ticks,
                prevCurrent, prevEffective, prevTs, lastSync, soc)
    }

    method SwitchMode(name: Option<Mode>)
      modifies this
      ensures State() == SetMode(old(State()), name)
    {
      if name.None? {
        return;
      }
      if name.value != mode {
        ticks := 0;
      }
      mode := name.value;
    }

    method ChangeCapacity(value: Option<real>)
      modifies this
      ensures State() == SetCapacity(old(State()), value)
    {
      hide Fraction, Portion, Round2;
      if value.None? || value.value <= 0.0 {
        capacity := None;
        return;
      }
      var previous := capacity;
      capacity := value;
      if previous.None? {
        if soc.Some? {
          charge := Portion(Clamp(soc.value / 100.0, 0.0, 1.0), value.value);
        } else {
          WholePortion(value.value);
          charge := value.value;
          soc := Some(100.0);
        }
      } else {
        var frac;
        if previous.value > 0.0 {
          frac := Fraction(charge, previous.value);
        } else if soc.Some? {
          frac := soc.value / 100.0;
        } else {
          frac := 1.0;
        }
        frac := Clamp(frac, 0.0, 1.0);
        charge := Portion(frac, value.value);
        soc := Some(Round2(frac * 100.0));
      }
    }

    /** The integrator of a tick: the charge since the previous tick, and the new baseline. */
    method Accumulate(x: Sample)
      requires Counts(State(), x)
      modifies this
      ensures State() == Integrate(old(State()), x)
    {
      hide Trapezoid, Effective, Idle;
      var elapsed := if prevTs.Some? then x.now - prevTs.value else 0.0;
      var effective := Effective(mode, x.current);
      if Idle(State(), x) {
        prevCurrent, prevEffective, prevTs := Some(x.current), None, Some(x.now);
      } else {
        if prevEffective.Some? {
          charge := charge + Trapezoid(elapsed, prevEffective.value, effective);
        }
        prevCurrent, prevEffective, prevTs := Some(x.current), Some(effective), Some(x.now);
      }
    }

    /** The debounce of a tick. */
    method Debounce(x: Sample)
      requires Counts(State(), x)
      modifies this`ticks
      ensures ticks == NextTicks(old(State()), x)
    {
      hide FullThreshold, TailRate, Abs, Portion;
      var tail := Portion(TailRate(mode), capacity.value);
      var atVoltage := x.voltage >= FullThreshold(x);
      var atTail := Abs(x.current) <= tail;
      if atVoltage && atTail {
        ticks := ticks + 1;
      } else if x.current < -tail {
        ticks := 0;
      } else {
        ticks := if 0 >= ticks - 1 then 0 else ticks - 1;
      }
    }

    method Advance(x: Sample) returns (reported: Option<real>)
      modifies this
      ensures State() == Update(old(State()), x)
      ensures reported == soc
    {
      hide Fraction, Portion, Round2, Clamp;
      if capacity.None? || capacity.value <= 0.0 {
        soc := None;
        return None;
      }
      var full := capacity.value;
      if mode == LithiumBms && x.bms.Some? {
        charge := Portion(x.bms.value / 100.0, full);
        prevCurrent, prevEffective, prevTs := Some(x.current), None, Some(x.now);
        ticks := 0;
        soc := Some(Round2(x.bms.value));
        return soc;
      }
      if x.syncVoltage.None? {
        soc := None;
        return None;
      }
      Accumulate(x);
      assert NextTicks(State(), x) == NextTicks(old(State()), x);
      Debounce(x);
      assert State() == Integrate(old(State()), x).(ticks := NextTicks(old(State()), x));
      hide Integrate, NextTicks, Idle, Increment;
      var percent;
      if ticks >= SYNC_DEBOUNCE_TICKS {
        percent := 100.0;
        charge := full;
        if ticks == SYNC_DEBOUNCE_TICKS && x.wallNow.Some? {
          lastSync := x.wallNow;
        }
      } else {
        charge := Clamp(charge, 0.0, full);
        percent := Fraction(charge, full) * 100.0;
      }
      soc := Some(Round2(Clamp(percent, 0.0, 100.0)));
      reported := soc;
    }
  }
}

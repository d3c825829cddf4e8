/** The state-of-charge estimator in volts, amperes and ampere-hours: what counts as full,
    what a tick adds, and what it leaves out.
 */
module SocFigures {
  import opened Wrappers
  import opened Trapezoids
  import opened SocEstimator
  import opened SocRuns

  /** The voltage has reached the sync voltage, or a positive float voltage. */
  predicate AtFullVoltage(x: Sample)
  {
    || (x.syncVoltage.Some? && x.voltage >= x.syncVoltage.value)
    || (x.floatVoltage.Some? && x.floatVoltage.value > 0.0 && x.voltage >= x.floatVoltage.value)
  }

  /** A twentieth of the capacity, for lead-acid a fiftieth. */
  function Tail(mode: Mode, capacity: real): real
  {
    if mode == LeadAcid then 0.02 * capacity else 0.05 * capacity
  }

  /** The estimator counts the tick: its capacity is known, there is a sync voltage, and no
      reading of the BMS goes first. */
  predicate Counted(capacity: real, mode: Mode, x: Sample)
  {
    capacity > 0.0 && x.syncVoltage.Some? && (mode == LithiumBms ==> x.bms.None?)
  }

  lemma CountedIs(e: Estimator, capacity: real, x: Sample)
    requires e.capacity == Some(capacity)
    ensures Counted(capacity, e.mode, x) <==> Counts(e, x)
  {
  }

  /** What a counted tick does to the debounce counter. */
  lemma CounterExactly(e: Estimator, capacity: real, x: Sample)
    requires e.capacity == Some(capacity) && Counted(capacity, e.mode, x) && e.ticks >= 0
    ensures
      var tail, n := Tail(e.mode, capacity), Update(e, x);
      && n.capacity == e.capacity && n.mode == e.mode
      && n.ticks == (
           if AtFullVoltage(x) && -tail <= x.current <= tail then e.ticks + 1
           else if x.current < -tail || e.ticks == 0 then 0
           else e.ticks - 1)
      && (n.ticks >= 3 ==> n.soc == Some(100.0) && n.charge == capacity)
  {
    RoundIsNear(100.0);
    assert TailCurrent(e) == Tail(e.mode, capacity);
    assert x.voltage >= FullThreshold(x) <==> AtFullVoltage(x);
    hide Round2, Fraction, Increment, Tail, AtFullVoltage, FullThreshold, TailCurrent, Effective;
  }

  /** Three such ticks in a row report a full battery, from any state. */
  lemma ThreeTicksAreFull(e: Estimator, capacity: real, x: Sample, y: Sample, z: Sample)
    requires e.capacity == Some(capacity) && e.ticks >= 0
    requires forall s :: s in [x, y, z] ==>
      && Counted(capacity, e.mode, s) && AtFullVoltage(s)
      && -Tail(e.mode, capacity) <= s.current <= Tail(e.mode, capacity)
    ensures
      var n := Run(e, [Tick(x), Tick(y), Tick(z)]);
      n.soc == Some(100.0) && n.charge == capacity && n.ticks == e.ticks + 3
  {
    assert x in [x, y, z] && y in [x, y, z] && z in [x, y, z];
    var e1 := Update(e, x);
    var e2 := Update(e1, y);
    CounterExactly(e, capacity, x);
    CounterExactly(e1, capacity, y);
    CounterExactly(e2, capacity, z);
    hide Update, Tail, AtFullVoltage, Counted;
    RunOfThree(e, Tick(x), Tick(y), Tick(z));
  }

  lemma RunOfThree(e: Estimator, a: Op, b: Op, c: Op)
    ensures Run(e, [a]) == Apply(e, a)
    ensures Run(e, [a, b]) == Apply(Apply(e, a), b)
    ensures Run(e, [a, b, c]) == Apply(Apply(Apply(e, a), b), c)
  {
    hide Apply;
    RunSnoc(e, [], a);
    assert [] + [a] == [a];
    RunSnoc(e, [a], b);
    assert [a] + [b] == [a, b];
    RunSnoc(e, [a, b], c);
    assert [a, b] + [c] == [a, b, c];
  }

  // ---------------------------------------------------------------- what a tick adds

  /** Near the float voltage and with hardly any current, while the deadband is on. */
  predicate InDeadband(e: Estimator, x: Sample)
  {
    && e.deadband && x.floatVoltage.Some?
    && -e.window < x.voltage - x.floatVoltage.value < e.window
    && -e.noiseFloor <= x.current <= e.noiseFloor
  }

  lemma IdleIs(e: Estimator, x: Sample)
    ensures InDeadband(e, x) <==> Idle(e, x)
  {
  }

  /** What a current is worth: charging loses 1%, with lead-acid 10%; discharging takes out
      more than it gives with lead-acid only, where 5% are lost.  A BMS tells its own losses. */
  function Worth(mode: Mode, current: real): real
  {
    if current < 0.0 then
      if mode == LeadAcid then current / 0.95 else current
    else
      match mode
      case LithiumVoltage => current * 0.99
      case LeadAcid => current * 0.9
      case LithiumBms => current
  }

  lemma EffectiveIsWorth(mode: Mode, current: real)
    ensures Effective(mode, current) == Worth(mode, current)
  {
  }

  /** A counted tick after one that was counted, both outside the deadband: the mean worth of
      the two currents times the time in hours, limited to what the battery holds. */
  lemma TickAdds(
      e: Estimator, capacity: real, x: Sample, y: Sample, hours: real, a: real, b: real, added: real)
    requires e.capacity == Some(capacity) && Counted(capacity, e.mode, x) && Counted(capacity, e.mode, y)
    requires !InDeadband(e, x) && !InDeadband(e, y)
    requires a == Worth(e.mode, x.current) && b == Worth(e.mode, y.current)
    requires hours == (y.now - x.now) / 3600.0 && added == hours * (a + b) / 2.0
    ensures
      var k, n := Run(e, [Tick(x)]), Run(e, [Tick(x), Tick(y)]);
      n.charge ==
        if n.ticks >= 3 || k.charge + added > capacity then capacity
        else if k.charge + added < 0.0 then 0.0 else k.charge + added
  {
    EffectiveIsWorth(e.mode, x.current);
    EffectiveIsWorth(e.mode, y.current);
    CountedIs(e, capacity, x);
    IdleIs(e, x);
    LeavesBaseline(e, x);
    var k := Update(e, x);
    CountedIs(k, capacity, y);
    IdleIs(k, y);
    assert InDeadband(k, y) <==> InDeadband(e, y) by { hide Update, Run, Counts; }
    hide Run, Update, Increment, Worth, InDeadband, Idle, Effective, Counts, Counted;
    RunOfThree(e, Tick(x), Tick(y), Tick(y));
    IncrementIs(k, y, x.now, a, b, hours, added);
    UpdateCharges(k, y);
  }

  lemma IncrementIs(e: Estimator, x: Sample, at: real, a: real, b: real, hours: real, added: real)
    requires e.prevTs == Some(at) && e.prevEffective == Some(a) && !Idle(e, x) && Effective(e.mode, x.current) == b
    requires hours == (x.now - at) / 3600.0 && added == hours * (a + b) / 2.0
    ensures Increment(e, x) == added
  {
    hide Idle, Effective;
  }

  lemma LeavesBaseline(e: Estimator, x: Sample)
    requires Counts(e, x)
    ensures
      var n := Update(e, x);
      && n.capacity == e.capacity && n.mode == e.mode && n.deadband == e.deadband
      && n.window == e.window && n.noiseFloor == e.noiseFloor && n.prevTs == Some(x.now)
      && n.prevEffective == if Idle(e, x) then None else Some(Effective(e.mode, x.current))
  {
    hide Increment, Effective, Idle, Round2, Fraction, NextTicks;
  }

  lemma UpdateCharges(e: Estimator, x: Sample)
    requires Counts(e, x)
    ensures
      var n, sum := Update(e, x), e.charge + Increment(e, x);
      n.charge == if n.ticks >= 3 then e.capacity.value else Clamp(sum, 0.0, e.capacity.value)
  {
    hide Increment, Effective, Idle, Round2, Fraction, NextTicks;
  }

  /** A tick in the deadband adds nothing, and neither does the one after it. */
  lemma DeadbandAddsNothing(e: Estimator, capacity: real, x: Sample, y: Sample)
    requires e.capacity == Some(capacity) && Counted(capacity, e.mode, x) && Counted(capacity, e.mode, y)
    requires InDeadband(e, x) && e.ticks >= 0 && 0.0 <= e.charge <= capacity
    ensures
      var k, n := Run(e, [Tick(x)]), Run(e, [Tick(x), Tick(y)]);
      && k.charge == (if k.ticks >= 3 then capacity else e.charge)
      && n.charge == (if n.ticks >= 3 then capacity else k.charge)
  {
    var k := Update(e, x);
    RunOfThree(e, Tick(x), Tick(y), Tick(y));
    IdleIs(e, x);
    LeavesBaseline(e, x);
    UpdateCharges(e, x);
    UpdateCharges(k, y);
    assert Increment(e, x) == 0.0 && Increment(k, y) == 0.0 by { hide Update, Run; }
    hide Run, Increment, InDeadband, Idle, Update;
  }

  /** When the deadband applies: by default within 0.5 V of the float voltage and up to 1.5 A,
      and as it was set last; a negative figure stands for zero. */
  lemma DeadbandExactly(e: Estimator, enabled: bool, window: real, noiseFloor: real, x: Sample, float: real)
    requires x.floatVoltage == Some(float)
    ensures InDeadband(FRESH, x) <==> -0.5 < x.voltage - float < 0.5 && -1.5 <= x.current <= 1.5
    ensures InDeadband(Run(e, [ChangeDeadband(enabled, window, noiseFloor)]), x) <==>
      && enabled && -window < x.voltage - float < window
      && (-noiseFloor <= x.current <= noiseFloor || x.current == 0.0)
  {
    var op := ChangeDeadband(enabled, window, noiseFloor);
    RunOfThree(e, op, op, op);
    hide Run;
  }

  // ---------------------------------------------------------------- modes, restores, reports

  /** In BMS mode the BMS's percentage is reported as it is, whatever came before, the charge
      is that part of the capacity, and the debounce starts over. */
  lemma BmsIsMirrored(e: Estimator, capacity: real, x: Sample, percent: real)
    requires e.capacity == Some(capacity) && capacity > 0.0 && x.bms == Some(percent)
    ensures
      var n := Run(e, [ChangeMode(Some(LithiumBms)), Tick(x)]);
      && n.soc == Some(Round2(percent)) && n.charge == percent / 100.0 * capacity && n.ticks == 0
      && n.mode == LithiumBms && n.capacity == e.capacity
  {
    var op := ChangeMode(Some(LithiumBms));
    RunOfThree(e, op, Tick(x), Tick(x));
    hide Run, Round2;
  }

  /** Without a capacity or a sync voltage nothing is reported. */
  lemma UnknownIsNotReported(e: Estimator, x: Sample)
    requires e.capacity.None? || (x.syncVoltage.None? && (e.mode == LithiumBms ==> x.bms.None?))
    ensures Run(e, [Tick(x)]) == e.(soc := None)
  {
    RunOfThree(e, Tick(x), Tick(x), Tick(x));
    hide Run;
  }

  /** A restart: the restored percentage decides the charge when the capacity becomes known,
      and the first tick adds nothing to it. */
  lemma RestartResumes(percent: real, charge: real, synced: Option<int>, capacity: real, x: Sample)
    requires 0.0 <= percent <= 100.0 && Counted(capacity, LithiumVoltage, x)
    ensures
      var n := Run(FRESH, [Restored(Some(percent), charge, synced), ChangeCapacity(Some(capacity)), Tick(x)]);
      n.charge == percent / 100.0 * capacity && n.lastSync == synced
  {
    var r := Restored(Some(percent), charge, synced);
    var c := ChangeCapacity(Some(capacity));
    RunOfThree(FRESH, r, c, Tick(x));
    var e := Apply(Apply(FRESH, r), c);
    assert e.charge == Portion(percent / 100.0, capacity) && e.prevEffective.None? && e.ticks == 0;
    PortionInRange(percent / 100.0, capacity);
    UpdateCharges(e, x);
    assert Update(e, x).lastSync == e.lastSync by { CounterExactly(e, capacity, x); hide Round2, Fraction, Increment; }
    hide Run, Apply, Update, Tail, AtFullVoltage;
    CounterExactly(e, capacity, x);
  }

  /** State that is restored while the capacity is known is taken as it is. */
  lemma RestoreIsTaken(e: Estimator, capacity: real, soc: Option<real>, charge: real, synced: Option<int>, x: Sample)
    requires e.capacity == Some(capacity) && Counted(capacity, e.mode, x) && e.prevEffective.None?
    requires 0.0 <= charge <= capacity && e.ticks == 0
    ensures Run(e, [Restored(soc, charge, synced)]).soc == soc
    ensures
      var n := Run(e, [Restored(soc, charge, synced), Tick(x)]);
      n.charge == charge && n.lastSync == synced
  {
    var r := Restored(soc, charge, synced);
    RunOfThree(e, r, Tick(x), Tick(x));
    var k := Apply(e, r);
    UpdateCharges(k, x);
    assert Update(k, x).lastSync == synced by { CounterExactly(k, capacity, x); hide Round2, Fraction, Increment; }
    hide Run, Update, Tail, AtFullVoltage;
    CounterExactly(k, capacity, x);
  }

  /** Over any run from a new estimator, a report is within 0.005 of the charge's percentage. */
  lemma ReportsAreNear(ops: seq<Op>, capacity: real, soc: real)
    requires AllAllowed(FRESH, ops)
    requires Run(FRESH, ops).capacity == Some(capacity) && Run(FRESH, ops).soc == Some(soc)
    ensures capacity > 0.0 && 0.0 <= Run(FRESH, ops).charge <= capacity && 0.0 <= soc <= 100.0
    ensures -0.005 <= soc - Run(FRESH, ops).charge / capacity * 100.0 <= 0.005
  {
    EveryRunIsSound(ops);
    hide Run;
  }
}

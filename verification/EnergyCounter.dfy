/** Energy counters that integrate sampled power, and the filters before them.

    Power is in W, energy in Wh and time in seconds, all real numbers.
 */
module EnergyCounter {
  import opened Sanity
  import opened Trapezoids
  import opened Wrappers

  // ---------------------------------------------------------------- filters

  datatype Sensor = Power | Pv2 | BatteryIn | BatteryOut

  /** What the coordinator holds for a sensor: the numbers it could read. */
  datatype Sample = Sample(power: Option<real>, current: Option<real>, voltage: Option<real>)

  /** A sample is ignored, or it breaks the integration, or it is integrated. */
  datatype Verdict = Ignore | Break | Use(power: real)

  function Filter(sensor: Sensor, x: Sample): Verdict
  {
    match sensor
    case Power =>
      if x.power.None? then Ignore else if PlausiblePower(x.power.value) then Use(x.power.value) else Break
    case Pv2 =>
      if x.current.None? || x.voltage.None? then Break
      else
        var p := x.current.value * x.voltage.value;
        if PlausiblePower(p) then Use(p) else Break
    case BatteryIn =>
      if !BatteryReading(x) then Break
      else Use(if x.current.value > 0.0 then x.current.value * x.voltage.value else 0.0)
    case BatteryOut =>
      if !BatteryReading(x) then Break
      else
        var p := x.current.value * x.voltage.value;
        Use(if p <= 0.0 then 0.0 else p)
  }

  /** Two plausible numbers, not both zero. */
  predicate BatteryReading(x: Sample)
  {
    && x.current.Some? && x.voltage.Some?
    && !(x.current.value == 0.0 && x.voltage.value == 0.0)
    && PlausibleCurrent(x.current.value) && PlausibleVoltage(x.voltage.value)
  }

  // ---------------------------------------------------------------- the counter

  datatype Counter = Counter(total: real, prevPower: Option<real>, prevTs: real)

  function BreakAt(c: Counter, now: real): Counter { c.(prevPower := None, prevTs := now) }

  function Integrate(c: Counter, now: real, power: real): Counter
  {
    var elapsed := now - c.prevTs;
    var next := c.(prevPower := Some(power), prevTs := now);
    if c.prevPower.None? then next
    else
      var step := Trapezoid(elapsed, c.prevPower.value, power);
      if 0.0 <= step <= MaxStepWh(elapsed) then next.(total := c.total + step) else BreakAt(c, now)
  }

  function Apply(c: Counter, now: real, v: Verdict): Counter
  {
    match v
    case Ignore => c
    case Break => BreakAt(c, now)
    case Use(power) => Integrate(c, now, power)
  }

  class EnergySensor {
    const sensor: Sensor
    var total: real
    var prevPower: Option<real>
    var prevTs: real

    constructor (sensor: Sensor, restored: Option<real>, now: real)
      ensures this.sensor == sensor
      ensures State() == Counter(if restored.Some? then restored.value else 0.0, None, now)
    {
      this.sensor := sensor;
      total, prevPower, prevTs := if restored.Some? then restored.value else 0.0, None, now;
    }

    function State(): Counter
      reads this
    {
      Counter(total, prevPower, prevTs)
    }

    method UpdateEnergyValue(now: real, power: real)
      modifies this
      ensures State() == Integrate(old(State()), now, power)
    {
      hide Trapezoid, MaxStepWh;
      var elapsed := now - prevTs;
      if prevPower.Some? {
        var step := Trapezoid(elapsed, prevPower.value, power);
        if 0.0 <= step <= MaxStepWh(elapsed) {
          total := total + step;
        } else {
          prevPower, prevTs := None, now;
          return;
        }
      }
      prevPower, prevTs := Some(power), now;
    }

    method HandleUpdate(now: real, x: Sample)
      modifies this
      ensures State() == Apply(old(State()), now, Filter(sensor, x))
    {
      hide Integrate;
      match Filter(sensor, x) {
        case Ignore =>
        case Break => prevPower, prevTs := None, now;
        case Use(power) => UpdateEnergyValue(now, power);
      }
    }
  }

  // ---------------------------------------------------------------- runs

  datatype Tick = Tick(now: real, x: Sample)

  function Run(sensor: Sensor, c: Counter, ts: seq<Tick>): Counter
    decreases |ts|
  {
    if ts == [] then c else Run(sensor, Apply(c, ts[0].now, Filter(sensor, ts[0].x)), ts[1..])
  }

  /** The clock does not go back. */
  predicate Ordered(at: real, ts: seq<Tick>)
    decreases |ts|
  {
    ts == [] || (at <= ts[0].now && Ordered(ts[0].now, ts[1..]))
  }

  /** The highest power that a filter lets through. */
  function Ceiling(sensor: Sensor): real
  {
    if sensor.BatteryIn? || sensor.BatteryOut? then 36000.0 else MAX_PLAUSIBLE_POWER_W
  }

  predicate WithinCeiling(sensor: Sensor, power: real)
  {
    && -MAX_PLAUSIBLE_POWER_W <= power <= Ceiling(sensor)
    && (sensor.BatteryIn? || sensor.BatteryOut? ==> power >= 0.0)
  }

  lemma FilterBounds(sensor: Sensor, x: Sample)
    ensures Filter(sensor, x).Use? ==> WithinCeiling(sensor, Filter(sensor, x).power)
  {
    if BatteryReading(x) {
      PowerBounds(x.current.value, x.voltage.value);
    }
  }

  lemma PowerBounds(current: real, voltage: real)
    requires PlausibleCurrent(current) && PlausibleVoltage(voltage)
    ensures 0.0 <= current * voltage <= 36000.0
  {
    if current > 0.0 { ProductIsPositive(current, voltage); }
    if current < 300.0 { ProductIsPositive(300.0 - current, voltage); }
    assert (300.0 - current) * voltage == 300.0 * voltage - current * voltage;
  }

  predicate CounterOk(sensor: Sensor, c: Counter) { c.prevPower.Some? ==> WithinCeiling(sensor, c.prevPower.value) }

  /** A step between two admitted samples stays below both ceilings. */
  lemma StepBounds(sensor: Sensor, elapsed: real, a: real, b: real)
    requires elapsed >= 0.0 && WithinCeiling(sensor, a) && WithinCeiling(sensor, b)
    ensures Trapezoid(elapsed, a, b) <= Ceiling(sensor) * elapsed / 3600.0
    ensures Trapezoid(elapsed, a, b) <= MaxStepWh(elapsed)
    ensures sensor.BatteryIn? || sensor.BatteryOut? ==> Trapezoid(elapsed, a, b) >= 0.0
  {
    var p := Ceiling(sensor);
    TrapezoidGrows(elapsed, a, b, p, p);
    assert Trapezoid(elapsed, p, p) == p * elapsed / 3600.0;
    if sensor.BatteryIn? || sensor.BatteryOut? {
      TrapezoidGrows(elapsed, 0.0, 0.0, a, b);
    }
  }

  /** The counter never decreases, whatever the clock does. */
  lemma {:induction false} NeverDecreases(sensor: Sensor, c: Counter, ts: seq<Tick>)
    ensures Run(sensor, c, ts).total >= c.total
    decreases |ts|
  {
    if ts != [] {
      hide Trapezoid, MaxStepWh, Filter;
      NeverDecreases(sensor, Apply(c, ts[0].now, Filter(sensor, ts[0].x)), ts[1..]);
    }
  }

  // ---------------------------------------------------------------- the total as a sum

  /** A sample that reached the integrator, or a break. */
  datatype Point = Broken(at: real) | At(at: real, power: real)

  function Points(sensor: Sensor, ts: seq<Tick>): seq<Point>
  {
    if ts == [] then []
    else
      var rest := Points(sensor, ts[1..]);
      match Filter(sensor, ts[0].x)
      case Ignore => rest
      case Break => [Broken(ts[0].now)] + rest
      case Use(power) => [At(ts[0].now, power)] + rest
  }

  function Base(c: Counter): Point { if c.prevPower.Some? then At(c.prevTs, c.prevPower.value) else Broken(c.prevTs) }

  function StepOf(p: Point, q: Point): real
  {
    if p.At? && q.At? then Trapezoid(q.at - p.at, p.power, q.power) else 0.0
  }

  /** The points that stay: one that comes with a negative step is dropped, and the next
      pair does not include it. */
  function Retained(base: Point, ps: seq<Point>): seq<Point>
    decreases |ps|
  {
    if ps == [] then []
    else
      var kept := if StepOf(base, ps[0]) < 0.0 then Broken(ps[0].at) else ps[0];
      [kept] + Retained(kept, ps[1..])
  }

  /** The sum of the trapezoids over adjacent points. */
  function Area(base: Point, ps: seq<Point>): real
    decreases |ps|
  {
    if ps == [] then 0.0 else StepOf(base, ps[0]) + Area(ps[0], ps[1..])
  }

  /** One tick with a clock that does not go back: only a negative step is dropped. */
  lemma OnlyNegativeStepsDrop(sensor: Sensor, c: Counter, now: real, power: real)
    requires CounterOk(sensor, c) && c.prevTs <= now && WithinCeiling(sensor, power)
    ensures
      var n, step := Integrate(c, now, power), StepOf(Base(c), At(now, power));
      && CounterOk(sensor, n)
      && (if step < 0.0 then n == BreakAt(c, now) else n == Counter(c.total + step, Some(power), now))
      && step <= Ceiling(sensor) * (now - c.prevTs) / 3600.0
  {
    if c.prevPower.Some? {
      StepBounds(sensor, now - c.prevTs, c.prevPower.value, power);
    }
    hide Trapezoid, MaxStepWh, WithinCeiling;
  }

  /** With a clock that does not go back, the upper ceiling never fires: the total is the
      sum of the trapezoids over adjacent retained samples. */
  lemma {:induction false} TotalIsSum(sensor: Sensor, c: Counter, ts: seq<Tick>)
    requires CounterOk(sensor, c) && Ordered(c.prevTs, ts)
    ensures Run(sensor, c, ts).total == c.total + Area(Base(c), Retained(Base(c), Points(sensor, ts)))
    decreases |ts|
  {
    if ts != [] {
      var v, n := Filter(sensor, ts[0].x), Apply(c, ts[0].now, Filter(sensor, ts[0].x));
      OrderedFrom(c.prevTs, ts);
      FilterBounds(sensor, ts[0].x);
      if v.Use? {
        OnlyNegativeStepsDrop(sensor, c, ts[0].now, v.power);
      }
      hide Integrate, Filter, Trapezoid, WithinCeiling;
      TotalIsSum(sensor, n, ts[1..]);
      var ps := Points(sensor, ts);
      if !v.Ignore? {
        assert ps[1..] == Points(sensor, ts[1..]);
        var kept := Retained(Base(c), ps);
        assert kept[1..] == Retained(kept[0], ps[1..]);
      }
    }
  }

  lemma OrderedFrom(at: real, ts: seq<Tick>)
    requires ts != [] && Ordered(at, ts)
    ensures Ordered(at, ts[1..]) && Ordered(ts[0].now, ts[1..])
  {
  }

  /** The battery sensors drop no step at all. */
  lemma {:induction false} BatteryTotalIsSum(sensor: Sensor, c: Counter, ts: seq<Tick>)
    requires sensor.BatteryIn? || sensor.BatteryOut?
    requires CounterOk(sensor, c) && Ordered(c.prevTs, ts)
    ensures Run(sensor, c, ts).total == c.total + Area(Base(c), Points(sensor, ts))
    decreases |ts|
  {
    if ts != [] {
      var v, n := Filter(sensor, ts[0].x), Apply(c, ts[0].now, Filter(sensor, ts[0].x));
      OrderedFrom(c.prevTs, ts);
      FilterBounds(sensor, ts[0].x);
      if v.Use? {
        OnlyNegativeStepsDrop(sensor, c, ts[0].now, v.power);
        if c.prevPower.Some? {
          StepBounds(sensor, ts[0].now - c.prevTs, c.prevPower.value, v.power);
        }
      }
      hide Integrate, Filter, Trapezoid, WithinCeiling;
      BatteryTotalIsSum(sensor, n, ts[1..]);
      if !v.Ignore? {
        assert Points(sensor, ts)[1..] == Points(sensor, ts[1..]);
      }
    }
  }

  /** What `Ceiling` amounts to in `elapsed` seconds. */
  function MostIn(sensor: Sensor, elapsed: real): real { Ceiling(sensor) * elapsed / 3600.0 }

  lemma MostInAdds(sensor: Sensor, a: real, b: real)
    ensures MostIn(sensor, a) + MostIn(sensor, b) == MostIn(sensor, a + b)
    ensures a >= 0.0 ==> MostIn(sensor, a) >= 0.0
  {
  }

  /** The gain is at most 50 kW times the elapsed time, and 36 kW for a battery sensor. */
  lemma {:induction false} GainIsBounded(sensor: Sensor, c: Counter, ts: seq<Tick>)
    requires CounterOk(sensor, c) && Ordered(c.prevTs, ts)
    ensures c.prevTs <= Run(sensor, c, ts).prevTs <= if ts == [] then c.prevTs else ts[|ts| - 1].now
    ensures Run(sensor, c, ts).total - c.total <= MostIn(sensor, Run(sensor, c, ts).prevTs - c.prevTs)
    decreases |ts|
  {
    if ts == [] {
      MostInAdds(sensor, 0.0, 0.0);
    } else {
      var v, n := Filter(sensor, ts[0].x), Apply(c, ts[0].now, Filter(sensor, ts[0].x));
      OrderedFrom(c.prevTs, ts);
      FilterBounds(sensor, ts[0].x);
      MostInAdds(sensor, ts[0].now - c.prevTs, 0.0);
      if v.Use? {
        OnlyNegativeStepsDrop(sensor, c, ts[0].now, v.power);
      }
      assert c.prevTs <= n.prevTs <= ts[0].now;
      assert n.total - c.total <= MostIn(sensor, n.prevTs - c.prevTs) by {
        MostInAdds(sensor, 0.0, 0.0);
      }
      assert Ordered(n.prevTs, ts[1..]) && CounterOk(sensor, n);
      hide Integrate, Filter, Trapezoid, WithinCeiling, MostIn;
      GainIsBounded(sensor, n, ts[1..]);
      var end := Run(sensor, n, ts[1..]).prevTs;
      MostInAdds(sensor, n.prevTs - c.prevTs, end - n.prevTs);
    }
  }

  // ---------------------------------------------------------------- from the start of a sensor

  /** A sensor as it starts: with its restored total, at a time, and no sample yet. */
  function Started(total: real, at: real): Counter { Counter(total, None, at) }

  lemma EveryTotalIsSum(sensor: Sensor, total: real, at: real, ts: seq<Tick>)
    requires Ordered(at, ts)
    ensures Run(sensor, Started(total, at), ts).total ==
      total + Area(Broken(at), Retained(Broken(at), Points(sensor, ts)))
    ensures sensor.BatteryIn? || sensor.BatteryOut? ==>
      Run(sensor, Started(total, at), ts).total == total + Area(Broken(at), Points(sensor, ts))
  {
    TotalIsSum(sensor, Started(total, at), ts);
    if sensor.BatteryIn? || sensor.BatteryOut? {
      BatteryTotalIsSum(sensor, Started(total, at), ts);
    }
  }

  lemma EveryGainIsBounded(sensor: Sensor, total: real, at: real, ts: seq<Tick>)
    requires Ordered(at, ts) && ts != []
    ensures total <= Run(sensor, Started(total, at), ts).total
    ensures
      var most := if sensor == BatteryIn || sensor == BatteryOut then 36000.0 else 50000.0;
      Run(sensor, Started(total, at), ts).total <= total + most * (ts[|ts| - 1].now - at) / 3600.0
  {
    var c := Started(total, at);
    NeverDecreases(sensor, c, ts);
    GainIsBounded(sensor, c, ts);
    var end := Run(sensor, c, ts).prevTs;
    hide Run, Ordered, MostIn;
    MostInAdds(sensor, end - at, ts[|ts| - 1].now - end);
    MostInAdds(sensor, ts[|ts| - 1].now - end, 0.0);
  }

  // ---------------------------------------------------------------- in plain figures

  /** The power that a sample stands for, where its figures are physically possible. */
  predicate Reads(sensor: Sensor, x: Sample, power: real)
  {
    match sensor
    case Power => x.power == Some(power) && -50000.0 <= power <= 50000.0
    case Pv2 =>
      && x.current.Some? && x.voltage.Some? && power == x.current.value * x.voltage.value
      && -50000.0 <= power <= 50000.0
    case _ =>
      && x.current.Some? && x.voltage.Some? && power == x.current.value * x.voltage.value
      && 0.0 <= x.current.value <= 300.0 && 10.0 <= x.voltage.value <= 120.0
  }

  /** A sample that stands for no power, other than one that the sensor passes over. */
  ghost predicate Unreadable(sensor: Sensor, x: Sample)
  {
    (forall power :: !Reads(sensor, x, power)) && (sensor.Power? ==> x.power.Some?)
  }

  lemma FilterReads(sensor: Sensor, x: Sample, power: real)
    ensures Reads(sensor, x, power) ==> Filter(sensor, x) == Use(power)
    ensures sensor.Power? && x.power.None? ==> Filter(sensor, x) == Ignore
  {
    if Reads(sensor, x, power) && !sensor.Power? {
      ReadsProduct(sensor, x, x.current.value, x.voltage.value, power);
    }
  }

  lemma ReadsProduct(sensor: Sensor, x: Sample, current: real, voltage: real, power: real)
    requires !sensor.Power? && Reads(sensor, x, power) && x.current == Some(current) && x.voltage == Some(voltage)
    ensures Filter(sensor, x) == Use(power)
  {
    if !sensor.Pv2? {
      PowerBounds(current, voltage);
      ZeroTimes(voltage);
      assert BatteryReading(x);
    }
  }

  lemma ZeroTimes(x: real)
    ensures 0.0 * x == 0.0
  {
  }

  lemma FilterBreaks(sensor: Sensor, x: Sample)
    requires Unreadable(sensor, x)
    ensures Filter(sensor, x) == Break
  {
    var figure := if x.power.Some? then x.power.value else 0.0;
    var product := if x.current.Some? && x.voltage.Some? then x.current.value * x.voltage.value else 0.0;
    assert !Reads(sensor, x, figure) && !Reads(sensor, x, product);
  }

  /** What a reading after a reading that was kept adds, whatever the history and the clock:
      the mean power times the time in hours, unless that is negative, or exceeds 100 Wh
      while the clock went back.  A reading whose step is not added is not kept: the next
      one starts anew. */
  lemma TwoReadings(
      sensor: Sensor, c: Counter, x: Tick, y: Tick, z: Tick, p: real, q: real, r: real, elapsed: real, step: real)
    requires Reads(sensor, x.x, p) && Reads(sensor, y.x, q) && Reads(sensor, z.x, r)
    requires Run(sensor, c, [x]).prevPower.Some?
    requires elapsed == y.now - x.now && step == elapsed / 3600.0 * (p + q) / 2.0
    ensures
      var before, after := Run(sensor, c, [x]).total, Run(sensor, c, [x, y]).total;
      if 0.0 <= step && (elapsed >= 0.0 || step <= 100.0) then after == before + step
      else after == before == Run(sensor, c, [x, y, z]).total
  {
    FilterReads(sensor, x.x, p);
    FilterReads(sensor, y.x, q);
    FilterReads(sensor, z.x, r);
    FilterBounds(sensor, x.x);
    FilterBounds(sensor, y.x);
    RunOfThree(sensor, c, x, y, z);
    var k := Apply(c, x.now, Filter(sensor, x.x));
    hide Filter, Reads, Run, WithinCeiling;
    assert k.prevPower == Some(p) && k.prevTs == x.now;
    StepsExactly(sensor, k, y.now, p, q, elapsed, step);
    FirstAfterBreak(k, y.now, z.now, r);
    hide Integrate;
  }

  lemma FirstAfterBreak(c: Counter, at: real, now: real, power: real)
    ensures Integrate(BreakAt(c, at), now, power) == Counter(c.total, Some(power), now)
  {
  }

  /** One step between admitted samples: the ceiling matters only if the clock goes back. */
  lemma StepsExactly(sensor: Sensor, c: Counter, now: real, p: real, q: real, elapsed: real, step: real)
    requires WithinCeiling(sensor, p) && WithinCeiling(sensor, q) && c.prevPower == Some(p)
    requires elapsed == now - c.prevTs && step == elapsed / 3600.0 * (p + q) / 2.0
    ensures Integrate(c, now, q) ==
      if 0.0 <= step && (elapsed >= 0.0 || step <= 100.0) then Counter(c.total + step, Some(q), now)
      else BreakAt(c, now)
  {
    if elapsed >= 0.0 {
      StepBounds(sensor, elapsed, p, q);
    } else {
      assert MaxStepWh(elapsed) == 100.0;
    }
    assert Trapezoid(elapsed, p, q) == step;
    hide Trapezoid, MaxStepWh, WithinCeiling;
  }

  lemma RunOfThree(sensor: Sensor, c: Counter, x: Tick, y: Tick, z: Tick)
    ensures
      var k := Apply(c, x.now, Filter(sensor, x.x));
      var l := Apply(k, y.now, Filter(sensor, y.x));
      && Run(sensor, c, [x]) == k && Run(sensor, c, [x, y]) == l
      && Run(sensor, c, [x, y, z]) == Apply(l, z.now, Filter(sensor, z.x))
  {
    var k := Apply(c, x.now, Filter(sensor, x.x));
    var l := Apply(k, y.now, Filter(sensor, y.x));
    hide Apply, Filter;
    OneTick(sensor, c, x, []);
    OneTick(sensor, c, x, [y]);
    OneTick(sensor, k, y, []);
    OneTick(sensor, c, x, [y, z]);
    OneTick(sensor, k, y, [z]);
    OneTick(sensor, l, z, []);
  }

  lemma OneTick(sensor: Sensor, c: Counter, x: Tick, later: seq<Tick>)
    ensures Run(sensor, c, [x] + later) == Run(sensor, Apply(c, x.now, Filter(sensor, x.x)), later)
  {
    hide Apply, Filter;
    assert ([x] + later)[1..] == later;
  }

  /** Nothing is added across a sample that cannot be read, for any sensor; but a power
      sensor spans the times at which it has no figure. */
  lemma GapsAddNothing(sensor: Sensor, c: Counter, x: Tick, y: Tick, z: Tick, p: real, r: real)
    requires Reads(sensor, x.x, p) && Reads(sensor, z.x, r)
    ensures Unreadable(sensor, y.x) ==> Run(sensor, c, [x, y, z]).total == Run(sensor, c, [x]).total
    ensures sensor.Power? && y.x.power.None? ==> Run(sensor, c, [x, y, z]) == Run(sensor, c, [x, z])
  {
    FilterReads(sensor, x.x, p);
    FilterReads(sensor, y.x, 0.0);
    FilterReads(sensor, z.x, r);
    if Unreadable(sensor, y.x) {
      FilterBreaks(sensor, y.x);
    }
    RunOfThree(sensor, c, x, y, z);
    RunOfThree(sensor, c, x, z, z);
    hide Filter, Reads, Unreadable, Run, Trapezoid, MaxStepWh;
  }
}

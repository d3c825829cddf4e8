/** Where the charge of the estimator comes from, over runs without BMS readings,
    capacity edits or restores.
 */
module SocLedger {
  import opened Wrappers
  import opened Trapezoids
  import opened SocEstimator
  import opened SocRuns

  /** A current measured while not idle, and what it is worth after losses. */
  datatype Point = Point(at: real, current: real, effective: real)

  /** Charge added by the snap to full, and charge cut off below empty and above full. */
  datatype Ledger = Ledger(snapped: real, low: real, high: real)

  predicate Steady(e: Estimator, op: Op)
  {
    match op
    case ChangeMode(_) => true
    case ChangeDeadband(_, _, _) => true
    case Tick(x) => !Mirrors(e, x)
    case _ => false
  }

  predicate AllSteady(e: Estimator, ops: seq<Op>)
    decreases |ops|
  {
    ops == [] || (Steady(e, ops[0]) && AllSteady(Apply(e, ops[0]), ops[1..]))
  }

  // ---------------------------------------------------------------- trapezoids over the samples

  /** The measurements of a run, in order; an idle tick interrupts them. */
  function Points(e: Estimator, ops: seq<Op>): seq<Option<Point>>
    decreases |ops|
  {
    if ops == [] then []
    else
      var rest := Points(Apply(e, ops[0]), ops[1..]);
      if ops[0].Tick? && Counts(e, ops[0].x) then [PointOf(e, ops[0].x)] + rest else rest
  }

  function PointOf(e: Estimator, x: Sample): Option<Point>
  {
    if Idle(e, x) then None else Some(Point(x.now, x.current, Effective(e.mode, x.current)))
  }

  function Pair(p: Option<Point>, q: Option<Point>): real
  {
    if p.Some? && q.Some?
    then Trapezoid(q.value.at - p.value.at, p.value.effective, q.value.effective) else 0.0
  }

  function RawPair(p: Option<Point>, q: Option<Point>): real
  {
    if p.Some? && q.Some?
    then Trapezoid(q.value.at - p.value.at, p.value.current, q.value.current) else 0.0
  }

  /** The sum of the trapezoids over adjacent measurements, after losses. */
  function Area(base: Option<Point>, ps: seq<Option<Point>>): real
    decreases |ps|
  {
    if ps == [] then 0.0 else Pair(base, ps[0]) + Area(ps[0], ps[1..])
  }

  /** The same for the measured currents themselves. */
  function RawArea(base: Option<Point>, ps: seq<Option<Point>>): real
    decreases |ps|
  {
    if ps == [] then 0.0 else RawPair(base, ps[0]) + RawArea(ps[0], ps[1..])
  }

  /** The measurement that the next trapezoid starts from. */
  function Base(e: Estimator): Option<Point>
  {
    if e.prevEffective.Some? && e.prevTs.Some? && e.prevCurrent.Some?
    then Some(Point(e.prevTs.value, e.prevCurrent.value, e.prevEffective.value)) else None
  }

  predicate PointOk(p: Option<Point>) { p.Some? ==> p.value.effective <= p.value.current }

  predicate BaseOk(e: Estimator)
  {
    (e.prevEffective.Some? ==> e.prevTs.Some? && e.prevCurrent.Some?) && PointOk(Base(e))
  }

  // ---------------------------------------------------------------- the ledger

  function Entry(e: Estimator, x: Sample): Ledger
    requires Counts(e, x)
  {
    var sum, full := e.charge + Increment(e, x), e.capacity.value;
    var snaps := NextTicks(e, x) >= SYNC_DEBOUNCE_TICKS;
    Ledger(if snaps then Max(0.0, full - sum) else 0.0, if snaps then 0.0 else Max(0.0, -sum), Max(0.0, sum - full))
  }

  function LedgerOf(e: Estimator, ops: seq<Op>): (l: Ledger)
    ensures l.snapped >= 0.0 && l.low >= 0.0 && l.high >= 0.0
    decreases |ops|
  {
    if ops == [] then Ledger(0.0, 0.0, 0.0)
    else
      var rest := LedgerOf(Apply(e, ops[0]), ops[1..]);
      if ops[0].Tick? && Counts(e, ops[0].x) then
        var entry := Entry(e, ops[0].x);
        Ledger(entry.snapped + rest.snapped, entry.low + rest.low, entry.high + rest.high)
      else rest
  }

  lemma EffectiveIsLess(mode: Mode, current: real)
    ensures Effective(mode, current) <= current
  {
  }

  lemma TickIsLedgered(e: Estimator, x: Sample)
    requires BaseOk(e) && Counts(e, x)
    ensures
      var n, l := Update(e, x), Entry(e, x);
      && n.charge == e.charge + Pair(Base(e), PointOf(e, x)) + l.snapped + l.low - l.high
      && Base(n) == PointOf(e, x) && BaseOk(n)
  {
    EffectiveIsLess(e.mode, x.current);
    assert Increment(e, x) == Pair(Base(e), PointOf(e, x)) by {
      hide Trapezoid, Effective, Idle;
    }
    hide Increment, Pair, Effective, Idle, NextTicks, Round2, Fraction, Counts;
    assert !Mirrors(e, x) by { assert Counts(e, x); CountsNotMirrors(e, x); }
  }

  lemma CountsNotMirrors(e: Estimator, x: Sample)
    requires Counts(e, x)
    ensures !Mirrors(e, x) && Configured(e)
  {
  }

  lemma OtherOpIsNeutral(e: Estimator, op: Op)
    requires Steady(e, op) && !(op.Tick? && Counts(e, op.x))
    ensures Apply(e, op).charge == e.charge && Base(Apply(e, op)) == Base(e)
    ensures BaseOk(e) ==> BaseOk(Apply(e, op))
  {
  }

  /** The final charge is the initial one, plus the trapezoids over the measurements after
      losses, plus what the snap added and the lower limit kept, minus what the upper limit
      cut off. */
  lemma {:induction false} ChargeIsLedgered(e: Estimator, ops: seq<Op>)
    requires BaseOk(e) && AllSteady(e, ops)
    ensures
      var l := LedgerOf(e, ops);
      Run(e, ops).charge == e.charge + Area(Base(e), Points(e, ops)) + l.snapped + l.low - l.high
    decreases |ops|
  {
    if ops != [] {
      var op := ops[0];
      var next := Apply(e, op);
      if op.Tick? && Counts(e, op.x) {
        TickIsLedgered(e, op.x);
        assert Points(e, ops)[1..] == Points(next, ops[1..]);
      } else {
        OtherOpIsNeutral(e, op);
      }
      hide Update, SetMode, SetDeadband, Base, BaseOk, Pair, Entry, PointOf, Counts;
      ChargeIsLedgered(next, ops[1..]);
    }
  }

  // ---------------------------------------------------------------- losses only lose

  predicate Ordered(base: Option<Point>, ps: seq<Option<Point>>)
    decreases |ps|
  {
    ps == [] ||
    ((base.Some? && ps[0].Some? ==> base.value.at <= ps[0].value.at) && Ordered(ps[0], ps[1..]))
  }

  lemma {:induction false} AreaAtMostRaw(base: Option<Point>, ps: seq<Option<Point>>)
    requires PointOk(base) && (forall i :: 0 <= i < |ps| ==> PointOk(ps[i])) && Ordered(base, ps)
    ensures Area(base, ps) <= RawArea(base, ps)
    decreases |ps|
  {
    if ps != [] {
      AreaAtMostRaw(ps[0], ps[1..]);
      if base.Some? && ps[0].Some? {
        var p, q := base.value, ps[0].value;
        TrapezoidGrows(q.at - p.at, p.effective, q.effective, p.current, q.current);
      }
    }
  }

  lemma {:induction false} PointsAreOk(e: Estimator, ops: seq<Op>)
    ensures forall i :: 0 <= i < |Points(e, ops)| ==> PointOk(Points(e, ops)[i])
    decreases |ops|
  {
    if ops != [] {
      PointsAreOk(Apply(e, ops[0]), ops[1..]);
      if ops[0].Tick? {
        EffectiveIsLess(e.mode, ops[0].x.current);
      }
      hide Effective, Update, SetMode, SetDeadband, SetCapacity, Counts, Idle;
    }
  }

  /** Where nothing was snapped to full or kept by the lower limit, and the clock does not
      go back, the gain is at most the integral of the measured current. */
  lemma GainIsBounded(e: Estimator, ops: seq<Op>)
    requires BaseOk(e) && AllSteady(e, ops) && Ordered(Base(e), Points(e, ops))
    requires LedgerOf(e, ops).snapped == 0.0 && LedgerOf(e, ops).low == 0.0
    ensures Run(e, ops).charge - e.charge <= RawArea(Base(e), Points(e, ops))
  {
    ChargeIsLedgered(e, ops);
    PointsAreOk(e, ops);
    assert PointOk(Base(e));
    hide Base, Points, LedgerOf, Run, AllSteady, Area, RawArea, Ordered;
    AreaAtMostRaw(Base(e), Points(e, ops));
  }

  // ---------------------------------------------------------------- from a new estimator

  lemma ApplyKeepsBaseOk(e: Estimator, op: Op)
    requires BaseOk(e)
    ensures BaseOk(Apply(e, op))
  {
    if op.Tick? {
      EffectiveIsLess(e.mode, op.x.current);
    }
    hide Effective, Increment, Idle, Round2, Fraction, Portion, Qualifies, Heavy;
  }

  lemma {:induction false} RunKeepsBaseOk(e: Estimator, ops: seq<Op>)
    requires BaseOk(e)
    ensures BaseOk(Run(e, ops))
    decreases |ops|
  {
    if ops != [] {
      ApplyKeepsBaseOk(e, ops[0]);
      hide BaseOk, Apply;
      RunKeepsBaseOk(Apply(e, ops[0]), ops[1..]);
    }
  }

  /** Whatever a new estimator has gone through before, from then on its charge is
      accounted for over every steady stretch. */
  lemma EveryChargeIsLedgered(before: seq<Op>, ops: seq<Op>)
    requires AllSteady(Run(FRESH, before), ops)
    ensures
      var e := Run(FRESH, before);
      var l := LedgerOf(e, ops);
      Run(FRESH, before + ops).charge == e.charge + Area(Base(e), Points(e, ops)) + l.snapped + l.low - l.high
  {
    RunKeepsBaseOk(FRESH, before);
    RunAppend(FRESH, before, ops);
    hide BaseOk, Run, AllSteady;
    ChargeIsLedgered(Run(FRESH, before), ops);
  }

  lemma EveryGainIsBounded(before: seq<Op>, ops: seq<Op>)
    requires
      var e := Run(FRESH, before);
      && AllSteady(e, ops) && Ordered(Base(e), Points(e, ops))
      && LedgerOf(e, ops).snapped == 0.0 && LedgerOf(e, ops).low == 0.0
    ensures
      var e := Run(FRESH, before);
      Run(FRESH, before + ops).charge - e.charge <= RawArea(Base(e), Points(e, ops))
  {
    RunKeepsBaseOk(FRESH, before);
    RunAppend(FRESH, before, ops);
    hide BaseOk, Run, AllSteady, Ordered;
    GainIsBounded(Run(FRESH, before), ops);
  }
}

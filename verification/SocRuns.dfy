/** What the state-of-charge estimator keeps over whole runs. */
module SocRuns {
  import opened Wrappers
  import opened Trapezoids
  import opened SocEstimator

  datatype Op =
    | ChangeMode(name: Option<Mode>)
    | ChangeDeadband(enabled: bool, window: real, noiseFloor: real)
    | ChangeCapacity(value: Option<real>)
    | Restored(soc: Option<real>, charge: real, lastSync: Option<int>)
    | Tick(x: Sample)

  function Apply(e: Estimator, op: Op): Estimator
  {
    match op
    case ChangeMode(name) => SetMode(e, name)
    case ChangeDeadband(enabled, window, noiseFloor) => SetDeadband(e, enabled, window, noiseFloor)
    case ChangeCapacity(value) => SetCapacity(e, value)
    case Restored(soc, charge, lastSync) => Restore(e, soc, charge, lastSync)
    case Tick(x) => Update(e, x)
  }

  function Run(e: Estimator, ops: seq<Op>): Estimator
    decreases |ops|
  {
    if ops == [] then e else Run(Apply(e, ops[0]), ops[1..])
  }

  // ---------------------------------------------------------------- arithmetic

  predicate Percentage(x: real) { 0.0 <= x <= 100.0 }

  lemma RoundIsNear(x: real)
    ensures Abs(Round2(x) - x) <= 0.005
    ensures Percentage(x) ==> Percentage(Round2(x))
    ensures Round2(100.0) == 100.0
  {
    var n := (100.0 * x + 0.5).Floor;
    assert n as real <= 100.0 * x + 0.5 < n as real + 1.0;
    if Percentage(x) {
      assert -1.0 < n as real < 10001.0;
      assert 0 <= n <= 10000;
    }
    assert (100.0 * 100.0 + 0.5).Floor == 10000;
  }

  lemma QuotientIs(q: real, x: real, full: real)
    requires full > 0.0 && q * full == x
    ensures Fraction(x, full) == q
  {
    var p := x / full;
    assert p * full == x;
    if p < q { ProductGrows(p, q, full); }
    if q < p { ProductGrows(q, p, full); }
  }

  lemma PortionInRange(fraction: real, full: real)
    requires 0.0 <= fraction <= 1.0 && full > 0.0
    ensures 0.0 <= Portion(fraction, full) <= full
  {
    if fraction > 0.0 { ProductIsPositive(fraction, full); }
    if fraction < 1.0 { ProductIsPositive(1.0 - fraction, full); }
    assert (1.0 - fraction) * full == full - fraction * full;
  }

  lemma PortionOfFull(fraction: real, full: real)
    requires full > 0.0
    ensures Fraction(Portion(fraction, full), full) == fraction
    ensures 0.0 <= fraction <= 1.0 ==> 0.0 <= Portion(fraction, full) <= full
  {
    hide Fraction;
    QuotientIs(fraction, Portion(fraction, full), full);
    if 0.0 <= fraction <= 1.0 {
      PortionInRange(fraction, full);
    }
  }

  lemma FractionOfFull(charge: real, full: real)
    requires 0.0 <= charge <= full && full > 0.0
    ensures 0.0 <= Fraction(charge, full) <= 1.0
    ensures charge == full ==> Fraction(charge, full) == 1.0
    ensures Portion(Fraction(charge, full), full) == charge
  {
    var p := charge / full;
    assert p * full == charge;
    if p < 0.0 { ProductGrows(p, 0.0, full); }
    if p > 1.0 { ProductGrows(1.0, p, full); }
    QuotientIs(1.0, full, full);
  }

  // ---------------------------------------------------------------- charge and percentage agree

  predicate SocOk(soc: Option<real>, charge: real, full: real)
    requires full > 0.0
  {
    soc.Some? ==> Percentage(soc.value) && Abs(soc.value - Fraction(charge, full) * 100.0) <= 0.005
  }

  /** The charge lies within the capacity, and a reported percentage is that of the charge. */
  predicate Sound(e: Estimator)
  {
    match e.capacity
    case None => e.soc.Some? ==> Percentage(e.soc.value)
    case Some(full) => full > 0.0 && 0.0 <= e.charge <= full && SocOk(e.soc, e.charge, full)
  }

  /** State is restored before the capacity is known, and percentages are in range. */
  predicate Allowed(e: Estimator, op: Op)
  {
    match op
    case Restored(soc, _, _) => e.capacity.None? && (soc.Some? ==> Percentage(soc.value))
    case Tick(x) => x.bms.Some? ==> Percentage(x.bms.value)
    case _ => true
  }

  predicate AllAllowed(e: Estimator, ops: seq<Op>)
    decreases |ops|
  {
    ops == [] || (Allowed(e, ops[0]) && AllAllowed(Apply(e, ops[0]), ops[1..]))
  }

  lemma SetCapacityKeepsSound(e: Estimator, value: Option<real>)
    requires Sound(e)
    ensures Sound(SetCapacity(e, value))
  {
    if value.Some? && value.value > 0.0 {
      var frac := HeldFraction(e);
      PortionOfFull(frac, value.value);
      RoundIsNear(frac * 100.0);
      hide Portion, Fraction, Round2, HeldFraction;
      assert 0.0 <= frac <= 1.0 by { HeldFractionInRange(e); }
    }
  }

  lemma HeldFractionInRange(e: Estimator)
    ensures 0.0 <= HeldFraction(e) <= 1.0
  {
  }

  lemma UpdateKeepsSound(e: Estimator, x: Sample)
    requires Sound(e) && (x.bms.Some? ==> Percentage(x.bms.value))
    ensures Sound(Update(e, x))
  {
    if Mirrors(e, x) {
      PortionOfFull(x.bms.value / 100.0, e.capacity.value);
      RoundIsNear(x.bms.value);
      hide Portion, Fraction, Round2;
    } else if Counts(e, x) {
      PublishIsSound(Integrate(e, x), NextTicks(e, x), x.wallNow);
      hide Publish, Increment, Effective, Idle, NextTicks;
    } else {
      hide Fraction;
    }
  }

  lemma PublishIsSound(e: Estimator, ticks: int, wallNow: Option<int>)
    requires Configured(e)
    ensures Sound(Publish(e, ticks, wallNow))
  {
    var full := e.capacity.value;
    var charge := if ticks >= SYNC_DEBOUNCE_TICKS then full else Clamp(e.charge, 0.0, full);
    FractionOfFull(charge, full);
    RoundIsNear(Fraction(charge, full) * 100.0);
    RoundIsNear(100.0);
    hide Fraction, Round2;
  }

  lemma ApplyKeepsSound(e: Estimator, op: Op)
    requires Sound(e) && Allowed(e, op)
    ensures Sound(Apply(e, op))
  {
    hide SetCapacity, Update, Fraction;
    match op
    case ChangeCapacity(value) => SetCapacityKeepsSound(e, value);
    case Tick(x) => UpdateKeepsSound(e, x);
    case _ =>
  }

  /** Over any run, the charge never leaves the capacity and the reported percentage never
      leaves 0 to 100 nor departs from that of the charge by more than the rounding. */
  lemma {:induction false} RunKeepsSound(e: Estimator, ops: seq<Op>)
    requires Sound(e) && AllAllowed(e, ops)
    ensures Sound(Run(e, ops))
    decreases |ops|
  {
    if ops != [] {
      ApplyKeepsSound(e, ops[0]);
      hide Sound, Apply, Allowed;
      RunKeepsSound(Apply(e, ops[0]), ops[1..]);
    }
  }

  /** So in every state that is reached from a new estimator. */
  lemma EveryRunIsSound(ops: seq<Op>)
    requires AllAllowed(FRESH, ops)
    ensures Sound(Run(FRESH, ops))
  {
    RunKeepsSound(FRESH, ops);
  }

  /** The range of a restored percentage matters: it is published as it is. */
  lemma RestoreIsSoundIff(e: Estimator, soc: Option<real>, charge: real, lastSync: Option<int>, full: real)
    requires e.capacity.None? && full > 0.0
    ensures Sound(SetCapacity(Restore(e, soc, charge, lastSync), Some(full)))
      <==> (soc.Some? ==> Percentage(soc.value))
  {
    var r := Restore(e, soc, charge, lastSync);
    if soc.Some? ==> Percentage(soc.value) {
      SetCapacityKeepsSound(r, Some(full));
    } else {
      hide Portion, Fraction;
    }
  }

  // ---------------------------------------------------------------- capacity edits

  function EditAll(e: Estimator, values: seq<real>): Estimator
  {
    if values == [] then e else SetCapacity(EditAll(e, values[..|values| - 1]), Some(values[|values| - 1]))
  }

  lemma SecondEditWins(e: Estimator, a: real, b: real)
    requires a > 0.0 && b > 0.0 && (e.capacity.Some? ==> Configured(e))
    ensures
      var twice, once := SetCapacity(SetCapacity(e, Some(a)), Some(b)), SetCapacity(e, Some(b));
      && twice == once.(soc := twice.soc)
      && twice.soc == Some(Round2(HeldFraction(e) * 100.0))
      && HeldFraction(SetCapacity(e, Some(a))) == HeldFraction(e)
  {
    HeldFractionInRange(e);
    var frac := HeldFraction(e);
    PortionOfFull(frac, a);
    hide Portion, Fraction, Round2, HeldFraction;
    HeldFractionOf(SetCapacity(e, Some(a)), a);
  }

  lemma HeldFractionOf(e: Estimator, full: real)
    requires e.capacity == Some(full) && full > 0.0
    ensures HeldFraction(e) == Clamp(Fraction(e.charge, full), 0.0, 1.0)
  {
  }

  /** A sequence of positive edits of a known capacity comes to the last of them. */
  lemma {:induction false} EditsCollapse(e: Estimator, values: seq<real>)
    requires Configured(e) && values != [] && forall i :: 0 <= i < |values| ==> values[i] > 0.0
    ensures EditAll(e, values) == SetCapacity(e, Some(values[|values| - 1]))
  {
    var n := |values| - 1;
    if n > 0 {
      EditsCollapse(e, values[..n]);
      SecondEditWins(e, values[n - 1], values[n]);
    }
  }

  /** From an unknown capacity this holds exactly if the held percentage is already as an
      edit would publish it: in range, and rounded. */
  lemma {:induction false} FirstEditsCollapseIff(e: Estimator, values: seq<real>)
    requires e.capacity.None? && |values| >= 2 && forall i :: 0 <= i < |values| ==> values[i] > 0.0
    ensures EditAll(e, values) == SetCapacity(e, Some(values[|values| - 1]))
      <==> (e.soc.Some? ==> e.soc.value == Round2(Clamp(e.soc.value, 0.0, 100.0)))
  {
    var n := |values| - 1;
    EditsFrom(e, values);
    SecondEditWins(e, values[0], values[n]);
    RoundIsNear(100.0);
    hide Portion, Round2;
    if e.soc.Some? {
      assert Clamp(e.soc.value / 100.0, 0.0, 1.0) * 100.0 == Clamp(e.soc.value, 0.0, 100.0);
    }
  }

  /** After the first edit, the others come to the last. */
  lemma {:induction false} EditsFrom(e: Estimator, values: seq<real>)
    requires e.capacity.None? && |values| >= 2 && forall i :: 0 <= i < |values| ==> values[i] > 0.0
    ensures EditAll(e, values) == SetCapacity(SetCapacity(e, Some(values[0])), Some(values[|values| - 1]))
  {
    var n := |values| - 1;
    var first := SetCapacity(e, Some(values[0]));
    if n == 1 {
      assert values[..1][..0] == [];
      assert EditAll(e, values[..1]) == SetCapacity(EditAll(e, []), Some(values[0]));
    } else {
      EditsFrom(e, values[..n]);
      SecondEditWins(first, values[n - 1], values[n]);
    }
  }

  // ---------------------------------------------------------------- the snap to full

  /** What an operation does to the debounce counter. */
  datatype Walk = Up | Down | Zero | Stay

  /** A tick at full voltage and tail current counts up.  Heavy discharge, a BMS reading
      and a change of mode start over.  Any other counted tick counts down. */
  function MoveOf(e: Estimator, op: Op): Walk
  {
    match op
    case ChangeMode(name) => if name.Some? && name.value != e.mode then Zero else Stay
    case Tick(x) =>
      if Mirrors(e, x) then Zero
      else if !Counts(e, x) then Stay
      else if Qualifies(e, x) then Up
      else if Heavy(e, x) then Zero
      else Down
    case _ => Stay
  }

  function Moves(e: Estimator, ops: seq<Op>): (ws: seq<Walk>)
    ensures |ws| == |ops|
    decreases |ops|
  {
    if ops == [] then [] else [MoveOf(e, ops[0])] + Moves(Apply(e, ops[0]), ops[1..])
  }

  /** How many more moves go up than down. */
  function Net(ws: seq<Walk>): int
  {
    if ws == [] then 0 else (if ws[0].Up? then 1 else if ws[0].Down? then -1 else 0) + Net(ws[1..])
  }

  /** Some final stretch without a reset holds at least `k` more ups than downs. */
  ghost predicate Climbs(ws: seq<Walk>, k: int)
  {
    exists i :: 0 <= i <= |ws| && Zero !in ws[i..] && Net(ws[i..]) >= k
  }

  lemma ClimbsFromHeadOrTail(ws: seq<Walk>, k: int)
    requires ws != []
    ensures Climbs(ws, k) <==> (Zero !in ws && Net(ws) >= k) || Climbs(ws[1..], k)
  {
    assert ws[0..] == ws;
    var tail := ws[1..];
    if Climbs(ws, k) {
      var i :| 0 <= i <= |ws| && Zero !in ws[i..] && Net(ws[i..]) >= k;
      if i > 0 {
        assert ws[i..] == tail[i - 1..];
      }
    }
    if Climbs(tail, k) {
      var i :| 0 <= i <= |tail| && Zero !in tail[i..] && Net(tail[i..]) >= k;
      assert tail[i..] == ws[i + 1..];
    }
  }

  lemma MoveMovesTicks(e: Estimator, op: Op)
    requires e.ticks >= 0
    ensures
      var t := Apply(e, op).ticks;
      && t >= 0
      && match MoveOf(e, op)
         case Up => t == e.ticks + 1
         case Down => t == if e.ticks >= 1 then e.ticks - 1 else 0
         case Zero => t == 0
         case Stay => t == e.ticks
  {
    hide Increment, Qualifies, Heavy, Round2, Fraction;
  }

  lemma {:induction false} TicksFrom(e: Estimator, ops: seq<Op>, k: int)
    requires e.ticks >= 0 && k >= 1
    ensures Run(e, ops).ticks >= k
      <==> (Zero !in Moves(e, ops) && e.ticks + Net(Moves(e, ops)) >= k) || Climbs(Moves(e, ops), k)
    decreases |ops|
  {
    var ws := Moves(e, ops);
    if ops == [] {
      assert !Climbs(ws, k);
    } else {
      MoveMovesTicks(e, ops[0]);
      ClimbsFromHeadOrTail(ws, k);
      var next := Apply(e, ops[0]);
      assert ws[1..] == Moves(next, ops[1..]);
      TicksFrom(next, ops[1..], k);
      hide Apply, MoveOf, Climbs, Moves;
      if Zero !in ws[1..] && Net(ws[1..]) >= k {
        ClimbsAtOnce(ws[1..], k);
      }
    }
  }

  lemma ClimbsAtOnce(ws: seq<Walk>, k: int)
    requires Zero !in ws && Net(ws) >= k
    ensures Climbs(ws, k)
  {
    assert ws[0..] == ws;
  }

  /** Over any run, the counter is the walk of its moves, reflected at zero and restarted at
      every reset: it has reached `k` exactly if some final stretch without a reset climbs
      by `k`. */
  lemma TicksAreReflectedWalk(e: Estimator, ops: seq<Op>, k: int)
    requires e.ticks == 0 && k >= 1
    ensures Run(e, ops).ticks >= k <==> Climbs(Moves(e, ops), k)
  {
    TicksFrom(e, ops, k);
    hide Climbs;
    if Zero !in Moves(e, ops) && Net(Moves(e, ops)) >= k {
      ClimbsAtOnce(Moves(e, ops), k);
    }
  }

  lemma {:induction false} RunAppend(e: Estimator, ops: seq<Op>, more: seq<Op>)
    ensures Run(e, ops + more) == Run(Run(e, ops), more)
    decreases |ops|
  {
    if ops == [] {
      assert ops + more == more;
    } else {
      hide Apply;
      assert (ops + more)[1..] == ops[1..] + more;
      RunAppend(Apply(e, ops[0]), ops[1..], more);
    }
  }

  lemma RunSnoc(e: Estimator, ops: seq<Op>, op: Op)
    ensures Run(e, ops + [op]) == Apply(Run(e, ops), op)
  {
    hide Apply;
    RunAppend(e, ops, [op]);
    assert [op][1..] == [];
  }

  /** The snap to 100% is in force after a counted tick exactly if, since the last heavy
      discharge, BMS reading or change of mode, some final stretch of the run holds at
      least three more qualifying than other ticks. */
  lemma SnapsExactly(e: Estimator, ops: seq<Op>, x: Sample)
    requires e.ticks == 0 && Counts(Run(e, ops), x)
    ensures
      var before, after := Run(e, ops), Run(e, ops + [Tick(x)]);
      && after.capacity == before.capacity
      && (Climbs(Moves(e, ops + [Tick(x)]), SYNC_DEBOUNCE_TICKS) ==>
            after.soc == Some(100.0) && after.charge == before.capacity.value)
      && (!Climbs(Moves(e, ops + [Tick(x)]), SYNC_DEBOUNCE_TICKS) ==>
            after.charge == Clamp(before.charge + Increment(before, x), 0.0, before.capacity.value))
  {
    TicksAreReflectedWalk(e, ops + [Tick(x)], SYNC_DEBOUNCE_TICKS);
    RunSnoc(e, ops, Tick(x));
    RoundIsNear(100.0);
    hide Climbs, Round2, Increment, Fraction, Moves, NextTicks;
  }

  /** One tick of heavy discharge undoes any wind-up: full charge is next reported after
      three more qualifying ticks than others. */
  lemma HeavyUndoesWindUp(e: Estimator, x: Sample, ops: seq<Op>)
    requires Counts(e, x) && Heavy(e, x) && e.ticks >= 0
    ensures Update(e, x).ticks == 0
    ensures Run(Update(e, x), ops).ticks >= SYNC_DEBOUNCE_TICKS
      <==> Climbs(Moves(Update(e, x), ops), SYNC_DEBOUNCE_TICKS)
  {
    assert Update(e, x).ticks == 0 by {
      assert !Qualifies(e, x);
      hide Increment, Round2, Fraction, TailCurrent;
    }
    TicksAreReflectedWalk(Update(e, x), ops, SYNC_DEBOUNCE_TICKS);
  }

  // ---------------------------------------------------------------- the time of the last sync

  /** The tick that reaches the threshold from below. */
  predicate Crosses(e: Estimator, x: Sample)
    requires Counts(e, x)
  {
    e.ticks < SYNC_DEBOUNCE_TICKS <= NextTicks(e, x)
  }

  /** A counted tick is stamped if it crosses the threshold, and also if the counter falls
      back to it: so the stamp marks the crossing unless a tick counts down from 4. */
  lemma StampsExactly(e: Estimator, x: Sample)
    requires Counts(e, x) && e.ticks >= 0
    ensures Update(e, x).lastSync ==
      if x.wallNow.Some? && (Crosses(e, x) || (e.ticks == 4 && MoveOf(e, Tick(x)) == Down))
      then x.wallNow else e.lastSync
  {
    hide Increment, Round2, Fraction, Qualifies, Heavy;
  }

  function Resting(voltage: real, wallNow: int): Op
  {
    Tick(Sample(0.0, voltage, 0.0, Some(50.0), None, None, Some(wallNow)))
  }

  lemma RestingTick(e: Estimator, voltage: real, wallNow: int)
    requires e.capacity == Some(100.0) && e.mode == LithiumVoltage && e.ticks >= 0
    ensures
      var n := Apply(e, Resting(voltage, wallNow));
      && n.capacity == e.capacity && n.mode == e.mode
      && n.ticks == (if voltage >= 50.0 then e.ticks + 1 else if e.ticks >= 1 then e.ticks - 1 else 0)
      && n.lastSync == (if n.ticks == 3 then Some(wallNow) else e.lastSync)
      && (n.ticks >= 3 ==> n.soc == Some(100.0))
  {
    RoundIsNear(100.0);
    hide Increment, Round2, Fraction;
  }

  /** A full battery at rest is stamped again when its voltage dips once, whatever the times:
      the report stays at 100% while the time of the last sync moves. */
  lemma StampMovesWithoutCrossing(first: int, second: int) returns (ops: seq<Op>, e: Estimator)
    ensures e == Run(FRESH, ops)
    ensures e.soc == Some(100.0) && e.lastSync == Some(first)
    ensures Apply(e, Resting(49.0, second)).soc == Some(100.0)
    ensures Apply(e, Resting(49.0, second)).lastSync == Some(second)
  {
    var full := Resting(50.0, first);
    var e0 := Apply(FRESH, ChangeCapacity(Some(100.0)));
    RestingTick(e0, 50.0, first);
    var e1 := Apply(e0, full);
    RestingTick(e1, 50.0, first);
    var e2 := Apply(e1, full);
    RestingTick(e2, 50.0, first);
    var e3 := Apply(e2, full);
    RestingTick(e3, 50.0, first);
    e := Apply(e3, full);
    RestingTick(e, 49.0, second);
    hide Apply, Resting;
    ops := [ChangeCapacity(Some(100.0)), full, full, full, full];
    FiveOps(FRESH, ChangeCapacity(Some(100.0)), full, full, full, full);
  }

  lemma FiveOps(e: Estimator, a: Op, b: Op, c: Op, d: Op, f: Op)
    ensures Run(e, [a, b, c, d, f]) == Apply(Apply(Apply(Apply(Apply(e, a), b), c), d), f)
  {
    hide Apply;
    RunSnoc(e, [], a);
    assert [] + [a] == [a];
    RunSnoc(e, [a], b);
    assert [a] + [b] == [a, b];
    RunSnoc(e, [a, b], c);
    assert [a, b] + [c] == [a, b, c];
    RunSnoc(e, [a, b, c], d);
    assert [a, b, c] + [d] == [a, b, c, d];
    RunSnoc(e, [a, b, c, d], f);
    assert [a, b, c, d] + [f] == [a, b, c, d, f];
  }
}

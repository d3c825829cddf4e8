/** All devices and commands of a coordinator.

    The published data are one map.  A cycle takes a snapshot of it, gathers sections slot
    by slot, and replaces the whole map; a forced read copies and updates it at any time.
    Seen through one slot, every run is a run of CoordinatorLife.
 */
module CoordinatorHub {
  import opened Coordinator
  import opened Wrappers
  import A = CoordinatorAge
  import L = CoordinatorLife

  /** One command of one device. */
  datatype Slot = Slot(device: Device, cmd: Command)

  type Data = map<Slot, Section>

  /** How far the cycle has come with a slot. */
  datatype Progress = Asking(attempt: nat) | Resting | Done(section: Section)

  /** Between cycles, or in one: its targets, the snapshot, and the slots it has reached. */
  datatype Round = Closed | Opened(targets: set<Device>, previous: Data, work: map<Slot, Progress>)

  /** What is remembered about a slot besides its data. */
  datatype Memo = Memo(pair: Pair, accepted: set<Section>, tally: L.Tally)

  datatype Hub = Hub(memos: map<Slot, Memo>, data: Data, cycle: nat, round: Round)

  const NEW_HUB := Hub(map[], map[], 0, Closed)
  const NEW_MEMO := Memo(NEW_PAIR, {}, L.NO_TALLY)

  datatype Event =
    | Open(targets: set<Device>)
    | Reach(s: Slot)
    | Answer(s: Slot, r: Reply)
    | Retry(s: Slot)
    | TimesOut(d: Device)
    | CycleFails
    | Publish
    | ForcedRead(s: Slot, r: Reply)

  // ---------------------------------------------------------------- one slot of the hub

  /** A missing section is an empty one. */
  function SectionOf(data: Data, s: Slot): Section { if s in data then data[s] else map[] }

  function MemoOf(h: Hub, s: Slot): Memo { if s in h.memos then h.memos[s] else NEW_MEMO }

  predicate Included(h: Hub, s: Slot) { h.round.Opened? && s.device in h.round.targets }

  function PollOf(h: Hub, s: Slot): L.Poll
  {
    if !Included(h, s) then L.Idle
    else
      var previous := SectionOf(h.round.previous, s);
      if s !in h.round.work then L.Ready(previous)
      else
        match h.round.work[s]
        case Asking(attempt) => L.Asking(previous, attempt)
        case Resting => L.Resting(previous)
        case Done(section) => L.Polled(previous, section)
  }

  function Seen(h: Hub, s: Slot): L.Life
  {
    var memo := MemoOf(h, s);
    L.Life(memo.pair, SectionOf(h.data, s), PollOf(h, s), memo.accepted, memo.tally)
  }

  /** A slot moves on within the cycle. */
  function Move(h: Hub, s: Slot, l: L.Life): Hub
    requires h.round.Opened? && (l.poll.Asking? || l.poll.Resting? || l.poll.Polled?)
  {
    var progress :=
      match l.poll
      case Asking(_, attempt) => Asking(attempt)
      case Resting(_) => Resting
      case Polled(_, section) => Done(section);
    h.(memos := h.memos[s := Memo(l.pair, l.accepted, l.tally)],
       round := h.round.(work := h.round.work[s := progress]))
  }

  // ---------------------------------------------------------------- events

  ghost predicate AllDone(round: Round)
    requires round.Opened?
  {
    forall s: Slot :: s.device in round.targets ==> s in round.work && round.work[s].Done?
  }

  ghost predicate Enabled(h: Hub, e: Event)
  {
    match e
    case Open(_) => h.round.Closed?
    case Reach(s) => PollOf(h, s).Ready?
    case Answer(s, _) => PollOf(h, s).Asking?
    case Retry(s) => PollOf(h, s).Resting?
    case TimesOut(d) => h.round.Opened? && d in h.round.targets
    case CycleFails => h.round.Opened?
    case Publish => h.round.Opened? && AllDone(h.round)
    case ForcedRead(_, _) => true
  }

  /** The transactions under way in `slots` are cut off. */
  function Stop(h: Hub, slots: set<Slot>): map<Slot, Memo>
  {
    map s | s in h.memos.Keys + slots ::
      if s in slots then MemoOf(h, s).(tally := L.Stop(MemoOf(h, s).tally, PollOf(h, s))) else MemoOf(h, s)
  }

  function SlotsOf(d: Device): (slots: set<Slot>)
    ensures forall s :: s in slots <==> s.device == d
  {
    var slots := {Slot(d, QPIGS), Slot(d, QMOD), Slot(d, QPIGS2), Slot(d, QPIWS), Slot(d, QFWS), Slot(d, QPIRI)};
    assert forall s: Slot :: s.device == d ==>
      match s.cmd
      case QPIGS => s == Slot(d, QPIGS)
      case QMOD => s == Slot(d, QMOD)
      case QPIGS2 => s == Slot(d, QPIGS2)
      case QPIWS => s == Slot(d, QPIWS)
      case QFWS => s == Slot(d, QFWS)
      case QPIRI => s == Slot(d, QPIRI);
    slots
  }

  /** A device out of time is given its old sections. */
  function OnTimeout(h: Hub, d: Device): Hub
    requires h.round.Opened?
  {
    var slots := SlotsOf(d);
    var work := map s | s in h.round.work.Keys + slots ::
      if s in slots then Done(SectionOf(h.round.previous, s)) else h.round.work[s];
    h.(memos := Stop(h, slots), round := h.round.(work := work))
  }

  function OnCycleFails(h: Hub): Hub
    requires h.round.Opened?
  {
    var cut := set s | s in h.round.work && s.device in h.round.targets;
    h.(memos := Stop(h, cut), round := Closed)
  }

  /** What the cycle has gathered replaces all that was published. */
  function Gathered(round: Round): Data
    requires round.Opened?
  {
    map s | s in round.work && s.device in round.targets && round.work[s].Done? :: round.work[s].section
  }

  function OnForcedRead(h: Hub, s: Slot, r: Reply): Hub
  {
    var l := L.OnForcedRead(Seen(h, s), s.cmd, r);
    h.(memos := h.memos[s := Memo(l.pair, l.accepted, l.tally)],
       data :=
         match Refresh(MemoOf(h, s).pair, s.cmd, r).1
         case None => h.data
         case Some(section) => h.data[s := section])
  }

  ghost function Next(h: Hub, e: Event): Hub
    requires Enabled(h, e)
  {
    match e
    case Open(targets) => h.(round := Opened(targets, h.data, map[]))
    case Reach(s) => Move(h, s, L.OnReach(Seen(h, s), h.cycle % Cadence(s.cmd) == 0))
    case Answer(s, r) => Move(h, s, L.OnAnswer(Seen(h, s), s.cmd, r))
    case Retry(s) => Move(h, s, L.Next(Seen(h, s), s.cmd, L.Retry))
    case TimesOut(d) => OnTimeout(h, d)
    case CycleFails => OnCycleFails(h)
    case Publish => h.(data := Gathered(h.round), cycle := h.cycle + 1, round := Closed)
    case ForcedRead(s, r) => OnForcedRead(h, s, r)
  }

  ghost predicate Runs(h: Hub, es: seq<Event>, k: Hub)
    decreases |es|
  {
    if es == [] then h == k else Enabled(h, es[0]) && Runs(Next(h, es[0]), es[1..], k)
  }

  // ---------------------------------------------------------------- seen through one slot

  /** What an event is to slot `s`, if anything. */
  function EventFor(h: Hub, e: Event, s: Slot): Option<L.Event>
  {
    match e
    case Open(targets) => if s.device in targets then Some(L.Open) else None
    case Reach(t) => if t == s then Some(L.Reach(h.cycle % Cadence(s.cmd) == 0)) else None
    case Answer(t, r) => if t == s then Some(L.Answer(r)) else None
    case Retry(t) => if t == s then Some(L.Retry) else None
    case TimesOut(d) => if d == s.device then Some(L.TimesOut) else None
    case CycleFails => if Included(h, s) then Some(L.CycleFails) else None
    case Publish => if Included(h, s) then Some(L.Publish) else Some(L.Absent)
    case ForcedRead(t, r) => if t == s then Some(L.ForcedRead(r)) else None
  }

  ghost predicate Mirrors(h: Hub, e: Event, s: Slot)
    requires Enabled(h, e)
  {
    match EventFor(h, e, s)
    case None => Seen(Next(h, e), s) == Seen(h, s)
    case Some(f) => L.Enabled(Seen(h, s), f) && Seen(Next(h, e), s) == L.Next(Seen(h, s), s.cmd, f)
  }

  lemma MoveIsSeen(h: Hub, t: Slot, l: L.Life, s: Slot)
    requires Included(h, t) && (l.poll.Asking? || l.poll.Resting? || l.poll.Polled?)
    requires l.data == SectionOf(h.data, t) && l.poll.previous == SectionOf(h.round.previous, t)
    ensures Seen(Move(h, t, l), s) == if s == t then l else Seen(h, s)
  {
  }

  lemma StopIsSeen(h: Hub, slots: set<Slot>, s: Slot)
    ensures MemoOf(h.(memos := Stop(h, slots)), s) ==
      if s in slots then MemoOf(h, s).(tally := L.Stop(MemoOf(h, s).tally, PollOf(h, s))) else MemoOf(h, s)
  {
  }

  lemma SlotStepIsMirrored(h: Hub, e: Event, s: Slot)
    requires Enabled(h, e) && (e.Reach? || e.Answer? || e.Retry?)
    ensures Mirrors(h, e, s)
  {
    var l := Seen(h, e.s);
    match e
    case Reach(t) =>
      MoveIsSeen(h, t, L.OnReach(l, h.cycle % Cadence(t.cmd) == 0), s);
      hide Move, Clean, Seen;
    case Answer(t, r) =>
      AnswerKeepsShape(l, t.cmd, r);
      MoveIsSeen(h, t, L.OnAnswer(l, t.cmd, r), s);
      hide Move, L.OnAnswer, Seen;
    case Retry(t) =>
      MoveIsSeen(h, t, L.Next(l, t.cmd, L.Retry), s);
      hide Move, Seen;
  }

  lemma AnswerKeepsShape(l: L.Life, cmd: Command, r: Reply)
    requires l.poll.Asking?
    ensures
      var n := L.OnAnswer(l, cmd, r);
      n.data == l.data && (n.poll.Resting? || n.poll.Polled?) && n.poll.previous == l.poll.previous
  {
    hide Judge, Clean, Resolve;
  }

  lemma TimeoutIsMirrored(h: Hub, d: Device, s: Slot)
    requires Enabled(h, TimesOut(d))
    ensures Mirrors(h, TimesOut(d), s)
  {
    StopIsSeen(h, SlotsOf(d), s);
    hide Stop, L.Stop;
    assert s in SlotsOf(d) <==> s.device == d;
    hide SlotsOf;
  }

  lemma FailureIsMirrored(h: Hub, s: Slot)
    requires Enabled(h, CycleFails)
    ensures Mirrors(h, CycleFails, s)
  {
    var cut := set t | t in h.round.work && t.device in h.round.targets;
    StopIsSeen(h, cut, s);
    hide Stop;
  }

  lemma ForcedReadIsMirrored(h: Hub, t: Slot, r: Reply, s: Slot)
    ensures Mirrors(h, ForcedRead(t, r), s)
  {
    hide Refresh;
  }

  lemma CycleIsMirrored(h: Hub, e: Event, s: Slot)
    requires Enabled(h, e) && (e.Open? || e.Publish?)
    ensures Mirrors(h, e, s)
  {
  }

  lemma StepIsMirrored(h: Hub, e: Event, s: Slot)
    requires Enabled(h, e)
    ensures Mirrors(h, e, s)
  {
    match e
    case TimesOut(d) =>
      TimeoutIsMirrored(h, d, s);
      hide Mirrors;
    case CycleFails =>
      FailureIsMirrored(h, s);
      hide Mirrors;
    case ForcedRead(t, r) =>
      ForcedReadIsMirrored(h, t, r, s);
      hide Mirrors;
    case Open(_) =>
      CycleIsMirrored(h, e, s);
      hide Mirrors;
    case Publish =>
      CycleIsMirrored(h, e, s);
      hide Mirrors;
    case _ =>
      SlotStepIsMirrored(h, e, s);
      hide Mirrors;
  }

  /** The events of one slot. */
  ghost function EventsFor(h: Hub, es: seq<Event>, s: Slot): seq<L.Event>
    decreases |es|
  {
    if es == [] || !Enabled(h, es[0]) then []
    else
      var rest := EventsFor(Next(h, es[0]), es[1..], s);
      match EventFor(h, es[0], s) case None => rest case Some(f) => [f] + rest
  }

  /** Every run of the hub, seen through any one slot, is a run of that slot's life. */
  lemma {:induction false} SlotRunsAlone(h: Hub, es: seq<Event>, k: Hub, s: Slot)
    requires Runs(h, es, k)
    ensures L.Runs(Seen(h, s), s.cmd, EventsFor(h, es, s), Seen(k, s))
    decreases |es|
  {
    if es != [] {
      var next := Next(h, es[0]);
      StepIsMirrored(h, es[0], s);
      hide Seen, L.Next, L.Enabled, Next, Enabled, EventFor;
      SlotRunsAlone(next, es[1..], k, s);
      var fs := EventsFor(h, es, s);
      match EventFor(h, es[0], s) {
        case None =>
        case Some(f) => assert fs[1..] == EventsFor(next, es[1..], s);
      }
    }
  }

  /** A reply to this slot that brought `section`. */
  predicate Brings(e: Event, s: Slot, section: Section)
  {
    e == Answer(s, Dict(section)) || e == ForcedRead(s, Dict(section))
  }

  lemma {:induction false} BringsForSlot(h: Hub, es: seq<Event>, s: Slot, f: L.Event, section: Section)
    requires f in EventsFor(h, es, s) && L.Brings(f, section)
    ensures exists e :: e in es && Brings(e, s, section)
    decreases |es|
  {
    var rest := EventsFor(Next(h, es[0]), es[1..], s);
    if f in rest {
      BringsForSlot(Next(h, es[0]), es[1..], s, f, section);
      var e :| e in es[1..] && Brings(e, s, section);
      assert e in es;
    } else {
      hide Next, Enabled;
      assert EventFor(h, es[0], s) == Some(f);
      assert es[0] in es && Brings(es[0], s, section);
    }
  }

  /** In every reachable state, for every device and command: the published section is
      empty, or it was brought by a reply to that same command of that same device, and it
      carries no error and no NAK and, for the telemetry, is plausible. */
  lemma PublishedIsOwn(es: seq<Event>, k: Hub, s: Slot)
    requires Runs(NEW_HUB, es, k) && s in k.data && k.data[s] != map[]
    ensures Sound(s.cmd, k.data[s])
    ensures exists e :: e in es && Brings(e, s, k.data[s])
  {
    assert Seen(NEW_HUB, s) == L.NEW_LIFE && Seen(k, s).data == k.data[s];
    hide Seen, Runs, EventsFor, Sound, L.Runs;
    SlotRunsAlone(NEW_HUB, es, k, s);
    var fs := EventsFor(NEW_HUB, es, s);
    L.PublishedIsAccepted(s.cmd, fs, Seen(k, s));
    var f :| f in fs && L.Brings(f, k.data[s]);
    BringsForSlot(NEW_HUB, es, s, f, k.data[s]);
  }

  lemma {:induction false} AnswersForSlot(h: Hub, es: seq<Event>, s: Slot, f: L.Event)
    requires f in EventsFor(h, es, s) && f.Answer?
    ensures Answer(s, f.r) in es
    decreases |es|
  {
    if f in EventsFor(Next(h, es[0]), es[1..], s) {
      AnswersForSlot(Next(h, es[0]), es[1..], s, f);
    } else {
      hide Next, Enabled;
      assert EventFor(h, es[0], s) == Some(f);
    }
  }

  /** Whatever the other devices and commands do, a command of a device whose every polled
      reply is a NAK costs no more than it does alone. */
  lemma NakCostPerSlot(es: seq<Event>, k: Hub, s: Slot)
    requires Runs(NEW_HUB, es, k) && forall r :: Answer(s, r) in es ==> IsNak(r)
    ensures
      var t := MemoOf(k, s).tally;
      t.judged <= 2 + t.cleared && t.started <= 2 + t.cut + t.cleared
  {
    assert Seen(NEW_HUB, s) == L.NEW_LIFE && Seen(k, s).tally == MemoOf(k, s).tally;
    hide Seen, Runs, EventsFor, IsNak, L.Runs;
    SlotRunsAlone(NEW_HUB, es, k, s);
    var fs := EventsFor(NEW_HUB, es, s);
    forall f | f in fs ensures L.Naks(f) {
      if f.Answer? {
        AnswersForSlot(NEW_HUB, es, s, f);
      }
    }
    L.NakCost(s.cmd, fs, Seen(k, s));
  }

  // ---------------------------------------------------------------- ages

  /** A slot's watch goes with the hub. */
  predicate Watched(h: Hub, s: Slot, w: A.Watch) { w.life == Seen(h, s) && w.cycle == h.cycle }

  lemma StepIsWatched(h: Hub, e: Event, s: Slot, w: A.Watch)
    requires Enabled(h, e) && Watched(h, s, w)
    ensures
      match EventFor(h, e, s)
      case None => Watched(Next(h, e), s, w)
      case Some(f) => A.Enabled(w, s.cmd, f) && Watched(Next(h, e), s, A.Next(w, s.cmd, f))
  {
    StepIsMirrored(h, e, s);
    hide Seen, L.Next, L.Enabled, Move, OnTimeout, OnCycleFails, OnForcedRead, Gathered;
  }

  lemma {:induction false} SlotIsWatched(h: Hub, es: seq<Event>, k: Hub, s: Slot, w: A.Watch) returns (v: A.Watch)
    requires Runs(h, es, k) && Watched(h, s, w)
    ensures Watched(k, s, v) && A.After(w, s.cmd, EventsFor(h, es, s)) == Some(v)
    decreases |es|
  {
    if es == [] {
      v := w;
    } else {
      StepIsWatched(h, es[0], s, w);
      hide Watched, Next, Enabled, EventFor, A.Next, A.Enabled;
      match EventFor(h, es[0], s) {
        case None => v := SlotIsWatched(Next(h, es[0]), es[1..], k, s, w);
        case Some(f) =>
          var n := A.Next(w, s.cmd, f);
          v := SlotIsWatched(Next(h, es[0]), es[1..], k, s, n);
          assert A.After(w, s.cmd, []) == Some(w);
          A.Step(w, s.cmd, [], w, f);
          assert [] + [f] == [f];
          A.AfterAppend(w, s.cmd, [f], n, EventsFor(Next(h, es[0]), es[1..], s));
      }
    }
  }

  /** The bound on the age holds for every command of every device at once. */
  lemma AgeIsBoundedPerSlot(es: seq<Event>, k: Hub, s: Slot) returns (w: A.Watch)
    requires Runs(NEW_HUB, es, k) && s in k.data && k.data[s] != map[] && !MemoOf(k, s).pair.unsupported
    ensures A.After(A.NEW_WATCH, s.cmd, EventsFor(NEW_HUB, es, s)) == Some(w) && w.cycle == k.cycle
    ensures A.Known(w, w.shown) && k.data[s] == w.history[w.shown - 1].section
    ensures 0 <= A.Age(w) <= 6 * Cadence(s.cmd) * (A.LossesSince(w, w.shown) + 1) - 1
  {
    assert Watched(NEW_HUB, s, A.NEW_WATCH);
    hide Runs, EventsFor, A.After, Cadence;
    w := SlotIsWatched(NEW_HUB, es, k, s, A.NEW_WATCH);
    A.AgeIsBounded(s.cmd, EventsFor(NEW_HUB, es, s), w);
  }
}

/** Every interleaving of the manager's handlers and requests.

    A coroutine is cut at its awaits; each event below is what runs between two of
    them.  Shutdown is not among the events.
 */
module EybondRuns {
  import opened Wrappers
  import opened EybondIndex

  /** A request for the dongle `pn`, or for any dongle when `pn` is empty: waiting for
      the dongle, holding a session and waiting for its lock, holding the lock with a
      frame on the wire, or over. */
  datatype Task = Waiting(pn: Text) | Resolved(pn: Text, s: SessionId) | InFlight(pn: Text, s: SessionId) | Ended

  /** A request frame written to session `s` under the `index`-th tid drawn there. */
  datatype Write = Write(s: SessionId, pn: Text, index: int)

  /** The manager, its request coroutines, and a record of what they wrote. */
  datatype Machine = Machine(x: Index, tasks: map<RequestId, Task>, writes: map<RequestId, Write>)

  datatype Event =
    | Connect(s: SessionId, peer: Text)
    | HeartbeatFrame(s: SessionId, pn: Text)
    | ReplyFrame(s: SessionId, tid: int, payload: Payload)
    | LoopEnds(s: SessionId)
    | Teardown(s: SessionId)
    | KeepAlive(s: SessionId)
    | Request(r: RequestId, pn: Text)
    | Wake(r: RequestId)
    | GiveUp(r: RequestId)   // cancelled while it waits, or while its frame is being written
    | Send(r: RequestId)
    | Resume(r: RequestId)
    | Timeout(r: RequestId)
    | WriteFails(r: RequestId)
    | Cancel(r: RequestId)   // cancelled while it awaits the reply
    | Configure(pn: Text, enabled: bool)
    | Elapse(now: Stamp)     // the clock of the registry shows another time

  // ---------------------------------------------------------------- requests

  predicate LockFree(m: Machine, s: SessionId)
  {
    forall r :: r in m.tasks && m.tasks[r].InFlight? ==> m.tasks[r].s != s
  }

  /** A waiting or arriving request looks for its session; it waits at most once. */
  ghost function OnSeek(m: Machine, r: RequestId, pn: Text, again: bool): Machine
  {
    match Resolve(m.x, pn)
    case Found(s) => m.(tasks := m.tasks[r := Resolved(pn, s)])
    case Ambiguous => m.(tasks := m.tasks[r := Ended])
    case MustWait =>
      if again then m.(tasks := m.tasks[r := Ended])
      else m.(x := ReadyEvent(m.x, pn), tasks := m.tasks[r := Waiting(pn)])
  }

  /** The lock is taken, a tid drawn, the future registered and the frame written. */
  function OnSend(m: Machine, r: RequestId, pn: Text, s: SessionId): Machine
    requires s in m.x.sessions
  {
    m.(x := Register(m.x, s, r),
       tasks := m.tasks[r := InFlight(pn, s)],
       writes := m.writes[r := Write(s, pn, m.x.sessions[s].drawn + 1)])
  }

  /** The write fails: the entry is taken back, and nobody waits for the future. */
  function OnWriteFails(m: Machine, r: RequestId, s: SessionId): Machine
    requires s in m.x.sessions && r in m.writes
  {
    m.(x := Unregister(m.x, s, m.writes[r].index % TIDS), tasks := m.tasks[r := Ended])
  }

  /** No reply in time: the entry is taken back and the future cancelled. */
  function OnTimeout(m: Machine, r: RequestId, s: SessionId): Machine
    requires s in m.x.sessions && r in m.writes
  {
    m.(x := CancelFuture(Unregister(m.x, s, m.writes[r].index % TIDS), r), tasks := m.tasks[r := Ended])
  }

  /** Cancelling a request that awaits its reply leaves its entry behind. */
  function OnCancel(m: Machine, r: RequestId): Machine
  {
    m.(x := CancelFuture(m.x, r), tasks := m.tasks[r := Ended])
  }

  // ---------------------------------------------------------------- runs

  predicate Handling(x: Index, s: SessionId, phase: Phase) { s in x.sessions && x.sessions[s].phase == phase }

  predicate Enabled(m: Machine, e: Event)
  {
    match e
    case Connect(s, _) => s !in m.x.sessions
    case HeartbeatFrame(s, _) => Handling(m.x, s, Reading)
    case ReplyFrame(s, _, _) => Handling(m.x, s, Reading)
    case LoopEnds(s) => Handling(m.x, s, Reading)
    case Teardown(s) => Handling(m.x, s, Closing)
    case KeepAlive(s) => Handling(m.x, s, Reading) || Handling(m.x, s, Closing)
    case Request(r, _) => r !in m.tasks
    case Wake(r) => r in m.tasks && m.tasks[r].Waiting?
    case GiveUp(r) => r in m.tasks && m.tasks[r] != Ended
    case Send(r) =>
      r in m.tasks && m.tasks[r].Resolved? && m.tasks[r].s in m.x.sessions && LockFree(m, m.tasks[r].s)
    case Resume(r) => r in m.tasks && m.tasks[r].InFlight? && r in m.x.futures && m.x.futures[r] != Pending
    case Timeout(r) =>
      && r in m.tasks && m.tasks[r].InFlight? && m.tasks[r].s in m.x.sessions
      && r in m.writes && r in m.x.futures && m.x.futures[r] == Pending
    case WriteFails(r) => r in m.tasks && m.tasks[r].InFlight? && m.tasks[r].s in m.x.sessions && r in m.writes
    case Cancel(r) => r in m.tasks && m.tasks[r].InFlight?
    case Configure(_, _) => true
    case Elapse(_) => true
  }

  ghost function Next(m: Machine, e: Event): Machine
    requires Enabled(m, e)
  {
    match e
    case Connect(s, peer) => m.(x := Accept(m.x, s, peer))
    case HeartbeatFrame(s, pn) => m.(x := Heartbeat(m.x, s, pn))
    case ReplyFrame(s, tid, payload) => m.(x := Forwarded(m.x, s, tid, payload))
    case LoopEnds(s) => m.(x := StopReading(m.x, s))
    case Teardown(s) => m.(x := Finish(m.x, s))
    case KeepAlive(s) => m.(x := AllocateTid(m.x, s))
    case Request(r, pn) => OnSeek(m, r, pn, false)
    case Wake(r) => OnSeek(m, r, m.tasks[r].pn, true)
    case GiveUp(r) => m.(tasks := m.tasks[r := Ended])
    case Send(r) => OnSend(m, r, m.tasks[r].pn, m.tasks[r].s)
    case Resume(r) => m.(tasks := m.tasks[r := Ended])
    case Timeout(r) => OnTimeout(m, r, m.tasks[r].s)
    case WriteFails(r) => OnWriteFails(m, r, m.tasks[r].s)
    case Cancel(r) => OnCancel(m, r)
    case Configure(pn, enabled) => m.(x := m.x.(records := SetEnabled(m.x.records, pn, enabled)))
    case Elapse(now) => m.(x := m.x.(clock := now))
  }

  function Start(records: map<Text, Record>): Machine
  {
    Machine(Index(map[], {}, map[], map[], false, ResetConnectionState(records), NEVER, map[]), map[], map[])
  }

  /** `m` is reached from a start-up with the stored `records` by the events `es`. */
  ghost predicate Reaches(records: map<Text, Record>, es: seq<Event>, m: Machine)
    decreases |es|
  {
    if es == [] then m == Start(records)
    else
      var last := es[|es| - 1];
      exists prior: Machine ::
        Reaches(records, es[..|es| - 1], prior) && Enabled(prior, last) && m == Next(prior, last)
  }

  // ---------------------------------------------------------------- the indexes agree

  /** A mapped PN names a connected session that is identified by it, and its ready
      event is set. */
  predicate MappingOk(x: Index, p: Text)
  {
    p in x.byPn ==>
      && p != EMPTY && x.byPn[p] in x.connected && x.byPn[p] in x.sessions && x.sessions[x.byPn[p]].pn == p
      && p in x.ready && x.ready[p]
  }

  predicate EventOk(x: Index, p: Text)
  {
    p in x.ready ==> (x.ready[p] <==> p in x.byPn)
  }

  /** An identified connected session is the one its PN is mapped to; a connected
      session has a live handler; and only an identified session is dropped before its
      handler ends. */
  predicate SessionOk(x: Index, s: SessionId)
  {
    && (s in x.connected ==> s in x.sessions)
    && (s in x.sessions ==>
          var sess := x.sessions[s];
          && (s in x.connected && sess.pn != EMPTY ==> sess.pn in x.byPn && x.byPn[sess.pn] == s)
          && (s in x.connected ==> sess.phase != Finished)
          && (sess.phase != Finished && sess.pn == EMPTY ==> s in x.connected))
  }

  /** The PN map is the one-to-one index of the identified connected sessions, every
      ready event is set exactly when its PN is mapped, and the general one exactly when
      some session is connected. */
  ghost predicate IndexOk(x: Index)
  {
    && (forall p :: MappingOk(x, p))
    && (forall p :: EventOk(x, p))
    && (forall s :: SessionOk(x, s))
    && (x.anyReady <==> x.connected != {})
  }

  lemma AcceptKeepsIndexOk(x: Index, s: SessionId, peer: Text)
    requires IndexOk(x) && s !in x.sessions
    ensures IndexOk(Accept(x, s, peer))
  {
    var y := Accept(x, s, peer);
    forall p ensures MappingOk(y, p) { assert MappingOk(x, p); }
    forall p ensures EventOk(y, p) { assert EventOk(x, p); }
    forall t ensures SessionOk(y, t) { assert SessionOk(x, t); }
  }

  lemma FinishKeepsIndexOk(x: Index, s: SessionId)
    requires s in x.sessions && IndexOk(x)
    ensures IndexOk(Finish(x, s))
  {
    hide FailAll, MarkDisconnected;
    var y := Finish(x, s);
    assert SessionOk(x, s);
    forall p ensures MappingOk(y, p) { assert MappingOk(x, p); }
    forall p ensures EventOk(y, p) { assert EventOk(x, p) && MappingOk(x, p); }
    forall t ensures SessionOk(y, t) { assert SessionOk(x, t); }
  }

  /** `s` has just been identified as `pn` and the previous holder of `pn` evicted. */
  ghost predicate Vacated(x: Index, y: Index, s: SessionId, pn: Text)
  {
    && y.byPn == x.byPn - {pn}
    && y.ready == (if pn in x.byPn then x.ready[pn := false] else x.ready)
    && y.connected == (if pn in x.byPn then x.connected - {x.byPn[pn]} else x.connected)
    && s in y.connected && y.anyReady
    && (forall t :: t in y.sessions <==> t in x.sessions)
    && (forall t :: t in x.sessions ==>
          && y.sessions[t].pn == (if t == s then pn else x.sessions[t].pn)
          && y.sessions[t].phase == x.sessions[t].phase)
  }

  lemma EvictVacates(x: Index, s: SessionId, pn: Text)
    requires IndexOk(x) && s in x.sessions && s in x.connected && x.sessions[s].pn == EMPTY && pn != EMPTY
    ensures Vacated(x, Evict(Identify(x, s, pn), s, pn), s, pn)
  {
    hide FailAll, IndexOk;
    assert MappingOk(x, pn) && x.anyReady by { IndexOkAt(x, s, pn); }
    var y := Identify(x, s, pn);
    if pn in x.byPn {
      assert x.byPn[pn] != s;
      assert y.sessions[x.byPn[pn]] == x.sessions[x.byPn[pn]];
    }
  }

  lemma IndexOkAt(x: Index, s: SessionId, pn: Text)
    requires IndexOk(x)
    ensures MappingOk(x, pn) && EventOk(x, pn) && SessionOk(x, s)
    ensures x.anyReady <==> x.connected != {}
  {
  }

  lemma ClaimIndexes(x: Index, y: Index, s: SessionId, pn: Text)
    requires IndexOk(x) && s in x.sessions && x.sessions[s].pn == EMPTY && pn != EMPTY
    requires Vacated(x, y, s, pn)
    ensures IndexOk(Claim(y, s, pn))
  {
    hide RecordSeen, IndexOk;
    var z := Claim(y, s, pn);
    IndexOkAt(x, s, pn);
    forall p ensures MappingOk(z, p) {
      IndexOkAt(x, s, p);
      if p in x.byPn {
        var t := x.byPn[p];
        assert t in x.sessions && t in z.sessions && z.sessions[t].pn == x.sessions[t].pn;
      }
    }
    forall p ensures EventOk(z, p) { IndexOkAt(x, s, p); }
    forall t ensures SessionOk(z, t) { IndexOkAt(x, t, pn); }
    assert IndexOk(z) by { IndexOkFrom(z); }
  }

  lemma IndexOkFrom(x: Index)
    requires forall p :: MappingOk(x, p)
    requires forall p :: EventOk(x, p)
    requires forall s :: SessionOk(x, s)
    requires x.anyReady <==> x.connected != {}
    ensures IndexOk(x)
  {
  }

  /** Nothing the indexes depend on differs. */
  ghost predicate SameView(x: Index, y: Index)
  {
    && x.connected == y.connected && x.byPn == y.byPn && x.ready == y.ready && x.anyReady == y.anyReady
    && (forall s :: s in x.sessions <==> s in y.sessions)
    && (forall s :: s in x.sessions ==>
          x.sessions[s].pn == y.sessions[s].pn && x.sessions[s].phase == y.sessions[s].phase)
  }

  lemma SameViewKeepsIndexOk(x: Index, y: Index)
    requires IndexOk(x) && SameView(x, y)
    ensures IndexOk(y)
  {
    forall p ensures MappingOk(y, p) {
      assert MappingOk(x, p);
      if p in x.byPn {
        var t := x.byPn[p];
        assert t in x.sessions && t in y.sessions && y.sessions[t].pn == x.sessions[t].pn;
      }
    }
    forall p ensures EventOk(y, p) { assert EventOk(x, p); }
    forall t ensures SessionOk(y, t) { assert SessionOk(x, t); }
  }

  lemma HeartbeatKeepsIndexOk(x: Index, s: SessionId, pn: Text)
    requires IndexOk(x) && Handling(x, s, Reading)
    ensures IndexOk(Heartbeat(x, s, pn))
  {
    if pn != EMPTY && x.sessions[s].pn == EMPTY {
      IndexOkAt(x, s, pn);
      EvictVacates(x, s, pn);
      var y := Evict(Identify(x, s, pn), s, pn);
      hide Evict, Identify, Claim, IndexOk;
      ClaimIndexes(x, y, s, pn);
    } else {
      hide RecordSeen, Evict, Claim, IndexOk;
      SameViewKeepsIndexOk(x, Heartbeat(x, s, pn));
    }
  }

  lemma ReadyEventKeepsIndexOk(x: Index, pn: Text)
    requires IndexOk(x) && (pn != EMPTY ==> pn !in x.byPn)
    ensures IndexOk(ReadyEvent(x, pn))
  {
    var y := ReadyEvent(x, pn);
    forall p ensures MappingOk(y, p) { assert MappingOk(x, p); }
    forall p ensures EventOk(y, p) { assert EventOk(x, p); }
    forall t ensures SessionOk(y, t) { assert SessionOk(x, t); }
  }

  lemma StopReadingKeepsIndexOk(x: Index, s: SessionId)
    requires IndexOk(x) && Handling(x, s, Reading)
    ensures IndexOk(StopReading(x, s))
  {
    var y := StopReading(x, s);
    forall p ensures MappingOk(y, p) { assert MappingOk(x, p); }
    forall p ensures EventOk(y, p) { assert EventOk(x, p); }
    forall t ensures SessionOk(y, t) { assert SessionOk(x, t); }
  }

  lemma SeekKeepsIndexOk(m: Machine, r: RequestId, pn: Text, again: bool)
    requires IndexOk(m.x)
    ensures IndexOk(OnSeek(m, r, pn, again).x)
  {
    hide IndexOk, ReadyEvent;
    if pn == EMPTY || pn !in m.x.byPn {
      ReadyEventKeepsIndexOk(m.x, pn);
    }
  }

  /** The remaining events leave the indexes alone. */
  predicate Aloof(e: Event)
  {
    e.ReplyFrame? || e.KeepAlive? || e.GiveUp? || e.Send? || e.Resume? || e.Timeout? || e.WriteFails?
    || e.Cancel? || e.Configure? || e.Elapse?
  }

  lemma AloofKeepsView(m: Machine, e: Event)
    requires Enabled(m, e) && Aloof(e)
    ensures SameView(m.x, Next(m, e).x)
  {
    hide SetEnabled, LockFree;
    match e
    case ReplyFrame(s, tid, payload) =>
    case KeepAlive(s) =>
    case GiveUp(r) =>
    case Send(r) =>
    case Resume(r) =>
    case Timeout(r) =>
    case WriteFails(r) =>
    case Cancel(r) =>
    case Configure(pn, enabled) =>
    case Elapse(now) =>
  }

  lemma NextKeepsIndexOk(m: Machine, e: Event)
    requires IndexOk(m.x) && Enabled(m, e)
    ensures IndexOk(Next(m, e).x)
  {
    hide IndexOk, Accept, Finish, Heartbeat, StopReading, OnSeek;
    match e
    case Connect(s, peer) => AcceptKeepsIndexOk(m.x, s, peer);
    case HeartbeatFrame(s, pn) => HeartbeatKeepsIndexOk(m.x, s, pn);
    case LoopEnds(s) => StopReadingKeepsIndexOk(m.x, s);
    case Teardown(s) => FinishKeepsIndexOk(m.x, s);
    case Request(r, pn) => SeekKeepsIndexOk(m, r, pn, false);
    case Wake(r) => SeekKeepsIndexOk(m, r, m.tasks[r].pn, true);
    case _ =>
      AloofKeepsView(m, e);
      hide Next, SameView;
      SameViewKeepsIndexOk(m.x, Next(m, e).x);
  }

  /** The indexes agree in every interleaving. */
  lemma {:induction false} IndexAlwaysOk(records: map<Text, Record>, es: seq<Event>, m: Machine)
    requires Reaches(records, es, m)
    ensures IndexOk(m.x)
    decreases |es|
  {
    if es == [] {
    } else {
      hide Enabled, Next, IndexOk;
      var last := es[|es| - 1];
      var prior: Machine :| Reaches(records, es[..|es| - 1], prior) && Enabled(prior, last) && m == Next(prior, last);
      IndexAlwaysOk(records, es[..|es| - 1], prior);
      NextKeepsIndexOk(prior, last);
    }
  }

  /** The late teardown of an evicted session changes none of the indexes. */
  lemma LateTeardownIsInert(records: map<Text, Record>, es: seq<Event>, m: Machine, s: SessionId)
    requires Reaches(records, es, m) && Enabled(m, Teardown(s)) && s !in m.x.connected
    ensures
      var x, y := m.x, Next(m, Teardown(s)).x;
      x.connected == y.connected && x.byPn == y.byPn && x.ready == y.ready && x.anyReady == y.anyReady
  {
    IndexAlwaysOk(records, es, m);
    assert SessionOk(m.x, s);
    if m.x.sessions[s].pn in m.x.byPn {
      assert MappingOk(m.x, m.x.sessions[s].pn);
    }
    assert m.x.connected - {s} == m.x.connected;
  }

  lemma HeartbeatKeepsPn(x: Index, s: SessionId, pn: Text, t: SessionId)
    requires s in x.sessions && t in x.sessions
    ensures t in Heartbeat(x, s, pn).sessions
    ensures x.sessions[t].pn != EMPTY ==> Heartbeat(x, s, pn).sessions[t].pn == x.sessions[t].pn
  {
    hide FailAll, RecordSeen;
  }

  /** A session's PN never changes once it is known. */
  lemma PnIsWriteOnce(m: Machine, e: Event, s: SessionId)
    requires Enabled(m, e) && s in m.x.sessions
    ensures s in Next(m, e).x.sessions
    ensures m.x.sessions[s].pn != EMPTY ==> Next(m, e).x.sessions[s].pn == m.x.sessions[s].pn
  {
    if Aloof(e) {
      AloofKeepsView(m, e);
      hide Next, Enabled;
    } else if e.HeartbeatFrame? {
      HeartbeatKeepsPn(m.x, e.s, e.pn, s);
      hide Heartbeat;
    } else {
      hide FailAll, LockFree, Heartbeat, MarkDisconnected, Resolve, ReadyEvent;
    }
  }

  /** A request that names no dongle, at once or when it wakes, holds the only connected
      session; it is dropped when there are several; and it waits, once, for a first one. */
  lemma PnlessNeverGuesses(m: Machine, r: RequestId, again: bool)
    ensures
      var n := OnSeek(m, r, EMPTY, again);
      && r in n.tasks && n.x.connected == m.x.connected
      && (|m.x.connected| == 1 ==> n.tasks[r].Resolved? && n.tasks[r].s in m.x.connected)
      && (|m.x.connected| > 1 ==> n.tasks[r] == Ended)
      && (|m.x.connected| == 0 ==> n.tasks[r] == if again then Ended else Waiting(EMPTY))
  {
    EmptyIfNoMember(m.x.connected);
  }

  // ---------------------------------------------------------------- shutdown

  /** The indexes after a shutdown, which drops every session and clears them, while the
      handlers of the sessions may still have frames to read. */
  function ShutDown(x: Index): Index
  {
    x.(connected := {}, byPn := map[], ready := map[], anyReady := false)
  }

  /** That is why the runs above have no shutdown: a first heartbeat that is read after it
      maps a session that is not connected any more. */
  lemma ShutdownLeavesRace(x: Index, s: SessionId, pn: Text)
    requires Handling(x, s, Reading) && x.sessions[s].pn == EMPTY && pn != EMPTY
    ensures
      var y := Heartbeat(ShutDown(x), s, pn);
      pn in y.byPn && y.byPn[pn] == s && s !in y.connected && !IndexOk(y)
  {
    var y := Heartbeat(ShutDown(x), s, pn);
    assert !MappingOk(y, pn);
  }

  // ---------------------------------------------------------------- the discovery registry

  ghost predicate Live(x: Index, p: Text)
  {
    exists s :: s in x.sessions && x.sessions[s].pn == p && x.sessions[s].phase != Finished
  }

  /** A mapped PN is recorded as connected, and a PN recorded as connected has a
      session whose handler has not finished. */
  ghost predicate RecordOk(x: Index, p: Text)
  {
    && (p in x.byPn ==> p in x.records && x.records[p].status == Connected)
    && (p in x.records && x.records[p].status == Connected ==> p != EMPTY && Live(x, p))
  }

  ghost predicate RegistryOk(x: Index) { forall p :: RecordOk(x, p) }

  lemma SameLives(x: Index, y: Index, p: Text)
    requires Live(x, p)
    requires forall s :: s in x.sessions && x.sessions[s].pn == p && x.sessions[s].phase != Finished ==>
      s in y.sessions && y.sessions[s].pn == p && y.sessions[s].phase != Finished
    ensures Live(y, p)
  {
    var s :| s in x.sessions && x.sessions[s].pn == p && x.sessions[s].phase != Finished;
    assert s in y.sessions && y.sessions[s].pn == p;
  }

  lemma FirstHeartbeatKeepsRecords(x: Index, s: SessionId, pn: Text)
    requires IndexOk(x) && RegistryOk(x) && Handling(x, s, Reading)
    requires x.sessions[s].pn == EMPTY && pn != EMPTY
    ensures RegistryOk(Heartbeat(x, s, pn))
  {
    IndexOkAt(x, s, pn);
    EvictVacates(x, s, pn);
    var y := Evict(Identify(x, s, pn), s, pn);
    var z := Claim(y, s, pn);
    assert y.records == x.records;
    assert z.sessions == y.sessions && z.byPn == y.byPn[pn := s];
    assert z.records == RecordSeen(x.records, pn, y.sessions[s].peer, y.clock);
    hide Evict, Identify, Claim, IndexOk;
    assert s in z.sessions && z.sessions[s].pn == pn && z.sessions[s].phase != Finished;
    forall p ensures RecordOk(z, p) {
      assert RecordOk(x, p);
      if p != EMPTY && Live(x, p) {
        SameLives(x, z, p);
      }
    }
  }

  lemma LaterHeartbeatKeepsRecords(x: Index, s: SessionId)
    requires RegistryOk(x) && Handling(x, s, Reading) && x.sessions[s].pn != EMPTY
    ensures RegistryOk(x.(records := RecordSeen(x.records, x.sessions[s].pn, x.sessions[s].peer, x.clock)))
  {
    var y := x.(records := RecordSeen(x.records, x.sessions[s].pn, x.sessions[s].peer, x.clock));
    assert s in y.sessions && y.sessions[s].phase != Finished;
    forall p ensures RecordOk(y, p) {
      assert RecordOk(x, p);
      if Live(x, p) {
        SameLives(x, y, p);
      }
    }
  }

  lemma HeartbeatKeepsRecords(x: Index, s: SessionId, pn: Text)
    requires IndexOk(x) && RegistryOk(x) && Handling(x, s, Reading)
    ensures RegistryOk(Heartbeat(x, s, pn))
  {
    hide IndexOk, RegistryOk, Claim, Evict, Identify;
    if x.sessions[s].pn != EMPTY {
      LaterHeartbeatKeepsRecords(x, s);
    } else if pn != EMPTY {
      FirstHeartbeatKeepsRecords(x, s, pn);
    }
  }

  lemma FinishKeepsRecords(x: Index, s: SessionId)
    requires IndexOk(x) && RegistryOk(x) && s in x.sessions
    ensures RegistryOk(Finish(x, s))
  {
    var y := Finish(x, s);
    hide FailAll, IndexOk;
    forall p ensures RecordOk(y, p) {
      assert RecordOk(x, p);
      IndexOkAt(x, s, p);
      if p in y.byPn {
        var t := x.byPn[p];
        IndexOkAt(x, t, p);
        assert t in y.sessions && y.sessions[t].pn == p && y.sessions[t].phase != Finished;
      } else if p != x.sessions[s].pn && Live(x, p) {
        SameLives(x, y, p);
      }
    }
  }

  lemma AloofKeepsRecords(x: Index, y: Index)
    requires RegistryOk(x) && SameView(x, y) && y.records == x.records
    ensures RegistryOk(y)
  {
    forall p ensures RecordOk(y, p) {
      assert RecordOk(x, p);
      if Live(x, p) {
        SameLives(x, y, p);
      }
    }
  }

  lemma ConfigureKeepsRecords(x: Index, pn: Text, enabled: bool)
    requires RegistryOk(x)
    ensures RegistryOk(x.(records := SetEnabled(x.records, pn, enabled)))
  {
    var y := x.(records := SetEnabled(x.records, pn, enabled));
    forall p ensures RecordOk(y, p) {
      assert RecordOk(x, p);
      if Live(x, p) {
        SameLives(x, y, p);
      }
    }
  }

  lemma OthersKeepRecords(m: Machine, e: Event)
    requires IndexOk(m.x) && RegistryOk(m.x) && Enabled(m, e)
    requires e.Connect? || e.LoopEnds? || e.Request? || e.Wake?
    ensures RegistryOk(Next(m, e).x)
  {
    hide IndexOk;
    var x, y := m.x, Next(m, e).x;
    assert y.records == x.records && y.byPn == x.byPn;
    forall p ensures RecordOk(y, p) {
      assert RecordOk(x, p);
      if Live(x, p) {
        SameLives(x, y, p);
      }
    }
  }

  lemma NextKeepsRegistryOk(m: Machine, e: Event)
    requires IndexOk(m.x) && RegistryOk(m.x) && Enabled(m, e)
    ensures RegistryOk(Next(m, e).x)
  {
    hide IndexOk, RegistryOk, Accept, Finish, Heartbeat, SetEnabled, OnSeek, LockFree;
    match e
    case HeartbeatFrame(s, pn) => HeartbeatKeepsRecords(m.x, s, pn);
    case Teardown(s) => FinishKeepsRecords(m.x, s);
    case Configure(pn, enabled) => ConfigureKeepsRecords(m.x, pn, enabled);
    case Connect(_, _) => OthersKeepRecords(m, e);
    case LoopEnds(_) => OthersKeepRecords(m, e);
    case Request(_, _) => OthersKeepRecords(m, e);
    case Wake(_) => OthersKeepRecords(m, e);
    case _ =>
      AloofKeepsView(m, e);
      hide SameView;
      AloofKeepsRecords(m.x, Next(m, e).x);
  }

  lemma {:induction false} RegistryAlwaysOk(records: map<Text, Record>, es: seq<Event>, m: Machine)
    requires Reaches(records, es, m)
    ensures RegistryOk(m.x)
    decreases |es|
  {
    if es == [] {
      assert forall p :: RecordOk(m.x, p);
    } else {
      hide Enabled, Next, IndexOk, RegistryOk;
      var last := es[|es| - 1];
      var prior: Machine :| Reaches(records, es[..|es| - 1], prior) && Enabled(prior, last) && m == Next(prior, last);
      RegistryAlwaysOk(records, es[..|es| - 1], prior);
      IndexAlwaysOk(records, es[..|es| - 1], prior);
      NextKeepsRegistryOk(prior, last);
    }
  }

  lemma SightingKeepsConfiguration(records: map<Text, Record>, pn: Text, peer: Text, now: Stamp, p: Text)
    requires p in records
    ensures
      var after := RecordSeen(records, pn, peer, now);
      p in after && after[p].enabled == records[p].enabled && after[p].firstSeen == records[p].firstSeen
  {
  }

  lemma HeartbeatKeepsConfiguration(x: Index, s: SessionId, pn: Text, p: Text)
    requires s in x.sessions && p in x.records
    ensures
      var y := Heartbeat(x, s, pn);
      p in y.records && y.records[p].enabled == x.records[p].enabled && y.records[p].firstSeen == x.records[p].firstSeen
  {
    hide FailAll, RecordSeen;
    var z := Evict(Identify(x, s, pn), s, pn);
    assert z.records == x.records;
    hide Evict, Identify;
    if s in z.sessions {
      SightingKeepsConfiguration(x.records, pn, z.sessions[s].peer, z.clock, p);
    }
    SightingKeepsConfiguration(x.records, x.sessions[s].pn, x.sessions[s].peer, x.clock, p);
  }

  /** A record never goes, the time of its first sight stays, and only the user enables or
      disables it. */
  lemma ConfigurationIsKept(m: Machine, e: Event, p: Text)
    requires Enabled(m, e) && p in m.x.records
    ensures p in Next(m, e).x.records && Next(m, e).x.records[p].firstSeen == m.x.records[p].firstSeen
    ensures !(e.Configure? && e.pn == p) ==> Next(m, e).x.records[p].enabled == m.x.records[p].enabled
  {
    if e.HeartbeatFrame? {
      HeartbeatKeepsConfiguration(m.x, e.s, e.pn, p);
      hide Heartbeat;
    } else {
      hide FailAll, LockFree, Heartbeat, Resolve, ReadyEvent;
    }
  }

  /** Once every handler has finished, nothing is recorded as connected. */
  lemma NoneConnectedAtTheEnd(records: map<Text, Record>, es: seq<Event>, m: Machine, p: Text)
    requires Reaches(records, es, m)
    requires forall s :: s in m.x.sessions ==> m.x.sessions[s].phase == Finished
    requires p in m.x.records
    ensures m.x.records[p].status == Disconnected
  {
    RegistryAlwaysOk(records, es, m);
    assert RecordOk(m.x, p);
  }

  /** A connected session is identified as `p`. */
  ghost predicate Present(x: Index, p: Text)
  {
    p != EMPTY && exists s :: s in x.connected && s in x.sessions && x.sessions[s].pn == p
  }

  lemma PresentIffMapped(x: Index, p: Text)
    requires IndexOk(x)
    ensures p in x.byPn <==> Present(x, p)
  {
    assert MappingOk(x, p);
    if p in x.byPn {
      var t := x.byPn[p];
      assert t in x.connected && t in x.sessions && x.sessions[t].pn == p;
    }
    if Present(x, p) {
      var s :| s in x.connected && s in x.sessions && x.sessions[s].pn == p;
      assert SessionOk(x, s);
    }
  }

  predicate Expected(x: Index, p: Text) { p in x.records && x.records[p].enabled }

  /** With enabled dongles, the manager broadcasts exactly while some enabled PN has no
      connected session; with none, exactly while no connected session is identified. */
  lemma AnnouncesExactly(records: map<Text, Record>, es: seq<Event>, m: Machine)
    requires Reaches(records, es, m)
    ensures (exists p :: Expected(m.x, p)) ==>
      (ShouldAnnounce(m.x) <==> exists p :: Expected(m.x, p) && !Present(m.x, p))
    ensures (forall p :: !Expected(m.x, p)) ==>
      (ShouldAnnounce(m.x) <==> forall p :: !Present(m.x, p))
  {
    IndexAlwaysOk(records, es, m);
    AnnouncesMissing(m.x);
  }

  lemma AnnouncesMissing(x: Index)
    requires IndexOk(x)
    ensures (exists p :: Expected(x, p)) ==>
      (ShouldAnnounce(x) <==> exists p :: Expected(x, p) && !Present(x, p))
    ensures (forall p :: !Expected(x, p)) ==> (ShouldAnnounce(x) <==> forall p :: !Present(x, p))
  {
    forall p ensures p in x.byPn.Keys <==> Present(x, p) {
      PresentIffMapped(x, p);
    }
    hide IndexOk, Present;
    var expected: set<Text> := set p | p in x.records && x.records[p].enabled;
    var missing: set<Text> := expected - x.byPn.Keys;
    assert forall p :: p in expected <==> Expected(x, p);
    hide Expected;
    assert forall p :: p in missing <==> Expected(x, p) && !Present(x, p);
    EmptyIfNoMember(expected);
    EmptyIfNoMember(missing);
    EmptyIfNoMember(x.byPn.Keys);
  }
}

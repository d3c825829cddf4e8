/** What becomes of a request, told by sessions, PNs and tids alone: which events settle it,
    and how; which session it obtains; and what the registry learns from a sighting.
 */
module EybondFates {
  import opened Wrappers
  import opened EybondIndex
  import opened EybondRuns
  import opened EybondMatching

  /** The event ends session `d`: its handler finishes, or another session turns out to have
      its PN. */
  predicate Drops(m: Machine, e: Event, d: SessionId)
  {
    match e
    case Teardown(s) => d == s
    case HeartbeatFrame(s, pn) =>
      && pn != EMPTY && s in m.x.sessions && m.x.sessions[s].pn == EMPTY
      && d != s && d in m.x.connected && d in m.x.sessions && m.x.sessions[d].pn == pn
    case _ => false
  }

  /** Request `r` is entered on session `d`, under some tid. */
  ghost predicate EnteredOn(m: Machine, d: SessionId, r: RequestId)
  {
    d in m.x.sessions && exists t :: t in m.x.sessions[d].pending && m.x.sessions[d].pending[t] == r
  }

  lemma DropFails(m: Machine, d: SessionId, r: RequestId)
    requires d in m.x.sessions && r in m.x.futures
    ensures
      var y := DropSession(m.x, d);
      && r in y.futures && d !in y.connected && d in y.sessions && y.sessions[d].pending == map[]
      && y.futures[r] == if m.x.futures[r] == Pending && EnteredOn(m, d, r) then Lost else m.x.futures[r]
  {
    if EnteredOn(m, d, r) {
      var t :| t in m.x.sessions[d].pending && m.x.sessions[d].pending[t] == r;
    }
  }

  /** The session that a heartbeat evicts is the connected one with its PN, if any. */
  lemma EvictsHolder(m: Machine, s: SessionId, pn: Text, d: SessionId)
    requires IndexOk(m.x) && Enabled(m, HeartbeatFrame(s, pn)) && pn != EMPTY && m.x.sessions[s].pn == EMPTY
    ensures Drops(m, HeartbeatFrame(s, pn), d) <==> pn in m.x.byPn && m.x.byPn[pn] == d
    ensures pn in m.x.byPn ==> m.x.byPn[pn] != s && m.x.byPn[pn] in m.x.sessions
  {
    IndexOkAt(m.x, d, pn);
    hide IndexOk;
  }

  lemma HeartbeatFails(m: Machine, s: SessionId, pn: Text, r: RequestId)
    requires IndexOk(m.x) && Enabled(m, HeartbeatFrame(s, pn)) && r in m.x.futures
    ensures
      var n := Next(m, HeartbeatFrame(s, pn));
      && r in n.x.futures
      && (n.x.futures[r] == m.x.futures[r] || n.x.futures[r] == Lost)
      && (n.x.futures[r] != m.x.futures[r] <==>
            m.x.futures[r] == Pending && exists d :: Drops(m, HeartbeatFrame(s, pn), d) && EnteredOn(m, d, r))
  {
    if pn != EMPTY && m.x.sessions[s].pn == EMPTY {
      forall d ensures Drops(m, HeartbeatFrame(s, pn), d) <==> pn in m.x.byPn && m.x.byPn[pn] == d {
        EvictsHolder(m, s, pn, d);
      }
      EvictsHolder(m, s, pn, s);
      hide IndexOk, Drops;
      var k := m.(x := Identify(m.x, s, pn));
      if pn in m.x.byPn {
        var d := m.x.byPn[pn];
        assert EnteredOn(k, d, r) <==> EnteredOn(m, d, r) by { assert k.x.sessions[d] == m.x.sessions[d]; }
        DropFails(k, d, r);
        hide DropSession, EnteredOn;
        assert Evict(k.x, s, pn) == DropSession(k.x, d);
      }
      hide RecordSeen, DropSession, EnteredOn;
    } else {
      hide IndexOk, RecordSeen, EnteredOn;
    }
  }

  /** When a session ends or is evicted, exactly the requests that wait on that session fail,
      and no others. */
  lemma DropFailsItsOwnOnly(records: map<Text, Record>, es: seq<Event>, m: Machine, e: Event, r: RequestId)
    requires Reaches(records, es, m) && Enabled(m, e) && (e.Teardown? || e.HeartbeatFrame?) && r in m.x.futures
    ensures r in Next(m, e).x.futures
    ensures Next(m, e).x.futures[r] != m.x.futures[r] <==>
      m.x.futures[r] == Pending && exists d :: Drops(m, e, d) && EnteredOn(m, d, r)
    ensures Next(m, e).x.futures[r] != m.x.futures[r] ==> Next(m, e).x.futures[r] == Lost
  {
    IndexAlwaysOk(records, es, m);
    hide Reaches, IndexOk;
    if e.Teardown? {
      DropFails(m, e.s, r);
      assert Drops(m, e, e.s);
      hide DropSession, EnteredOn, MarkDisconnected;
    } else {
      hide Drops, EnteredOn, Heartbeat, Next;
      HeartbeatFails(m, e.s, e.pn, r);
    }
  }

  // ---------------------------------------------------------------- the fate of a request

  /** A request whose frame is on the wire and that nobody has answered. */
  predicate Unanswered(m: Machine, r: RequestId)
  {
    r in m.tasks && m.tasks[r].InFlight? && r in m.x.futures && m.x.futures[r] == Pending
  }

  lemma UnansweredIsEntered(m: Machine, r: RequestId, s: SessionId, t: int)
    requires MatchOk(m) && Unanswered(m, r)
    ensures r in m.writes && m.writes[r].s == m.tasks[r].s && m.tasks[r].s in m.x.sessions
    ensures
      (s in m.x.sessions && t in m.x.sessions[s].pending && m.x.sessions[s].pending[t] == r) <==>
      (s == m.tasks[r].s && t == m.writes[r].index % 65536)
  {
    MatchOkAt(m, s, t, r, r);
  }

  lemma UnansweredIsEnteredOn(m: Machine, r: RequestId, s: SessionId)
    requires MatchOk(m) && Unanswered(m, r)
    ensures EnteredOn(m, s, r) <==> s == m.tasks[r].s
  {
    UnansweredIsEntered(m, r, s, 0);
    if EnteredOn(m, s, r) {
      var t :| t in m.x.sessions[s].pending && m.x.sessions[s].pending[t] == r;
      UnansweredIsEntered(m, r, s, t);
    }
    if s == m.tasks[r].s {
      UnansweredIsEntered(m, r, s, m.writes[r].index % 65536);
    }
    hide MatchOk;
  }

  /** What becomes of a future at an event. */
  function Fate(m: Machine, e: Event, r: RequestId): Future
    requires Unanswered(m, r) && r in m.writes
  {
    var s, tid := m.tasks[r].s, m.writes[r].index % 65536;
    if e.ReplyFrame? && e.s == s && e.tid == tid then Reply(e.payload)
    else if Drops(m, e, s) then Lost
    else if e == Timeout(r) || e == Cancel(r) then Cancelled
    else Pending
  }

  lemma ReplySettles(m: Machine, s: SessionId, tid: int, payload: Payload, r: RequestId)
    requires MatchOk(m) && Unanswered(m, r) && s in m.x.sessions
    ensures r in m.writes && r in Forwarded(m.x, s, tid, payload).futures
    ensures Forwarded(m.x, s, tid, payload).futures[r] ==
      if s == m.tasks[r].s && tid == m.writes[r].index % 65536 then Reply(payload) else Pending
  {
    UnansweredIsEntered(m, r, s, tid);
    hide MatchOk;
  }

  /** In every reachable state, an unanswered request is settled by exactly these events: the
      reply on its session under its tid, which it obtains; the end or the eviction of its
      session; its own timeout; and its own cancellation. */
  lemma FateIsExact(records: map<Text, Record>, es: seq<Event>, m: Machine, e: Event, r: RequestId)
    requires Reaches(records, es, m) && Enabled(m, e) && Unanswered(m, r)
    ensures r in m.writes && r in Next(m, e).x.futures
    ensures Next(m, e).x.futures[r] == Fate(m, e, r)
  {
    IndexAlwaysOk(records, es, m);
    MatchAlwaysOk(records, es, m);
    UnansweredIsEntered(m, r, 0, 0);
    UnansweredIsEnteredOn(m, r, m.tasks[r].s);
    if e.ReplyFrame? {
      ReplySettles(m, e.s, e.tid, e.payload, r);
      hide MatchOk, IndexOk, Reaches, Forwarded;
    } else if e.Teardown? || e.HeartbeatFrame? {
      DropFailsItsOwnOnly(records, es, m, e, r);
      forall d ensures EnteredOn(m, d, r) <==> d == m.tasks[r].s { UnansweredIsEnteredOn(m, r, d); }
      hide MatchOk, IndexOk, Reaches, EnteredOn, Next, Enabled, Drops;
    } else {
      hide MatchOk, IndexOk, Reaches, EnteredOn;
      OthersSettle(m, e, r);
    }
  }

  lemma OthersSettle(m: Machine, e: Event, r: RequestId)
    requires Enabled(m, e) && Unanswered(m, r) && !e.ReplyFrame? && !e.Teardown? && !e.HeartbeatFrame?
    ensures r in Next(m, e).x.futures
    ensures Next(m, e).x.futures[r] == if e == Timeout(r) || e == Cancel(r) then Cancelled else Pending
  {
    hide Resolve, SetEnabled, LockFree;
  }

  /** And while it stays unanswered it keeps its task and its entry, unless it is given up
      or its write fails. */
  lemma UnansweredStays(records: map<Text, Record>, es: seq<Event>, m: Machine, e: Event, r: RequestId)
    requires Reaches(records, es, m) && Enabled(m, e) && Unanswered(m, r)
    requires r in m.writes && Fate(m, e, r) == Pending && e != GiveUp(r) && e != WriteFails(r)
    ensures
      var n, s, t := Next(m, e), m.tasks[r].s, m.writes[r].index % 65536;
      && r in n.tasks && n.tasks[r] == m.tasks[r] && r in n.writes && n.writes[r] == m.writes[r]
      && s in n.x.sessions && t in n.x.sessions[s].pending && n.x.sessions[s].pending[t] == r
  {
    FateIsExact(records, es, m, e, r);
    ReachesNext(records, es, m, e);
    MatchAlwaysOk(records, es + [e], Next(m, e));
    var n := Next(m, e);
    TaskStays(m, e, r);
    hide Reaches, Next, Enabled;
    UnansweredIsEntered(n, r, m.tasks[r].s, m.writes[r].index % 65536);
  }

  lemma TaskStays(m: Machine, e: Event, r: RequestId)
    requires Enabled(m, e) && Unanswered(m, r) && r in m.writes
    requires e != GiveUp(r) && e != WriteFails(r) && e != Timeout(r) && e != Cancel(r)
    ensures
      var n := Next(m, e);
      r in n.tasks && n.tasks[r] == m.tasks[r] && r in n.writes && n.writes[r] == m.writes[r]
  {
    hide Resolve, LockFree, Heartbeat, Finish, Forwarded, Accept, StopReading, AllocateTid, SetEnabled, ReadyEvent;
  }

  // ---------------------------------------------------------------- obtaining a session

  /** A connected session with a PN. */
  predicate Holds(m: Machine, s: SessionId, pn: Text)
  {
    s in m.x.connected && s in m.x.sessions && m.x.sessions[s].pn == pn
  }

  /** In every reachable state, a request for a PN, at once or when it wakes, obtains the
      connected session with that PN.  If there is none it waits, once. */
  lemma ObtainsItsDongle(records: map<Text, Record>, es: seq<Event>, m: Machine, e: Event, r: RequestId, pn: Text)
    requires Reaches(records, es, m) && Enabled(m, e) && pn != EMPTY
    requires e == Request(r, pn) || (e == Wake(r) && m.tasks[r].pn == pn)
    ensures r in Next(m, e).tasks
    ensures forall s :: Holds(m, s, pn) ==> Next(m, e).tasks[r] == Resolved(pn, s)
    ensures (forall s :: !Holds(m, s, pn)) ==> Next(m, e).tasks[r] == if e.Wake? then Ended else Waiting(pn)
  {
    IndexAlwaysOk(records, es, m);
    hide Reaches;
    PresentIffMapped(m.x, pn);
    if pn in m.x.byPn {
      IndexOkAt(m.x, m.x.byPn[pn], pn);
      assert Holds(m, m.x.byPn[pn], pn);
    }
    forall s | Holds(m, s, pn) ensures pn in m.x.byPn && m.x.byPn[pn] == s { IndexOkAt(m.x, s, pn); }
    hide IndexOk, LockFree, ReadyEvent, Present;
  }

  /** The frame of a request goes out under the next tid of its session, modulo 65536, and the
      request is entered under it and waits. */
  lemma SendEnters(records: map<Text, Record>, es: seq<Event>, m: Machine, r: RequestId)
    requires Reaches(records, es, m) && Enabled(m, Send(r))
    ensures
      var n, s := Next(m, Send(r)), m.tasks[r].s;
      var t := (m.x.sessions[s].tid + 1) % 65536;
      && Unanswered(n, r) && n.tasks[r] == InFlight(m.tasks[r].pn, s)
      && r in n.writes && n.writes[r].s == s && n.writes[r].index % 65536 == t
      && s in n.x.sessions && n.x.sessions[s].tid == t
      && t in n.x.sessions[s].pending && n.x.sessions[s].pending[t] == r
  {
    MatchAlwaysOk(records, es, m);
    MatchOkAt(m, m.tasks[r].s, 0, r, r);
    hide Reaches, MatchOk, LockFree;
    NextTidWraps(m.x.sessions[m.tasks[r].s].drawn, m.x.sessions[m.tasks[r].s].tid);
  }

  // ---------------------------------------------------------------- what is recorded

  /** A heartbeat of a session with a PN, known before or told by this one, records it: a new
      record starts disabled and with this as its first sight; an old one keeps both, and
      its peer if the session has none. */
  lemma SightingIsRecorded(m: Machine, s: SessionId, pn: Text, p: Text)
    requires Enabled(m, HeartbeatFrame(s, pn))
    requires p == if m.x.sessions[s].pn != EMPTY then m.x.sessions[s].pn else pn
    ensures
      var n, peer := Next(m, HeartbeatFrame(s, pn)), m.x.sessions[s].peer;
      if p == EMPTY then n.x.records == m.x.records
      else if p !in m.x.records then
        n.x.records == m.x.records[p := Record(false, Connected, peer, m.x.clock, m.x.clock)]
      else
        var record := m.x.records[p];
        n.x.records == m.x.records[p := Record(
          record.enabled, Connected, if peer != EMPTY then peer else record.peer,
          record.firstSeen, m.x.clock)]
  {
    EvictionKeepsRecords(m.x, s, pn);
    hide Evict, Identify;
  }

  lemma EvictionKeepsRecords(x: Index, s: SessionId, pn: Text)
    requires s in x.sessions
    ensures
      var y := Evict(Identify(x, s, pn), s, pn);
      y.records == x.records && y.clock == x.clock && s in y.sessions && y.sessions[s].peer == x.sessions[s].peer
  {
    hide FailAll;
  }

  /** The end of a handler records the PN of its session as disconnected, unless another
      session with that PN is connected. */
  lemma EndIsRecorded(records: map<Text, Record>, es: seq<Event>, m: Machine, s: SessionId, p: Text)
    requires Reaches(records, es, m) && Enabled(m, Teardown(s)) && p in m.x.records
    ensures p in Next(m, Teardown(s)).x.records
    ensures
      var gone := m.x.sessions[s].pn == p && p != EMPTY && forall d :: Holds(m, d, p) ==> d == s;
      Next(m, Teardown(s)).x.records[p] ==
        if gone then m.x.records[p].(status := Disconnected, lastSeen := m.x.clock) else m.x.records[p]
  {
    IndexAlwaysOk(records, es, m);
    PresentIffMapped(m.x, p);
    hide Reaches, FailAll;
    IndexOkAt(m.x, s, p);
    if p in m.x.byPn {
      IndexOkAt(m.x, m.x.byPn[p], p);
      assert Holds(m, m.x.byPn[p], p);
    }
    forall d | Holds(m, d, p) && p != EMPTY ensures p in m.x.byPn && m.x.byPn[p] == d { IndexOkAt(m.x, d, p); }
    hide IndexOk, Present;
  }

  /** The user's choice for a PN is recorded, also for one that was never seen. */
  lemma ChoiceIsRecorded(m: Machine, pn: Text, enabled: bool, p: Text)
    ensures
      var n := Next(m, Configure(pn, enabled));
      && pn in n.x.records && n.x.records[pn].enabled == enabled
      && (pn !in m.x.records ==> n.x.records[pn] == Record(enabled, Disconnected, EMPTY, NEVER, NEVER))
      && (p != pn ==> (p in n.x.records <==> p in m.x.records))
      && (p != pn && p in m.x.records ==> n.x.records[p] == m.x.records[p])
  {
  }

  /** At start-up every stored record is disconnected, without a peer, and otherwise kept. */
  lemma StartRecords(records: map<Text, Record>, p: Text)
    ensures p in Start(records).x.records <==> p in records
    ensures p in records ==>
      var kept := records[p];
      Start(records).x.records[p] == Record(kept.enabled, Disconnected, EMPTY, kept.firstSeen, kept.lastSeen)
  {
  }
}

/** Replies reach the request they answer, and requests reach the dongle they name.

    Tids are 16 bits and wrap; `drawn` counts them without wrapping.  The entries of
    `pending` outlive a cancelled request, so several may be there at once.
 */
module EybondMatching {
  import opened Wrappers
  import opened EybondIndex
  import opened EybondRuns

  predicate TidOk(m: Machine, s: SessionId)
  {
    s in m.x.sessions ==> m.x.sessions[s].drawn >= 0 && m.x.sessions[s].tid == m.x.sessions[s].drawn % TIDS
  }

  /** An entry stands for a request that was written under its tid on this session. */
  predicate EntryOk(m: Machine, s: SessionId, t: int)
  {
    s in m.x.sessions && t in m.x.sessions[s].pending ==>
      var f := m.x.sessions[s].pending[t];
      f in m.writes && m.writes[f].s == s && m.writes[f].index % TIDS == t
  }

  predicate WriteOk(m: Machine, r: RequestId)
  {
    r in m.writes ==>
      var w := m.writes[r];
      && w.s in m.x.sessions && 1 <= w.index <= m.x.sessions[w.s].drawn
      && r in m.x.futures && r in m.tasks && (m.tasks[r] == Ended || m.tasks[r] == InFlight(w.pn, w.s))
      && (w.pn != EMPTY ==> m.x.sessions[w.s].pn == w.pn)
  }

  predicate Distinct(m: Machine, r: RequestId, q: RequestId)
  {
    r in m.writes && q in m.writes && r != q && m.writes[r].s == m.writes[q].s ==>
      m.writes[r].index != m.writes[q].index
  }

  /** Of the requests written under one tid, an entry stands for the latest. */
  predicate EntryIsLatest(m: Machine, r: RequestId)
  {
    r in m.writes && m.writes[r].s in m.x.sessions ==>
      var pending := m.x.sessions[m.writes[r].s].pending;
      var t := m.writes[r].index % TIDS;
      t in pending && pending[t] in m.writes ==> m.writes[r].index <= m.writes[pending[t]].index
  }

  /** A request holds a session with its PN; a request in flight that nobody has
      answered is still entered under its tid. */
  predicate TaskOk(m: Machine, r: RequestId)
  {
    r in m.tasks ==>
      match m.tasks[r]
      case Waiting(_) => r !in m.writes
      case Resolved(pn, s) =>
        r !in m.writes && s in m.x.sessions && (pn != EMPTY ==> m.x.sessions[s].pn == pn)
      case InFlight(pn, s) =>
        && r in m.writes && m.writes[r].s == s && m.writes[r].pn == pn && s in m.x.sessions
        && (r in m.x.futures && m.x.futures[r] == Pending ==>
              var t := m.writes[r].index % TIDS;
              t in m.x.sessions[s].pending && m.x.sessions[s].pending[t] == r)
      case Ended => true
  }

  /** Nothing is written to a session after a request in flight there: it holds the lock. */
  predicate Newest(m: Machine, r: RequestId, q: RequestId)
  {
    r in m.tasks && m.tasks[r].InFlight? && r in m.writes && q in m.writes && m.writes[q].s == m.writes[r].s ==>
      m.writes[q].index <= m.writes[r].index
  }

  ghost predicate MatchOk(m: Machine)
  {
    && (forall s :: TidOk(m, s))
    && (forall s, t :: EntryOk(m, s, t))
    && (forall r :: WriteOk(m, r))
    && (forall r, q :: Distinct(m, r, q))
    && (forall r :: EntryIsLatest(m, r))
    && (forall r :: TaskOk(m, r))
    && (forall r, q :: Newest(m, r, q))
  }

  // ---------------------------------------------------------------- events that only settle things

  /** Nobody waits for `f` any more. */
  predicate Done(m: Machine, f: RequestId)
  {
    (f in m.x.futures && m.x.futures[f] != Pending) || (f in m.tasks && !m.tasks[f].InFlight?)
  }

  ghost predicate SettlesSession(m: Machine, n: Machine, s: SessionId)
  {
    && (s in m.x.sessions ==>
          s in n.x.sessions &&
          var a, b := m.x.sessions[s], n.x.sessions[s];
          && b.tid == a.tid && b.drawn == a.drawn && (a.pn != EMPTY ==> b.pn == a.pn)
          && (forall t :: t in b.pending ==> t in a.pending && b.pending[t] == a.pending[t])
          && (forall t :: t in a.pending && t !in b.pending ==> Done(n, a.pending[t])))
    && (s !in m.x.sessions && s in n.x.sessions ==>
          n.x.sessions[s].drawn == 0 && n.x.sessions[s].tid == 0 && n.x.sessions[s].pending == map[])
  }

  predicate SettlesRequest(m: Machine, n: Machine, r: RequestId)
  {
    && (r in m.x.futures ==> r in n.x.futures && (n.x.futures[r] == Pending ==> m.x.futures[r] == Pending))
    && (r in n.tasks <==> r in m.tasks)
    && (r in m.tasks && r in n.tasks ==> n.tasks[r] == m.tasks[r] || n.tasks[r] == Ended)
  }

  /** Entries only go, and only when nobody waits for them any more. */
  ghost predicate Settles(m: Machine, n: Machine)
  {
    n.writes == m.writes && (forall s :: SettlesSession(m, n, s)) && (forall r :: SettlesRequest(m, n, r))
  }

  lemma SettlesKeepsTask(m: Machine, n: Machine, r: RequestId)
    requires MatchOk(m) && Settles(m, n)
    ensures TaskOk(n, r)
  {
    assert TaskOk(m, r) && SettlesRequest(m, n, r) && WriteOk(m, r);
    if r in n.tasks && n.tasks[r] != Ended && !n.tasks[r].Waiting? {
      var s := m.tasks[r].s;
      assert SettlesSession(m, n, s);
    }
  }

  lemma SettlesKeepsMatchOk(m: Machine, n: Machine)
    requires MatchOk(m) && Settles(m, n)
    ensures MatchOk(n)
  {
    forall s ensures TidOk(n, s) { assert TidOk(m, s) && SettlesSession(m, n, s); }
    forall s, t ensures EntryOk(n, s, t) { assert EntryOk(m, s, t) && SettlesSession(m, n, s); }
    forall r ensures WriteOk(n, r) {
      assert WriteOk(m, r) && SettlesRequest(m, n, r);
      if r in m.writes {
        assert SettlesSession(m, n, m.writes[r].s);
      }
    }
    forall r, q ensures Distinct(n, r, q) { assert Distinct(m, r, q); }
    forall r ensures EntryIsLatest(n, r) {
      assert EntryIsLatest(m, r) && WriteOk(m, r);
      if r in m.writes {
        assert SettlesSession(m, n, m.writes[r].s);
      }
    }
    forall r ensures TaskOk(n, r) { SettlesKeepsTask(m, n, r); }
    forall r, q ensures Newest(n, r, q) { assert Newest(m, r, q) && SettlesRequest(m, n, r); }
  }

  lemma MatchOkAt(m: Machine, s: SessionId, t: int, r: RequestId, q: RequestId)
    requires MatchOk(m)
    ensures TidOk(m, s) && EntryOk(m, s, t) && WriteOk(m, r) && Distinct(m, r, q)
    ensures EntryIsLatest(m, r) && TaskOk(m, r) && Newest(m, r, q)
  {
  }

  lemma SettlesFrom(m: Machine, n: Machine)
    requires n.writes == m.writes
    requires forall s :: SettlesSession(m, n, s)
    requires forall r :: SettlesRequest(m, n, r)
    ensures Settles(m, n)
  {
  }

  lemma DropSettles(m: Machine, s: SessionId)
    requires s in m.x.sessions
    requires forall t :: EntryOk(m, s, t)
    requires forall r :: WriteOk(m, r)
    ensures Settles(m, m.(x := DropSession(m.x, s)))
  {
    var n := m.(x := DropSession(m.x, s));
    forall t ensures SettlesSession(m, n, t) {
      if t == s {
        forall u | u in m.x.sessions[s].pending ensures Done(n, m.x.sessions[s].pending[u]) {
          var f := m.x.sessions[s].pending[u];
          assert EntryOk(m, s, u) && WriteOk(m, f);
          assert f in Waiters(m.x.sessions[s].pending);
        }
      }
    }
    forall r ensures SettlesRequest(m, n, r) {}
    SettlesFrom(m, n);
  }

  /** Index changes that leave entries and futures alone. */
  lemma QuietSettles(m: Machine, y: Index)
    requires y.futures == m.x.futures
    requires forall s :: s in m.x.sessions ==>
      && s in y.sessions
      && y.sessions[s].tid == m.x.sessions[s].tid && y.sessions[s].drawn == m.x.sessions[s].drawn
      && y.sessions[s].pending == m.x.sessions[s].pending
      && (m.x.sessions[s].pn != EMPTY ==> y.sessions[s].pn == m.x.sessions[s].pn)
    requires forall s :: s !in m.x.sessions && s in y.sessions ==>
      y.sessions[s].drawn == 0 && y.sessions[s].tid == 0 && y.sessions[s].pending == map[]
    ensures Settles(m, m.(x := y))
  {
    var n := m.(x := y);
    forall s ensures SettlesSession(m, n, s) {}
    forall r ensures SettlesRequest(m, n, r) {}
    SettlesFrom(m, n);
  }

  lemma IndexStepKeepsMatchOk(m: Machine, y: Index)
    requires MatchOk(m) && Settles(m, m.(x := y))
    ensures MatchOk(m.(x := y))
  {
    hide MatchOk, Settles;
    SettlesKeepsMatchOk(m, m.(x := y));
  }

  lemma DropKeepsMatchOk(m: Machine, s: SessionId)
    requires MatchOk(m) && s in m.x.sessions
    ensures MatchOk(m.(x := DropSession(m.x, s)))
  {
    forall t ensures EntryOk(m, s, t) { MatchOkAt(m, s, t, 0, 0); }
    forall r ensures WriteOk(m, r) { MatchOkAt(m, s, 0, r, r); }
    hide MatchOk, DropSession, Settles;
    DropSettles(m, s);
    IndexStepKeepsMatchOk(m, DropSession(m.x, s));
  }

  lemma QuietKeepsMatchOk(m: Machine, y: Index)
    requires MatchOk(m)
    requires y.futures == m.x.futures
    requires forall s :: s in m.x.sessions ==>
      && s in y.sessions
      && y.sessions[s].tid == m.x.sessions[s].tid && y.sessions[s].drawn == m.x.sessions[s].drawn
      && y.sessions[s].pending == m.x.sessions[s].pending
      && (m.x.sessions[s].pn != EMPTY ==> y.sessions[s].pn == m.x.sessions[s].pn)
    requires forall s :: s !in m.x.sessions && s in y.sessions ==>
      y.sessions[s].drawn == 0 && y.sessions[s].tid == 0 && y.sessions[s].pending == map[]
    ensures MatchOk(m.(x := y))
  {
    hide MatchOk, Settles;
    QuietSettles(m, y);
    IndexStepKeepsMatchOk(m, y);
  }

  lemma EvictKeepsMatchOk(m: Machine, s: SessionId, pn: Text)
    requires MatchOk(m) && s in m.x.sessions
    ensures MatchOk(m.(x := Evict(m.x, s, pn))) && s in Evict(m.x, s, pn).sessions
  {
    if Evict(m.x, s, pn) != m.x {
      hide MatchOk;
      DropKeepsMatchOk(m, m.x.byPn[pn]);
    }
  }

  lemma FirstHeartbeatKeepsMatchOk(m: Machine, s: SessionId, pn: Text)
    requires MatchOk(m) && s in m.x.sessions && pn != EMPTY && m.x.sessions[s].pn == EMPTY
    ensures MatchOk(m.(x := Heartbeat(m.x, s, pn)))
  {
    hide MatchOk, Evict, RecordSeen;
    var x1 := Identify(m.x, s, pn);
    QuietKeepsMatchOk(m, x1);
    hide Identify;
    EvictKeepsMatchOk(m.(x := x1), s, pn);
    var x2 := Evict(x1, s, pn);
    QuietKeepsMatchOk(m.(x := x2), Claim(x2, s, pn));
  }

  lemma HeartbeatKeepsMatchOk(m: Machine, s: SessionId, pn: Text)
    requires MatchOk(m) && s in m.x.sessions
    ensures MatchOk(m.(x := Heartbeat(m.x, s, pn)))
  {
    hide MatchOk, Evict, Identify, Claim, RecordSeen;
    if pn != EMPTY && m.x.sessions[s].pn == EMPTY {
      FirstHeartbeatKeepsMatchOk(m, s, pn);
    } else {
      QuietKeepsMatchOk(m, Heartbeat(m.x, s, pn));
    }
  }

  lemma FinishKeepsMatchOk(m: Machine, s: SessionId)
    requires MatchOk(m) && s in m.x.sessions
    ensures MatchOk(m.(x := Finish(m.x, s)))
  {
    var y, z := DropSession(m.x, s), Finish(m.x, s);
    assert z.futures == y.futures && z.sessions == y.sessions[s := y.sessions[s].(phase := Finished)];
    hide MatchOk, Settles, DropSession, Finish;
    DropKeepsMatchOk(m, s);
    QuietKeepsMatchOk(m.(x := y), z);
  }

  lemma ForwardedSettles(m: Machine, s: SessionId, tid: int, payload: Payload)
    requires MatchOk(m) && s in m.x.sessions
    ensures Settles(m, m.(x := Forwarded(m.x, s, tid, payload)))
  {
    var n := m.(x := Forwarded(m.x, s, tid, payload));
    MatchOkAt(m, s, tid, 0, 0);
    if tid in m.x.sessions[s].pending {
      MatchOkAt(m, s, tid, m.x.sessions[s].pending[tid], 0);
    }
    hide MatchOk;
    forall t ensures SettlesSession(m, n, t) {}
    forall r ensures SettlesRequest(m, n, r) {}
    SettlesFrom(m, n);
  }

  /** While a request is in flight, an entry under its tid is its own. */
  lemma EntryIsOwn(m: Machine, r: RequestId)
    requires MatchOk(m) && r in m.tasks && m.tasks[r].InFlight?
    ensures r in m.writes && m.writes[r].s == m.tasks[r].s && m.tasks[r].s in m.x.sessions
    ensures
      var pending := m.x.sessions[m.tasks[r].s].pending;
      var t := m.writes[r].index % TIDS;
      t in pending ==> pending[t] == r
  {
    MatchOkAt(m, m.tasks[r].s, 0, r, r);
    var s, t := m.tasks[r].s, m.writes[r].index % TIDS;
    if t in m.x.sessions[s].pending {
      MatchOkAt(m, s, t, r, m.x.sessions[s].pending[t]);
    }
  }

  /** Taking back the own entry, giving up the future or not. */
  lemma WithdrawSettles(m: Machine, n: Machine, r: RequestId)
    requires MatchOk(m) && r in m.tasks && m.tasks[r].InFlight?
    requires n.writes == m.writes && n.tasks == m.tasks[r := Ended]
    requires n.x.futures == m.x.futures || n.x == CancelFuture(n.x.(futures := m.x.futures), r)
    requires
      || n.x.sessions == m.x.sessions
      || (m.tasks[r].s in m.x.sessions && r in m.writes &&
          n.x.sessions == Unregister(m.x, m.tasks[r].s, m.writes[r].index % TIDS).sessions)
    ensures Settles(m, n)
  {
    EntryIsOwn(m, r);
    hide MatchOk;
    forall t ensures SettlesSession(m, n, t) {}
    forall q ensures SettlesRequest(m, n, q) {}
    SettlesFrom(m, n);
  }

  lemma EndKeepsMatchOk(m: Machine, r: RequestId)
    requires MatchOk(m) && r in m.tasks
    ensures MatchOk(m.(tasks := m.tasks[r := Ended]))
  {
    var n := m.(tasks := m.tasks[r := Ended]);
    hide MatchOk;
    forall t ensures SettlesSession(m, n, t) {}
    forall q ensures SettlesRequest(m, n, q) {}
    SettlesFrom(m, n);
    hide Settles;
    SettlesKeepsMatchOk(m, n);
  }

  // ---------------------------------------------------------------- events that draw a tid or move a request

  lemma NextTidWraps(drawn: int, tid: int)
    requires drawn >= 0 && tid == drawn % TIDS
    ensures NextTid(tid) == (drawn + 1) % TIDS
  {
  }

  lemma KeepAliveKeepsMatchOk(m: Machine, s: SessionId)
    requires MatchOk(m) && s in m.x.sessions
    ensures MatchOk(m.(x := AllocateTid(m.x, s)))
  {
    var n := m.(x := AllocateTid(m.x, s));
    MatchOkAt(m, s, 0, 0, 0);
    NextTidWraps(m.x.sessions[s].drawn, m.x.sessions[s].tid);
    forall u ensures TidOk(n, u) { assert TidOk(m, u); }
    forall u, t ensures EntryOk(n, u, t) { assert EntryOk(m, u, t); }
    forall r ensures WriteOk(n, r) { assert WriteOk(m, r); }
    forall r, q ensures Distinct(n, r, q) { assert Distinct(m, r, q); }
    forall r ensures EntryIsLatest(n, r) { assert EntryIsLatest(m, r); }
    forall r ensures TaskOk(n, r) { assert TaskOk(m, r); }
    forall r, q ensures Newest(n, r, q) { assert Newest(m, r, q); }
  }

  lemma SendKeepsMatchOk(m: Machine, r: RequestId, pn: Text, s: SessionId)
    requires MatchOk(m) && LockFree(m, s)
    requires r in m.tasks && m.tasks[r] == Resolved(pn, s) && s in m.x.sessions
    ensures MatchOk(OnSend(m, r, pn, s))
  {
    var n := OnSend(m, r, pn, s);
    MatchOkAt(m, s, 0, r, r);
    NextTidWraps(m.x.sessions[s].drawn, m.x.sessions[s].tid);
    forall u ensures TidOk(n, u) { assert TidOk(m, u); }
    forall u, t ensures EntryOk(n, u, t) { assert EntryOk(m, u, t); }
    forall q ensures WriteOk(n, q) { assert WriteOk(m, q); }
    forall p, q ensures Distinct(n, p, q) { assert Distinct(m, p, q) && WriteOk(m, p) && WriteOk(m, q); }
    forall q ensures EntryIsLatest(n, q) {
      assert EntryIsLatest(m, q) && WriteOk(m, q);
      if q in m.writes {
        assert EntryOk(m, m.writes[q].s, m.writes[q].index % TIDS);
      }
    }
    forall q ensures TaskOk(n, q) { SendKeepsTask(m, r, pn, s, q); }
    forall p, q ensures Newest(n, p, q) { assert Newest(m, p, q) && TaskOk(m, p) && WriteOk(m, q); }
  }

  lemma SendKeepsTask(m: Machine, r: RequestId, pn: Text, s: SessionId, q: RequestId)
    requires MatchOk(m) && LockFree(m, s)
    requires r in m.tasks && m.tasks[r] == Resolved(pn, s) && s in m.x.sessions
    ensures TaskOk(OnSend(m, r, pn, s), q)
  {
    MatchOkAt(m, s, 0, q, r);
    MatchOkAt(m, s, 0, r, r);
    NextTidWraps(m.x.sessions[s].drawn, m.x.sessions[s].tid);
    if q != r && q in m.tasks && m.tasks[q].InFlight? {
      assert m.tasks[q].s != s;
    }
    hide MatchOk;
  }

  lemma SeekKeepsMatchOk(m: Machine, r: RequestId, pn: Text, again: bool)
    requires MatchOk(m) && IndexOk(m.x)
    requires r !in m.tasks || m.tasks[r].Waiting?
    ensures MatchOk(OnSeek(m, r, pn, again))
  {
    var n := OnSeek(m, r, pn, again);
    MatchOkAt(m, 0, 0, r, r);
    assert r !in m.writes;
    if n.tasks[r].Resolved? {
      IndexOkAt(m.x, n.tasks[r].s, pn);
    }
    hide IndexOk, Resolve;
    forall u ensures TidOk(n, u) { assert TidOk(m, u); }
    forall u, t ensures EntryOk(n, u, t) { assert EntryOk(m, u, t); }
    forall q ensures WriteOk(n, q) { assert WriteOk(m, q); }
    forall p, q ensures Distinct(n, p, q) { assert Distinct(m, p, q); }
    forall q ensures EntryIsLatest(n, q) { assert EntryIsLatest(m, q); }
    forall q ensures TaskOk(n, q) { assert TaskOk(m, q); }
    forall p, q ensures Newest(n, p, q) { assert Newest(m, p, q); }
  }

  lemma WithdrawKeepsMatchOk(m: Machine, e: Event)
    requires MatchOk(m) && Enabled(m, e) && (e.Timeout? || e.WriteFails? || e.Cancel?)
    ensures MatchOk(Next(m, e))
  {
    hide MatchOk, Settles, LockFree;
    EntryIsOwn(m, e.r);
    WithdrawSettles(m, Next(m, e), e.r);
    SettlesKeepsMatchOk(m, Next(m, e));
  }

  lemma ConfigureKeepsMatchOk(m: Machine, pn: Text, enabled: bool)
    requires MatchOk(m)
    ensures MatchOk(m.(x := m.x.(records := SetEnabled(m.x.records, pn, enabled))))
  {
    hide MatchOk, SetEnabled;
    QuietKeepsMatchOk(m, m.x.(records := SetEnabled(m.x.records, pn, enabled)));
  }

  lemma NextKeepsMatchOk(m: Machine, e: Event)
    requires IndexOk(m.x) && MatchOk(m) && Enabled(m, e)
    ensures MatchOk(Next(m, e))
  {
    hide IndexOk, MatchOk, Settles, Heartbeat, Finish, Forwarded, AllocateTid, OnSend, OnSeek;
    match e
    case Connect(s, peer) => QuietKeepsMatchOk(m, Accept(m.x, s, peer));
    case HeartbeatFrame(s, pn) => HeartbeatKeepsMatchOk(m, s, pn);
    case ReplyFrame(s, tid, payload) =>
      ForwardedSettles(m, s, tid, payload);
      IndexStepKeepsMatchOk(m, Forwarded(m.x, s, tid, payload));
    case LoopEnds(s) => QuietKeepsMatchOk(m, StopReading(m.x, s));
    case Teardown(s) => FinishKeepsMatchOk(m, s);
    case KeepAlive(s) => KeepAliveKeepsMatchOk(m, s);
    case Request(r, pn) => SeekKeepsMatchOk(m, r, pn, false);
    case Wake(r) => SeekKeepsMatchOk(m, r, m.tasks[r].pn, true);
    case GiveUp(r) => EndKeepsMatchOk(m, r);
    case Send(r) => SendKeepsMatchOk(m, r, m.tasks[r].pn, m.tasks[r].s);
    case Resume(r) => EndKeepsMatchOk(m, r);
    case Timeout(r) => WithdrawKeepsMatchOk(m, e);
    case WriteFails(r) => WithdrawKeepsMatchOk(m, e);
    case Cancel(r) => WithdrawKeepsMatchOk(m, e);
    case Configure(pn, enabled) => ConfigureKeepsMatchOk(m, pn, enabled);
    case Elapse(now) => QuietKeepsMatchOk(m, m.x.(clock := now));
  }

  lemma {:induction false} MatchAlwaysOk(records: map<Text, Record>, es: seq<Event>, m: Machine)
    requires Reaches(records, es, m)
    ensures MatchOk(m)
    decreases |es|
  {
    if es != [] {
      hide Enabled, Next, IndexOk, MatchOk;
      var last := es[|es| - 1];
      var prior: Machine :| Reaches(records, es[..|es| - 1], prior) && Enabled(prior, last) && m == Next(prior, last);
      MatchAlwaysOk(records, es[..|es| - 1], prior);
      IndexAlwaysOk(records, es[..|es| - 1], prior);
      NextKeepsMatchOk(prior, last);
    }
  }

  // ---------------------------------------------------------------- main results

  lemma SameResidue(j: int, k: int, n: int)
    requires k <= j <= n < k + TIDS && j % TIDS == k % TIDS
    ensures j == k
  {
  }

  /** A reply that echoes the tid of request `r` and arrives before 65536 further tids
      were drawn on the session resolves the future of `r` or none, whatever entries
      timed-out or cancelled requests have left behind. */
  lemma ReplyIsNotMisdelivered(
      records: map<Text, Record>, es: seq<Event>, m: Machine, r: RequestId, payload: Payload, f: RequestId)
    requires Reaches(records, es, m) && r in m.writes && f in m.x.futures
    requires
      var w := m.writes[r];
      w.s in m.x.sessions && m.x.sessions[w.s].drawn < w.index + TIDS
    ensures
      var w := m.writes[r];
      var y := Forwarded(m.x, w.s, w.index % TIDS, payload);
      && f in y.futures
      && (y.futures[f] != m.x.futures[f] ==> f == r && m.x.futures[r] == Pending && y.futures[r] == Reply(payload))
  {
    MatchAlwaysOk(records, es, m);
    hide Reaches;
    var w := m.writes[r];
    var t := w.index % TIDS;
    if t in m.x.sessions[w.s].pending {
      var g := m.x.sessions[w.s].pending[t];
      MatchOkAt(m, w.s, t, r, g);
      MatchOkAt(m, w.s, t, g, r);
      SameResidue(m.writes[g].index, w.index, m.x.sessions[w.s].drawn);
    }
  }

  /** And while `r` is in flight and unanswered, the reply does resolve it, however
      many tids were drawn meanwhile. */
  lemma ReplyReachesItsRequest(
      records: map<Text, Record>, es: seq<Event>, m: Machine, r: RequestId, payload: Payload)
    requires Reaches(records, es, m) && r in m.tasks && m.tasks[r].InFlight?
    requires r in m.x.futures && m.x.futures[r] == Pending
    ensures r in m.writes && m.tasks[r].s in m.x.sessions
    ensures Forwarded(m.x, m.tasks[r].s, m.writes[r].index % TIDS, payload).futures == m.x.futures[r := Reply(payload)]
  {
    MatchAlwaysOk(records, es, m);
    hide Reaches;
    var s := m.tasks[r].s;
    MatchOkAt(m, s, 0, r, r);
    hide MatchOk, EntryOk, WriteOk, EntryIsLatest;
    assert m.writes[r].index % TIDS in m.x.sessions[s].pending;
  }

  /** A request for a PN is only ever written to a session with that PN, even if the
      session was evicted between lookup and lock. */
  lemma WrittenToItsDongle(records: map<Text, Record>, es: seq<Event>, m: Machine, r: RequestId)
    requires Reaches(records, es, m) && r in m.writes && m.writes[r].pn != EMPTY
    ensures m.writes[r].s in m.x.sessions && m.x.sessions[m.writes[r].s].pn == m.writes[r].pn
  {
    MatchAlwaysOk(records, es, m);
    MatchOkAt(m, 0, 0, r, r);
  }

  /** Taking back an entry after a timeout or a failed write never removes the entry of
      another request. */
  lemma WithdrawsOnlyItsOwn(
      records: map<Text, Record>, es: seq<Event>, m: Machine, e: Event, s: SessionId, t: int)
    requires Reaches(records, es, m) && Enabled(m, e) && (e.Timeout? || e.WriteFails?)
    requires s in m.x.sessions && t in m.x.sessions[s].pending && m.x.sessions[s].pending[t] != e.r
    ensures s in Next(m, e).x.sessions && t in Next(m, e).x.sessions[s].pending
    ensures Next(m, e).x.sessions[s].pending[t] == m.x.sessions[s].pending[t]
  {
    MatchAlwaysOk(records, es, m);
    EntryIsOwn(m, e.r);
  }

  /** At most one request at a time is in flight on a session. */
  lemma OneInFlight(records: map<Text, Record>, es: seq<Event>, m: Machine, r: RequestId, q: RequestId)
    requires Reaches(records, es, m) && r in m.tasks && q in m.tasks
    requires m.tasks[r].InFlight? && m.tasks[q].InFlight? && m.tasks[r].s == m.tasks[q].s
    ensures r == q
  {
    MatchAlwaysOk(records, es, m);
    MatchOkAt(m, 0, 0, r, q);
    MatchOkAt(m, 0, 0, q, r);
  }

  // ---------------------------------------------------------------- the window is exact

  lemma ReachesNext(records: map<Text, Record>, es: seq<Event>, m: Machine, e: Event)
    requires Reaches(records, es, m) && Enabled(m, e)
    ensures Reaches(records, es + [e], Next(m, e))
  {
    hide Enabled, Next;
    var all := es + [e];
    assert all[..|all| - 1] == es && all[|all| - 1] == e;
  }

  /** The machine after `n` keepalives on `s`: only the tid counter moves. */
  function Ticked(m: Machine, s: SessionId, n: nat): Machine
    requires s in m.x.sessions
  {
    var sess := m.x.sessions[s];
    m.(x := m.x.(sessions := m.x.sessions[s :=
      sess.(tid := if n == 0 then sess.tid else (sess.drawn + n) % TIDS, drawn := sess.drawn + n)]))
  }

  lemma TwiceIsLast<V>(m: map<int, V>, k: int, v: V, w: V)
    ensures m[k := v][k := w] == m[k := w]
    ensures k in m && m[k] == v ==> m[k := v] == m
  {
  }

  lemma TickOnce(m: Machine, s: SessionId, n: nat)
    requires Handling(m.x, s, Reading) && TidOk(m, s)
    ensures Enabled(Ticked(m, s, n), KeepAlive(s))
    ensures Next(Ticked(m, s, n), KeepAlive(s)) == Ticked(m, s, n + 1)
  {
    hide LockFree;
    var sess := m.x.sessions[s];
    var k := Ticked(m, s, n).x.sessions[s];
    NextTidWraps(sess.drawn + n, k.tid);
    TwiceIsLast(m.x.sessions, s, k, k.(tid := NextTid(k.tid), drawn := k.drawn + 1));
  }

  lemma {:induction false} KeepAlives(records: map<Text, Record>, es: seq<Event>, m: Machine, s: SessionId, n: nat)
    returns (fs: seq<Event>)
    requires Reaches(records, es, m) && Handling(m.x, s, Reading) && TidOk(m, s)
    ensures Reaches(records, fs, Ticked(m, s, n))
  {
    hide Reaches, Enabled, Next;
    if n == 0 {
      fs := es;
      TwiceIsLast(m.x.sessions, s, m.x.sessions[s], m.x.sessions[s]);
    } else {
      var gs := KeepAlives(records, es, m, s, n - 1);
      TickOnce(m, s, n - 1);
      hide Ticked;
      ReachesNext(records, gs, Ticked(m, s, n - 1), KeepAlive(s));
      fs := gs + [KeepAlive(s)];
    }
  }

  /** One dongle is connected and a first request was cancelled in flight. */
  function Abandoned(records: map<Text, Record>): Machine
  {
    Machine(
      Index(map[0 := Session(1, EMPTY, 1, map[1 := 1], 1, Reading)], {0}, map[], map[], true,
            ResetConnectionState(records), NEVER, map[1 := Cancelled]),
      map[1 := Ended], map[1 := Write(0, EMPTY, 1)])
  }

  lemma SoleSession(x: Index, s: SessionId)
    requires x.connected == {s}
    ensures Resolve(x, EMPTY) == Found(s)
  {
    assert s in x.connected;
    var t := PnlessTarget(x);
    assert t == Some(s) by {
      if t.Some? {
        assert s in {t.value};
      }
    }
  }

  lemma FirstConnect(records: map<Text, Record>)
    ensures Reaches(records, [Connect(0, 1)], Next(Start(records), Connect(0, 1)))
  {
    assert Enabled(Start(records), Connect(0, 1));
    hide Enabled, Next;
    ReachesNext(records, [], Start(records), Connect(0, 1));
    assert [] + [Connect(0, 1)] == [Connect(0, 1)];
  }

  lemma PnlessRequest(m: Machine, r: RequestId, s: SessionId)
    requires m.x.connected == {s} && r !in m.tasks
    ensures Enabled(m, Request(r, EMPTY))
    ensures Next(m, Request(r, EMPTY)) == m.(tasks := m.tasks[r := Resolved(EMPTY, s)])
  {
    SoleSession(m.x, s);
    hide LockFree, Resolve;
  }

  lemma PnlessSend(records: map<Text, Record>, es: seq<Event>, m: Machine, r: RequestId, s: SessionId)
    returns (fs: seq<Event>)
    requires Reaches(records, es, m) && m.x.connected == {s} && s in m.x.sessions && r !in m.tasks
    requires LockFree(m, s)
    ensures Reaches(records, fs, OnSend(m.(tasks := m.tasks[r := Resolved(EMPTY, s)]), r, EMPTY, s))
  {
    PnlessRequest(m, r, s);
    var n := m.(tasks := m.tasks[r := Resolved(EMPTY, s)]);
    assert LockFree(n, s) by {
      assert forall q :: q in n.tasks && n.tasks[q].InFlight? ==> q in m.tasks && n.tasks[q] == m.tasks[q];
    }
    hide LockFree, OnSend, Reaches;
    assert Enabled(n, Send(r)) && Next(n, Send(r)) == OnSend(n, r, EMPTY, s);
    hide Enabled, Next;
    ReachesNext(records, es, m, Request(r, EMPTY));
    ReachesNext(records, es + [Request(r, EMPTY)], n, Send(r));
    fs := es + [Request(r, EMPTY)] + [Send(r)];
  }

  lemma CancelNext(m: Machine, r: RequestId)
    requires r in m.tasks && m.tasks[r].InFlight?
    ensures Enabled(m, Cancel(r)) && Next(m, Cancel(r)) == OnCancel(m, r)
  {
  }

  lemma AbandonedIsReached(records: map<Text, Record>) returns (es: seq<Event>)
    ensures Reaches(records, es, Abandoned(records))
  {
    hide Reaches;
    FirstConnect(records);
    var m1 := Start(records).(x := Accept(Start(records).x, 0, 1));
    var m2 := m1.(tasks := m1.tasks[1 := Resolved(EMPTY, 0)]);
    var m3 := OnSend(m2, 1, EMPTY, 0);
    assert OnCancel(m3, 1) == Abandoned(records);
    assert m1.x.connected == {0};
    hide Accept, Abandoned, OnCancel;
    es := PnlessSend(records, [Connect(0, 1)], m1, 1, 0);
    CancelNext(m3, 1);
    hide Enabled, Next;
    ReachesNext(records, es, m3, Cancel(1));
    es := es + [Cancel(1)];
  }

  /** After 65536 further tids the guarantee ends: the late reply to an abandoned
      request resolves another one. */
  lemma WindowIsExact(records: map<Text, Record>, payload: Payload) returns (es: seq<Event>, m: Machine)
    ensures Reaches(records, es, m) && 1 in m.writes && 2 in m.writes && m.writes[1].s == m.writes[2].s == 0
    ensures 0 in m.x.sessions && m.x.sessions[0].drawn == m.writes[1].index + TIDS
    ensures 2 in m.x.futures && m.x.futures[2] == Pending
    ensures
      var y := Forwarded(m.x, 0, m.writes[1].index % TIDS, payload);
      2 in y.futures && y.futures[2] == Reply(payload)
  {
    hide Reaches;
    var fs := AbandonedIsReached(records);
    var a := Abandoned(records);
    fs := KeepAlives(records, fs, a, 0, TIDS - 1);
    var k := Ticked(a, 0, TIDS - 1);
    es := PnlessSend(records, fs, k, 2, 0);
    m := OnSend(k.(tasks := k.tasks[2 := Resolved(EMPTY, 0)]), 2, EMPTY, 0);
  }
}

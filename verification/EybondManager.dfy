/** The manager and its registry as objects.  Each method is one atomic section of a
    session handler or of a request, and is proved against the function of
    EybondIndex that the properties of whole runs are about.
 */
module EybondManager {
  import opened Wrappers
  import Index = EybondIndex

  type Text = Index.Text

  /** Dongles ever discovered, by PN. */
  class Registry {
    var records: map<Text, Index.Record>
    var clock: Index.Stamp   // what asking for the time gives

    constructor (clock: Index.Stamp)
      ensures records == map[] && this.clock == clock
    {
      records, this.clock := map[], clock;
    }

    method RecordSeen(pn: Text, peer: Text)
      modifies this`records
      ensures records == Index.RecordSeen(old(records), pn, peer, clock)
    {
      if pn !in records {
        records := records[pn := Index.Record(false, Index.Connected, peer, clock, clock)];
        return;
      }
      var rec := records[pn];
      rec := rec.(lastSeen := clock);
      rec := rec.(status := Index.Connected);
      if peer != Index.EMPTY {
        rec := rec.(peer := peer);
      }
      records := records[pn := rec];
    }

    method MarkDisconnected(pn: Text)
      modifies this`records
      ensures records == Index.MarkDisconnected(old(records), pn, clock)
    {
      if pn in records {
        records := records[pn := records[pn].(status := Index.Disconnected, lastSeen := clock)];
      }
    }

    method ResetConnectionState()
      modifies this`records
      ensures records == Index.ResetConnectionState(old(records))
    {
      records := map pn | pn in records :: records[pn].(status := Index.Disconnected, peer := Index.EMPTY);
    }

    method SetEnabled(pn: Text, enabled: bool)
      modifies this`records
      ensures records == Index.SetEnabled(old(records), pn, enabled)
    {
      if pn !in records {
        records := records[pn := Index.Record(false, Index.Disconnected, Index.EMPTY, Index.NEVER, Index.NEVER)];
      }
      records := records[pn := records[pn].(enabled := enabled)];
    }
  }

  class Manager {
    const registry: Registry
    var store: map<Index.SessionId, Index.Session>    // the session objects, by number
    var sessions: set<Index.SessionId>
    var sessionsByPn: map<Text, Index.SessionId>
    var readyByPn: map<Text, bool>
    var anyReady: bool
    var futures: map<Index.RequestId, Index.Future>

    constructor (registry: Registry)
      ensures this.registry == registry
      ensures State() == Index.Index(map[], {}, map[], map[], false, registry.records, registry.clock, map[])
    {
      this.registry := registry;
      store, sessions, sessionsByPn, readyByPn, anyReady, futures := map[], {}, map[], map[], false, map[];
    }

    function State(): Index.Index
      reads this, registry
    {
      Index.Index(store, sessions, sessionsByPn, readyByPn, anyReady, registry.records, registry.clock, futures)
    }

    /** A connection is accepted. */
    method HandleConnect(s: Index.SessionId, peer: Text)
      requires s !in store
      modifies this
      ensures State() == Index.Accept(old(State()), s, peer)
    {
      store := store[s := Index.Session(peer, Index.EMPTY, 0, map[], 0, Index.Reading)];
      sessions := sessions + {s};
      anyReady := true;
    }

    method FailWaiters(waiters: set<Index.RequestId>)
      modifies this`futures
      ensures futures == Index.FailAll(old(futures), waiters)
    {
      var left := waiters;
      while left != {}
        invariant left <= waiters
        invariant futures == Index.FailAll(old(futures), waiters - left)
        decreases |left|
      {
        EmptyIfNoMember(left);
        var f :| f in left;
        if f in futures && futures[f] == Index.Pending {
          futures := futures[f := Index.Lost];
        }
        left := left - {f};
      }
      assert waiters - left == waiters;
    }

    method DropSession(s: Index.SessionId)
      requires s in store
      modifies this
      ensures State() == Index.DropSession(old(State()), s)
    {
      hide Index.FailAll;
      sessions := sessions - {s};
      var pn := store[s].pn;
      if pn != Index.EMPTY && pn in sessionsByPn && sessionsByPn[pn] == s {
        sessionsByPn := sessionsByPn - {pn};
        if pn in readyByPn {
          readyByPn := readyByPn[pn := false];
        }
      }
      FailWaiters(Index.Waiters(store[s].pending));
      store := store[s := store[s].(pending := map[])];
      if sessions == {} {
        anyReady := false;
      }
    }

    /** A heartbeat frame whose payload spells `pn`. */
    method HandleHeartbeat(s: Index.SessionId, pn: Text)
      requires s in store
      requires forall p :: p in sessionsByPn ==> sessionsByPn[p] in store
      modifies this, registry
      ensures State() == Index.Heartbeat(old(State()), s, pn)
    {
      hide Index.DropSession, Index.RecordSeen;
      var peer := store[s].peer;
      if pn != Index.EMPTY && store[s].pn == Index.EMPTY {
        store := store[s := store[s].(pn := pn)];
        assert State() == Index.Identify(old(State()), s, pn);
        if pn in sessionsByPn && sessionsByPn[pn] != s {
          DropSession(sessionsByPn[pn]);
        }
        assert State() == Index.Evict(Index.Identify(old(State()), s, pn), s, pn);
        EvictKeepsPeer(Index.Identify(old(State()), s, pn), s, pn);
        sessionsByPn := sessionsByPn[pn := s];
        readyByPn := readyByPn[pn := true];
        registry.RecordSeen(pn, peer);
      } else if store[s].pn != Index.EMPTY {
        registry.RecordSeen(store[s].pn, peer);
      }
    }

    static lemma EvictKeepsPeer(x: Index.Index, s: Index.SessionId, pn: Text)
      requires s in x.sessions
      ensures s in Index.Evict(x, s, pn).sessions
      ensures Index.Evict(x, s, pn).sessions[s].peer == x.sessions[s].peer
    {
    }

    /** An FC=4 frame. */
    method HandleForward(s: Index.SessionId, tid: int, payload: Index.Payload)
      requires s in store
      modifies this
      ensures State() == Index.Forwarded(old(State()), s, tid, payload)
    {
      var pending := store[s].pending;
      if tid in pending {
        var f := pending[tid];
        store := store[s := store[s].(pending := pending - {tid})];
        if f in futures && futures[f] == Index.Pending {
          futures := futures[f := Index.Reply(payload)];
        }
      }
    }

    /** The end of a session handler. */
    method HandleClose(s: Index.SessionId)
      requires s in store
      modifies this, registry
      ensures State() == Index.Finish(old(State()), s)
    {
      DropSession(s);
      hide Index.FailAll, Index.MarkDisconnected;
      store := store[s := store[s].(phase := Index.Finished)];
      var pn := store[s].pn;
      if pn != Index.EMPTY && pn !in sessionsByPn {
        registry.MarkDisconnected(pn);
      }
    }

    /** The next tid of a session, for a request or a keepalive. */
    method DrawTid(s: Index.SessionId) returns (tid: int)
      requires s in store
      modifies this
      ensures State() == Index.AllocateTid(old(State()), s)
      ensures tid == store[s].tid
    {
      tid := (store[s].tid + 1) % Index.TIDS;
      store := store[s := store[s].(tid := tid, drawn := store[s].drawn + 1)];
    }

    /** The section of a request that holds the session's lock, up to the write. */
    method BeginSend(s: Index.SessionId, r: Index.RequestId) returns (tid: int)
      requires s in store
      modifies this
      ensures State() == Index.Register(old(State()), s, r)
      ensures tid == store[s].tid
    {
      tid := DrawTid(s);
      futures := futures[r := Index.Pending];
      store := store[s := store[s].(pending := store[s].pending[tid := r])];
    }

    /** A request gives up its entry after a failed write. */
    method Withdraw(s: Index.SessionId, tid: int)
      requires s in store
      modifies this
      ensures State() == Index.Unregister(old(State()), s, tid)
    {
      store := store[s := store[s].(pending := store[s].pending - {tid})];
    }

    /** The session for a request that names no dongle. */
    method PnlessTarget() returns (target: Option<Index.SessionId>)
      ensures target == Index.PnlessTarget(State())
      ensures target.Some? <==> |sessions| == 1
      ensures target.Some? ==> target.value in sessions
    {
      if |sessions| == 1 {
        EmptyIfNoMember(sessions);
        var s :| s in sessions;
        return Some(s);
      }
      target := None;
    }

    /** The first half of waiting for a session: found, dropped, or an event to wait for. */
    method FindSession(pn: Text) returns (found: Index.Lookup)
      modifies this
      ensures found == Index.Resolve(old(State()), pn)
      ensures State() == if found.MustWait? then Index.ReadyEvent(old(State()), pn) else old(State())
    {
      if pn != Index.EMPTY {
        if pn in sessionsByPn {
          return Index.Found(sessionsByPn[pn]);
        }
        if pn !in readyByPn {
          readyByPn := readyByPn[pn := false];
        }
        return Index.MustWait;
      }
      if sessions != {} {
        var target := PnlessTarget();
        return if target.Some? then Index.Found(target.value) else Index.Ambiguous;
      }
      found := Index.MustWait;
    }

    /** Whether to broadcast, outside a forced window. */
    method ShouldAnnounce() returns (announce: bool)
      ensures announce == Index.ShouldAnnounce(State())
    {
      var connected := sessionsByPn.Keys;
      var expected := set pn | pn in registry.records && registry.records[pn].enabled;
      if expected != {} {
        return expected - connected != {};
      }
      announce := connected == {};
    }
  }
}

/** One queue per transport, shared by the config entries that use it.

    The registry creates a queue when an entry first needs it and stops it when the last
    owner is unloaded.  The steps between awaits are interleaved with the workers of all
    queues ever created, to show that I/O on one transport never overlaps.
 */
module TransportBus {
  import opened Wrappers

  // ---------------------------------------------------------------- transports

  datatype Scheme =
    | Eybond | EybondPi18 | EybondModbus
    | Tcp | Pi18 | Modbus | Agent
    | Serial | Pi18Serial
    | Unknown(name: int)

  /** Hosts with their ports, and paths: the letters whatever their case, and the case, where
      0 is all lower. */
  datatype Text = Text(letters: int, casing: int)

  const EMPTY := Text(0, 0)

  function Lower(t: Text): Text { Text(t.letters, 0) }

  /** A device URI: none, a bare serial path, or a URL with its parts. */
  datatype Uri = NoUri | Path(path: Text) | Url(scheme: Scheme, netloc: Text, path: Text)

  /** A part of a URI, or the whole of it where that part is empty. */
  datatype Name = Part(text: Text) | Whole(uri: Uri)

  datatype Key =
    | NoKey | SerialKey(name: Name) | EybondKey(name: Name) | NetKey(scheme: Scheme, netloc: Text) | OtherKey(uri: Uri)

  function PartOr(text: Text, uri: Uri): Name { if text != EMPTY then Part(text) else Whole(uri) }

  function TransportKey(uri: Uri): Key
  {
    match uri
    case NoUri => NoKey
    case Path(path) => SerialKey(Part(path))
    case Url(scheme, netloc, path) =>
      if IsEybond(uri) then EybondKey(PartOr(netloc, uri))
      else if IsTcp(uri) then NetKey(scheme, Lower(netloc))
      else if IsSerial(uri) then SerialKey(PartOr(path, uri))
      else OtherKey(uri)
  }

  predicate IsEybond(uri: Uri)
  {
    uri.Url? && (uri.scheme.Eybond? || uri.scheme.EybondPi18? || uri.scheme.EybondModbus?)
  }

  predicate IsTcp(uri: Uri)
  {
    uri.Url? && (uri.scheme.Tcp? || uri.scheme.Pi18? || uri.scheme.Modbus? || uri.scheme.Agent?)
  }

  predicate IsSerial(uri: Uri) { uri.Url? && (uri.scheme.Serial? || uri.scheme.Pi18Serial?) }

  datatype BusMode = Serialized | ConcurrentWrites

  datatype Request = Request(entry: int, uri: Uri, user: bool, mode: BusMode)

  /** A user command that may open a session of its own. */
  predicate Bypasses(r: Request) { r.mode == ConcurrentWrites && r.user && IsTcp(r.uri) }

  predicate Direct(r: Request) { IsEybond(r.uri) || Bypasses(r) }

  // ---------------------------------------------------------------- the registry

  type QueueId = int
  type Entry = int

  datatype Registry = Registry(queues: map<Key, QueueId>, refcount: map<Key, int>, entryKeys: map<Entry, set<Key>>)

  function Owned(g: Registry, e: Entry): set<Key> { if e in g.entryKeys then g.entryKeys[e] else {} }

  /** Queue `q` is created if the key has none. */
  function Ensure(g: Registry, e: Entry, k: Key, q: QueueId): Registry
  {
    var queues := if k in g.queues then g.queues else g.queues[k := q];
    var counts := if k in g.queues then g.refcount else g.refcount[k := 0];
    var count := if k in counts then counts[k] else 0;
    var owned := Owned(g, e);
    Registry(queues, if k in owned then counts else counts[k := count + 1], g.entryKeys[e := owned + {k}])
  }

  function Forget(g: Registry, e: Entry): Registry
  {
    g.(entryKeys := g.entryKeys - {e})
  }

  predicate IsLastUse(g: Registry, k: Key) { (if k in g.refcount then g.refcount[k] else 1) - 1 <= 0 }

  function Release(g: Registry, k: Key): Registry
  {
    if IsLastUse(g, k) then g.(refcount := g.refcount - {k}, queues := g.queues - {k})
    else g.(refcount := g.refcount[k := g.refcount[k] - 1])
  }

  /** The registry as an object; the sections between awaits. */
  class QueueRegistry {
    var queues: map<Key, QueueId>
    var refcount: map<Key, int>
    var entryKeys: map<Entry, set<Key>>

    constructor ()
      ensures State() == Registry(map[], map[], map[])
    {
      queues, refcount, entryKeys := map[], map[], map[];
    }

    function State(): Registry
      reads this
    {
      Registry(queues, refcount, entryKeys)
    }

    method EnsureQueue(entry: Entry, key: Key, created: QueueId) returns (queue: QueueId)
      modifies this
      ensures State() == Ensure(old(State()), entry, key, created)
      ensures key in queues && queue == queues[key]
    {
      if key !in queues {
        queues := queues[key := created];
        refcount := refcount[key := 0];
      }
      var owned := if entry in entryKeys then entryKeys[entry] else {};
      if key !in owned {
        refcount := refcount[key := (if key in refcount then refcount[key] else 0) + 1];
      }
      entryKeys := entryKeys[entry := owned + {key}];
      queue := queues[key];
    }

    /** The keys of an entry that is being unloaded. */
    method TakeKeys(entry: Entry) returns (keys: set<Key>)
      modifies this
      ensures keys == Owned(old(State()), entry)
      ensures State() == Forget(old(State()), entry)
    {
      keys := if entry in entryKeys then entryKeys[entry] else {};
      entryKeys := entryKeys - {entry};
    }

    /** One key is given up; its queue is to be stopped if that was the last use. */
    method GiveUp(key: Key) returns (stopping: Option<QueueId>)
      modifies this
      ensures State() == Release(old(State()), key)
      ensures stopping == if IsLastUse(old(State()), key) && key in old(queues) then Some(old(queues)[key]) else None
    {
      var left := (if key in refcount then refcount[key] else 1) - 1;
      stopping := None;
      if left <= 0 {
        refcount := refcount - {key};
        if key in queues {
          stopping := Some(queues[key]);
        }
        queues := queues - {key};
      } else {
        refcount := refcount[key := left];
      }
    }
  }

  // ---------------------------------------------------------------- the bus

  type Job = int

  /** The worker of a queue: the jobs it has left, and the one whose I/O it runs. */
  datatype Worker = Worker(key: Key, alive: bool, jobs: set<Job>, running: Option<Job>)

  /** The registry's lock: held while an entry is released, key by key; a stopped queue
      is awaited before the next key. */
  datatype Lock = Free | Releasing(left: set<Key>, stopping: Option<QueueId>)

  /** `direct` are the jobs that run outside any queue. */
  datatype Bus = Bus(
    reg: Registry, lock: Lock, workers: map<QueueId, Worker>, requests: map<Job, Request>, direct: set<Job>)

  datatype Event =
    | RunDirectly(j: Job, r: Request)
    | DirectEnds(j: Job)
    | Enqueue(j: Job, r: Request, created: QueueId)
    | Begin(q: QueueId, j: Job)
    | End(q: QueueId)
    | BeginRelease(e: Entry)
    | ReleaseKey(k: Key)
    | Die(q: QueueId)
    | Stopped(q: QueueId)
    | EndRelease

  predicate Alive(m: Bus, q: QueueId) { q in m.workers && m.workers[q].alive }

  predicate Stopping(m: Bus, q: QueueId) { m.lock.Releasing? && m.lock.stopping == Some(q) }

  predicate Enabled(m: Bus, e: Event)
  {
    match e
    case RunDirectly(j, r) => j !in m.requests && Direct(r)
    case DirectEnds(j) => j in m.direct
    case Enqueue(j, r, created) => j !in m.requests && !Direct(r) && m.lock.Free? && created !in m.workers
    case Begin(q, j) => Alive(m, q) && m.workers[q].running.None? && j in m.workers[q].jobs
    case End(q) => Alive(m, q)
    case BeginRelease(_) => m.lock.Free?
    case ReleaseKey(k) => m.lock.Releasing? && m.lock.stopping.None? && k in m.lock.left
    case Die(q) => Alive(m, q) && Stopping(m, q)
    case Stopped(q) => Stopping(m, q) && !Alive(m, q)
    case EndRelease => m.lock == Releasing({}, None)
  }

  /** The queue of the key, which is made alive if it is new, takes the job. */
  function OnEnqueue(m: Bus, j: Job, r: Request, created: QueueId): Bus
  {
    var k := TransportKey(r.uri);
    var reg := Ensure(m.reg, r.entry, k, created);
    var q := reg.queues[k];
    var w := if k in m.reg.queues && q in m.workers then m.workers[q] else Worker(k, true, {}, None);
    m.(reg := reg, requests := m.requests[j := r], workers := m.workers[q := w.(jobs := w.jobs + {j})])
  }

  function OnReleaseKey(m: Bus, k: Key): Bus
    requires m.lock.Releasing?
  {
    var stopping := if IsLastUse(m.reg, k) && k in m.reg.queues then Some(m.reg.queues[k]) else None;
    m.(reg := Release(m.reg, k), lock := Releasing(m.lock.left - {k}, stopping))
  }

  function Next(m: Bus, e: Event): Bus
    requires Enabled(m, e)
  {
    match e
    case RunDirectly(j, r) => m.(requests := m.requests[j := r], direct := m.direct + {j})
    case DirectEnds(j) => m.(direct := m.direct - {j})
    case Enqueue(j, r, created) => OnEnqueue(m, j, r, created)
    case Begin(q, j) =>
      var w := m.workers[q];
      m.(workers := m.workers[q := w.(jobs := w.jobs - {j}, running := Some(j))])
    case End(q) => m.(workers := m.workers[q := m.workers[q].(running := None)])
    case BeginRelease(e) => m.(reg := Forget(m.reg, e), lock := Releasing(Owned(m.reg, e), None))
    case ReleaseKey(k) => OnReleaseKey(m, k)
    case Die(q) => m.(workers := m.workers[q := m.workers[q].(alive := false, running := None)])
    case Stopped(q) => m.(lock := m.lock.(stopping := None))
    case EndRelease => m.(lock := Free)
  }

  predicate Runs(m: Bus, es: seq<Event>, n: Bus)
    decreases |es|
  {
    if es == [] then m == n else Enabled(m, es[0]) && Runs(Next(m, es[0]), es[1..], n)
  }

  const IDLE := Bus(Registry(map[], map[], map[]), Free, map[], map[], {})

  // ---------------------------------------------------------------- the registry counts its owners

  ghost function Holders(g: Registry, k: Key): set<Entry> { set e | e in g.entryKeys && k in g.entryKeys[e] }

  predicate Leaving(lock: Lock, k: Key) { lock.Releasing? && k in lock.left }

  /** A key has a queue exactly while it is counted, and its count is the number of entries
      that own it, with the one being released. */
  ghost predicate CountOk(g: Registry, lock: Lock, k: Key)
  {
    var uses := |Holders(g, k)| + if Leaving(lock, k) then 1 else 0;
    && (k in g.queues <==> k in g.refcount)
    && (if k in g.refcount then g.refcount[k] == uses > 0 else uses == 0)
  }

  lemma EnsureAddsHolder(g: Registry, e: Entry, k: Key, q: QueueId, p: Key)
    ensures Holders(Ensure(g, e, k, q), p) == if p == k then Holders(g, p) + {e} else Holders(g, p)
    ensures e in Holders(g, p) <==> p in Owned(g, e)
  {
    var h := Ensure(g, e, k, q).entryKeys;
    assert e in h && h[e] == Owned(g, e) + {k};
    assert forall d :: d != e ==> (d in h <==> d in g.entryKeys);
    assert forall d :: d != e && d in h ==> h[d] == g.entryKeys[d];
    hide Ensure;
    var after, before := Holders(Ensure(g, e, k, q), p), Holders(g, p);
    forall d ensures d in after <==> d in before || (d == e && p == k) {}
  }

  lemma EnsureKeepsCount(g: Registry, e: Entry, k: Key, q: QueueId, p: Key)
    requires CountOk(g, Free, p)
    ensures CountOk(Ensure(g, e, k, q), Free, p)
  {
    EnsureAddsHolder(g, e, k, q, p);
    AddOne(Holders(g, p), e);
    hide Holders, Owned;
  }

  lemma AddOne(s: set<int>, e: int)
    ensures |s + {e}| == |s| + if e in s then 0 else 1
    ensures e in s ==> |s| > 0
  {
    if e in s {
      assert s + {e} == s;
      assert |{e}| <= |s| by { assert s == (s - {e}) + {e}; }
    }
  }

  lemma ForgetKeepsCount(g: Registry, e: Entry, p: Key)
    requires CountOk(g, Free, p)
    ensures CountOk(Forget(g, e), Releasing(Owned(g, e), None), p)
  {
    assert Holders(Forget(g, e), p) == Holders(g, p) - {e};
  }

  lemma ReleaseKeepsCount(g: Registry, lock: Lock, k: Key, stopping: Option<QueueId>, p: Key)
    requires CountOk(g, lock, p) && CountOk(g, lock, k) && Leaving(lock, k)
    ensures CountOk(Release(g, k), Releasing(lock.left - {k}, stopping), p)
  {
    assert Holders(Release(g, k), p) == Holders(g, p);
  }

  // ---------------------------------------------------------------- one live worker per key

  /** A live worker is the registered one of its key or is being stopped, and it has only
      jobs of its key that may not run on their own. */
  predicate WorkerOk(m: Bus, q: QueueId)
  {
    q in m.workers ==>
      var w := m.workers[q];
      && (w.alive ==> (w.key in m.reg.queues && m.reg.queues[w.key] == q) || Stopping(m, q))
      && (w.running.Some? ==> w.alive)
  }

  predicate JobOk(m: Bus, q: QueueId, j: Job)
  {
    q in m.workers && (j in m.workers[q].jobs || m.workers[q].running == Some(j)) ==>
      j in m.requests && !Direct(m.requests[j]) && TransportKey(m.requests[j].uri) == m.workers[q].key
  }

  predicate DirectOk(m: Bus, j: Job) { j in m.direct ==> j in m.requests && Direct(m.requests[j]) }

  /** A registered queue is alive, and a queue being stopped is not registered any more. */
  predicate QueueOk(m: Bus, k: Key)
  {
    k in m.reg.queues ==> Alive(m, m.reg.queues[k]) && m.workers[m.reg.queues[k]].key == k
  }

  predicate StoppingOk(m: Bus, q: QueueId)
  {
    Stopping(m, q) ==> q in m.workers && m.workers[q].key !in m.reg.queues
  }

  ghost predicate BusOk(m: Bus)
  {
    && (forall k :: CountOk(m.reg, m.lock, k) && QueueOk(m, k))
    && (forall q :: WorkerOk(m, q) && StoppingOk(m, q))
    && (forall q, j :: JobOk(m, q, j))
    && (forall j :: DirectOk(m, j))
  }

  lemma BusOkAt(m: Bus, k: Key, q: QueueId, j: Job)
    requires BusOk(m)
    ensures CountOk(m.reg, m.lock, k) && QueueOk(m, k)
    ensures WorkerOk(m, q) && StoppingOk(m, q) && JobOk(m, q, j) && DirectOk(m, j)
  {
  }

  lemma BusOkFrom(m: Bus)
    requires forall k :: CountOk(m.reg, m.lock, k)
    requires forall k :: QueueOk(m, k)
    requires forall q :: WorkerOk(m, q)
    requires forall q :: StoppingOk(m, q)
    requires forall q, j :: JobOk(m, q, j)
    requires forall j :: DirectOk(m, j)
    ensures BusOk(m)
  {
  }

  lemma NextKeepsCount(m: Bus, e: Event, k: Key)
    requires BusOk(m) && Enabled(m, e)
    ensures CountOk(Next(m, e).reg, Next(m, e).lock, k)
  {
    BusOkAt(m, k, 0, 0);
    match e
    case Enqueue(j, r, created) =>
      hide CountOk, Ensure, Direct;
      EnsureKeepsCount(m.reg, r.entry, TransportKey(r.uri), created, k);
    case BeginRelease(e) =>
      hide CountOk;
      ForgetKeepsCount(m.reg, e, k);
    case ReleaseKey(p) =>
      BusOkAt(m, p, 0, 0);
      hide CountOk, Release, IsLastUse;
      ReleaseKeepsCount(m.reg, m.lock, p, Next(m, e).lock.stopping, k);
    case _ =>
      hide Holders, BusOk, Direct;
  }

  /** What an enqueued job changes. */
  ghost predicate Enqueued(m: Bus, n: Bus, j: Job, r: Request, created: QueueId)
  {
    var k := TransportKey(r.uri);
    && n.lock == m.lock && n.direct == m.direct && n.requests == m.requests[j := r]
    && k in n.reg.queues && n.reg.queues[k] == (if k in m.reg.queues then m.reg.queues[k] else created)
    && (forall p :: p != k ==> (p in n.reg.queues <==> p in m.reg.queues))
    && (forall p :: p != k && p in m.reg.queues ==> n.reg.queues[p] == m.reg.queues[p])
    && var q := n.reg.queues[k];
    && q in n.workers
    && n.workers[q].key == k && n.workers[q].alive
    && (q in m.workers ==> n.workers[q] == m.workers[q].(jobs := m.workers[q].jobs + {j}))
    && (q !in m.workers ==> n.workers[q] == Worker(k, true, {j}, None))
    && (forall o :: o != q ==> (o in n.workers <==> o in m.workers))
    && (forall o :: o != q && o in m.workers ==> n.workers[o] == m.workers[o])
  }

  lemma EnqueueEffect(m: Bus, j: Job, r: Request, created: QueueId)
    requires Enabled(m, Enqueue(j, r, created)) && QueueOk(m, TransportKey(r.uri))
    ensures Enqueued(m, OnEnqueue(m, j, r, created), j, r, created)
  {
    hide TransportKey, Direct, Owned;
    var k := TransportKey(r.uri);
    if k in m.reg.queues {
      var q := m.reg.queues[k];
      assert q in m.workers;
    }
  }

  lemma EnqueueKeeps(m: Bus, n: Bus, j: Job, r: Request, created: QueueId, k: Key, q: QueueId, i: Job)
    requires j !in m.requests && !Direct(r) && m.lock.Free? && created !in m.workers
    requires Enqueued(m, n, j, r, created)
    requires QueueOk(m, k) && WorkerOk(m, q) && JobOk(m, q, i) && DirectOk(m, i)
    requires QueueOk(m, TransportKey(r.uri))
    ensures QueueOk(n, k) && WorkerOk(n, q) && StoppingOk(n, q) && JobOk(n, q, i) && DirectOk(n, i)
  {
    hide TransportKey, Direct;
    var t := n.reg.queues[TransportKey(r.uri)];
    assert t in n.workers;
    if k in n.reg.queues {
      var u := n.reg.queues[k];
      assert Alive(n, u) && n.workers[u].key == k;
    }
  }

  lemma ReleaseKeyKeeps(m: Bus, k: Key, p: Key, q: QueueId, i: Job)
    requires Enabled(m, ReleaseKey(k))
    requires QueueOk(m, p) && QueueOk(m, k) && WorkerOk(m, q) && JobOk(m, q, i) && DirectOk(m, i)
    ensures
      var n := OnReleaseKey(m, k);
      QueueOk(n, p) && WorkerOk(n, q) && StoppingOk(n, q) && JobOk(n, q, i) && DirectOk(n, i)
  {
    hide Direct, TransportKey, IsLastUse;
    if k in m.reg.queues {
      assert m.reg.queues[k] in m.workers;
    }
  }

  /** Job `j` is the one that begins, queue `o` the one whose worker dies. */
  lemma OtherStepKeeps(m: Bus, e: Event, p: Key, q: QueueId, i: Job, o: QueueId, j: Job)
    requires Enabled(m, e) && !e.Enqueue? && !e.ReleaseKey?
    requires QueueOk(m, p) && WorkerOk(m, q) && StoppingOk(m, q) && JobOk(m, q, i) && DirectOk(m, i)
    requires JobOk(m, q, j) && StoppingOk(m, o) && (e.Begin? ==> j == e.j) && (e.Die? ==> o == e.q)
    ensures
      var n := Next(m, e);
      QueueOk(n, p) && WorkerOk(n, q) && StoppingOk(n, q) && JobOk(n, q, i) && DirectOk(n, i)
  {
    hide Direct, TransportKey, Owned;
    if p in m.reg.queues {
      assert m.reg.queues[p] in m.workers;
    }
  }

  lemma NextKeepsElements(m: Bus, e: Event, p: Key, q: QueueId, i: Job)
    requires BusOk(m) && Enabled(m, e)
    ensures
      var n := Next(m, e);
      QueueOk(n, p) && WorkerOk(n, q) && StoppingOk(n, q) && JobOk(n, q, i) && DirectOk(n, i)
  {
    BusOkAt(m, p, q, i);
    match e
    case Enqueue(j, r, created) =>
      BusOkAt(m, TransportKey(r.uri), q, i);
      hide BusOk, QueueOk, WorkerOk, StoppingOk, JobOk, DirectOk, CountOk;
      EnqueueEffect(m, j, r, created);
      hide Enqueued;
      EnqueueKeeps(m, OnEnqueue(m, j, r, created), j, r, created, p, q, i);
    case ReleaseKey(k) =>
      BusOkAt(m, k, q, i);
      hide BusOk, QueueOk, WorkerOk, StoppingOk, JobOk, DirectOk, CountOk;
      ReleaseKeyKeeps(m, k, p, q, i);
    case Begin(_, j) =>
      BusOkAt(m, p, q, j);
      hide BusOk, QueueOk, WorkerOk, StoppingOk, JobOk, DirectOk, CountOk;
      OtherStepKeeps(m, e, p, q, i, q, j);
    case Die(o) =>
      BusOkAt(m, p, o, i);
      hide BusOk, QueueOk, WorkerOk, StoppingOk, JobOk, DirectOk, CountOk;
      OtherStepKeeps(m, e, p, q, i, o, i);
    case _ =>
      hide BusOk, QueueOk, WorkerOk, StoppingOk, JobOk, DirectOk, CountOk;
      OtherStepKeeps(m, e, p, q, i, q, i);
  }

  lemma NextKeepsBusOk(m: Bus, e: Event)
    requires BusOk(m) && Enabled(m, e)
    ensures BusOk(Next(m, e))
  {
    var n := Next(m, e);
    hide BusOk, Enabled, Next, QueueOk, WorkerOk, StoppingOk, JobOk, DirectOk, CountOk;
    forall k ensures CountOk(n.reg, n.lock, k) { NextKeepsCount(m, e, k); }
    forall k ensures QueueOk(n, k) { NextKeepsElements(m, e, k, 0, 0); }
    forall q ensures WorkerOk(n, q) { NextKeepsElements(m, e, NoKey, q, 0); }
    forall q ensures StoppingOk(n, q) { NextKeepsElements(m, e, NoKey, q, 0); }
    forall q, j ensures JobOk(n, q, j) { NextKeepsElements(m, e, NoKey, q, j); }
    forall j ensures DirectOk(n, j) { NextKeepsElements(m, e, NoKey, 0, j); }
    BusOkFrom(n);
  }

  lemma {:induction false} RunsKeepBusOk(m: Bus, es: seq<Event>, n: Bus)
    requires BusOk(m) && Runs(m, es, n)
    ensures BusOk(n)
    decreases |es|
  {
    if es != [] {
      hide BusOk, Enabled, Next;
      NextKeepsBusOk(m, es[0]);
      RunsKeepBusOk(Next(m, es[0]), es[1..], n);
    }
  }

  lemma IdleIsOk()
    ensures BusOk(IDLE)
  {
    forall k ensures CountOk(IDLE.reg, IDLE.lock, k) {
      assert Holders(IDLE.reg, k) == {};
    }
    BusOkFrom(IDLE);
  }

  // ---------------------------------------------------------------- main results

  /** While no release is under way, a queue is live exactly for the keys that some entry
      owns, and the count of a key is the number of its owners. */
  lemma QueuesFollowOwners(es: seq<Event>, m: Bus, k: Key)
    requires Runs(IDLE, es, m) && m.lock.Free?
    ensures k in m.reg.queues <==> exists e :: k in Owned(m.reg, e)
    ensures k in m.reg.queues ==> k in m.reg.refcount && m.reg.refcount[k] == |Holders(m.reg, k)|
    ensures k in m.reg.queues ==> Alive(m, m.reg.queues[k]) && m.workers[m.reg.queues[k]].key == k
  {
    IdleIsOk();
    RunsKeepBusOk(IDLE, es, m);
    BusOkAt(m, k, 0, 0);
    hide Runs, BusOk;
    EmptyIfNoMember(Holders(m.reg, k));
    assert forall e :: e in Holders(m.reg, k) <==> k in Owned(m.reg, e);
    hide Holders, Owned;
    assert Holders(m.reg, k) == {} <==> |Holders(m.reg, k)| == 0;
  }

  /** An I/O in progress: of the worker of a queue, or of a caller. */
  datatype Io = ByWorker(q: QueueId) | ByCaller(j: Job)

  /** The I/O is in progress on transport `k`. */
  predicate InProgress(m: Bus, io: Io, k: Key)
  {
    match io
    case ByWorker(q) => Alive(m, q) && m.workers[q].running.Some? && m.workers[q].key == k
    case ByCaller(j) => j in m.direct && j in m.requests && TransportKey(m.requests[j].uri) == k
  }

  /** The schemes of dongles that share a listener, and of those that accept several
      connections. */
  predicate OnDongle(uri: Uri)
  {
    match uri
    case Url(Eybond, _, _) => true
    case Url(EybondPi18, _, _) => true
    case Url(EybondModbus, _, _) => true
    case _ => false
  }

  predicate OnSocket(uri: Uri)
  {
    match uri
    case Url(Tcp, _, _) => true
    case Url(Pi18, _, _) => true
    case Url(Modbus, _, _) => true
    case Url(Agent, _, _) => true
    case _ => false
  }

  /** A user command in concurrent-writes mode, for a socket. */
  predicate Bypassing(m: Bus, io: Io)
  {
    && io.ByCaller? && io.j in m.requests
    && m.requests[io.j].user && m.requests[io.j].mode == ConcurrentWrites && OnSocket(m.requests[io.j].uri)
  }

  /** Across all config entries, and while queues are stopped and created anew, I/O on a
      transport other than EyBond overlaps only with a user command that bypasses its queue. */
  lemma OverlapNeedsBypass(es: seq<Event>, m: Bus, k: Key, a: Io, b: Io)
    requires Runs(IDLE, es, m) && !k.EybondKey?
    requires InProgress(m, a, k) && InProgress(m, b, k) && a != b
    ensures Bypassing(m, a) || Bypassing(m, b)
  {
    IdleIsOk();
    RunsKeepBusOk(IDLE, es, m);
    forall io | InProgress(m, io, k) && io.ByCaller? ensures Bypassing(m, io) {
      BusOkAt(m, k, 0, io.j);
    }
    if a.ByWorker? && b.ByWorker? {
      BusOkAt(m, k, a.q, 0);
      BusOkAt(m, k, b.q, 0);
    }
  }

  /** A request may run beside its queue exactly if it is for an EyBond dongle, or is a user
      command for a socket in concurrent-writes mode; every other request is queued. */
  lemma RunsBesideIff(m: Bus, j: Job, r: Request, created: QueueId)
    requires j !in m.requests && m.lock.Free? && created !in m.workers
    ensures Enabled(m, RunDirectly(j, r)) <==>
      OnDongle(r.uri) || (r.user && r.mode == ConcurrentWrites && OnSocket(r.uri))
    ensures Enabled(m, RunDirectly(j, r)) <==> !Enabled(m, Enqueue(j, r, created))
  {
  }

  /** Every I/O of a caller is one of these. */
  lemma CallersAreUsers(es: seq<Event>, m: Bus, j: Job)
    requires Runs(IDLE, es, m) && j in m.direct
    ensures j in m.requests
    ensures
      var r := m.requests[j];
      OnDongle(r.uri) || (r.user && r.mode == ConcurrentWrites && OnSocket(r.uri))
  {
    IdleIsOk();
    RunsKeepBusOk(IDLE, es, m);
    BusOkAt(m, NoKey, 0, j);
    hide Runs, BusOk;
  }

  /** In every mode, I/O on a serial line, or on anything but an EyBond dongle or a socket, is
      one at a time. */
  lemma SerialIsExclusive(es: seq<Event>, m: Bus, k: Key, a: Io, b: Io)
    requires Runs(IDLE, es, m) && (k.SerialKey? || k.OtherKey? || k.NoKey?)
    requires InProgress(m, a, k) && InProgress(m, b, k)
    ensures a == b
  {
    if a != b {
      OverlapNeedsBypass(es, m, k, a, b);
    }
  }

  /** What has ended is over: a stopped worker never does I/O again. */
  lemma {:induction false} StoppedForGood(m: Bus, es: seq<Event>, n: Bus, q: QueueId, k: Key)
    requires q in m.workers && !m.workers[q].alive && Runs(m, es, n) && BusOk(m)
    ensures !InProgress(n, ByWorker(q), k)
    decreases |es|
  {
    if es != [] {
      NextKeepsBusOk(m, es[0]);
      StaysStopped(m, es[0], q);
      hide Next, BusOk, Enabled;
      StoppedForGood(Next(m, es[0]), es[1..], n, q, k);
    }
  }

  lemma StaysStopped(m: Bus, e: Event, q: QueueId)
    requires q in m.workers && !m.workers[q].alive && BusOk(m) && Enabled(m, e)
    ensures q in Next(m, e).workers && !Next(m, e).workers[q].alive
  {
    if e.Enqueue? {
      var k := TransportKey(e.r.uri);
      BusOkAt(m, k, q, e.j);
      hide BusOk, CountOk;
      EnqueueEffect(m, e.j, e.r, e.created);
      hide OnEnqueue;
    } else {
      hide BusOk;
    }
  }

  lemma IoEnds(m: Bus, e: Event)
    requires Enabled(m, e) && (e.Die? || e.End? || e.DirectEnds?)
    ensures e.Die? ==> e.q in Next(m, e).workers && !Next(m, e).workers[e.q].alive
    ensures var io := if e.DirectEnds? then ByCaller(e.j) else ByWorker(e.q);
      forall k :: !InProgress(Next(m, e), io, k)
  {
  }

  /** In serialized mode at most one I/O at a time is in progress on such a transport. */
  lemma SerializedIsExclusive(es: seq<Event>, m: Bus, k: Key, a: Io, b: Io)
    requires Runs(IDLE, es, m) && !k.EybondKey?
    requires forall j :: j in m.requests ==> m.requests[j].mode == Serialized
    requires InProgress(m, a, k) && InProgress(m, b, k)
    ensures a == b
  {
    if a != b {
      OverlapNeedsBypass(es, m, k, a, b);
    }
  }

  /** Every I/O of a worker is for a job whose transport is the worker's. */
  lemma JobsStayOnTheirTransport(es: seq<Event>, m: Bus, q: QueueId, j: Job)
    requires Runs(IDLE, es, m) && q in m.workers && m.workers[q].running == Some(j)
    ensures j in m.requests && TransportKey(m.requests[j].uri) == m.workers[q].key
  {
    IdleIsOk();
    RunsKeepBusOk(IDLE, es, m);
    BusOkAt(m, NoKey, q, j);
  }

  /** The exception is real: in concurrent-writes mode a user command runs beside a poll of
      the same bridge. */
  lemma BypassOverlaps() returns (es: seq<Event>, m: Bus)
    ensures Runs(IDLE, es, m)
    ensures InProgress(m, ByWorker(0), NetKey(Tcp, Text(7, 0))) && InProgress(m, ByCaller(2), NetKey(Tcp, Text(7, 0)))
  {
    var poll := Request(0, Url(Tcp, Text(7, 0), EMPTY), false, ConcurrentWrites);
    var write := Request(0, Url(Tcp, Text(7, 0), EMPTY), true, ConcurrentWrites);
    var m1 := Next(IDLE, Enqueue(1, poll, 0));
    assert m1.workers[0] == Worker(NetKey(Tcp, Text(7, 0)), true, {1}, None);
    var m2 := Next(m1, Begin(0, 1));
    m := Next(m2, RunDirectly(2, write));
    assert Enabled(m2, RunDirectly(2, write));
    hide Next, Enabled;
    assert Runs(m, [], m);
    es := [RunDirectly(2, write)];
    assert es[1..] == [] && Runs(m2, es, m);
    es := [Begin(0, 1), RunDirectly(2, write)];
    assert es[1..] == [RunDirectly(2, write)] && Runs(m1, es, m);
    es := [Enqueue(1, poll, 0), Begin(0, 1), RunDirectly(2, write)];
    assert es[1..] == [Begin(0, 1), RunDirectly(2, write)];
  }

  // ---------------------------------------------------------------- which URIs share a queue

  /** The URI of the job whose I/O is in progress. */
  function UriOf(m: Bus, io: Io): Uri
  {
    match io
    case ByWorker(q) =>
      if q in m.workers && m.workers[q].running.Some? && m.workers[q].running.value in m.requests
      then m.requests[m.workers[q].running.value].uri else NoUri
    case ByCaller(j) => if j in m.requests then m.requests[j].uri else NoUri
  }

  lemma UriHasKey(es: seq<Event>, m: Bus, io: Io, k: Key)
    requires Runs(IDLE, es, m) && InProgress(m, io, k)
    ensures TransportKey(UriOf(m, io)) == k
  {
    if io.ByWorker? {
      JobsStayOnTheirTransport(es, m, io.q, m.workers[io.q].running.value);
    }
  }

  /** In serialized mode two I/Os overlap on one endpoint only if their protocols differ. */
  lemma BridgeOverlapNeedsTwoProtocols(es: seq<Event>, m: Bus, a: Io, b: Io, k: Key, l: Key)
    requires Runs(IDLE, es, m) && forall j :: j in m.requests ==> m.requests[j].mode == Serialized
    requires InProgress(m, a, k) && InProgress(m, b, l) && a != b
    requires IsTcp(UriOf(m, a)) && IsTcp(UriOf(m, b)) && Lower(UriOf(m, a).netloc) == Lower(UriOf(m, b).netloc)
    ensures UriOf(m, a).scheme != UriOf(m, b).scheme
  {
    UriHasKey(es, m, a, k);
    UriHasKey(es, m, b, l);
    hide Runs;
    if k == l {
      SerializedIsExclusive(es, m, k, a, b);
    }
  }

  lemma QueueForNewKey(m: Bus, j: Job, r: Request, created: QueueId)
    requires Enabled(m, Enqueue(j, r, created)) && TransportKey(r.uri) !in m.reg.queues
    ensures
      var n, k := Next(m, Enqueue(j, r, created)), TransportKey(r.uri);
      && n.lock == m.lock && n.requests == m.requests[j := r] && n.reg.queues == m.reg.queues[k := created]
      && n.workers == m.workers[created := Worker(k, true, {j}, None)]
  {
    hide TransportKey, Direct, Owned;
    var none: set<Job> := {};
    assert none + {j} == {j};
  }

  lemma RunsBefore(m: Bus, e: Event, es: seq<Event>, n: Bus)
    requires Enabled(m, e) && Runs(Next(m, e), es, n)
    ensures Runs(m, [e] + es, n)
  {
    hide Enabled, Next;
    assert ([e] + es)[1..] == es;
  }

  /** Two idle queues can run a job each at once. */
  lemma BothBegin(m: Bus, p: QueueId, q: QueueId, i: Job, j: Job) returns (n: Bus)
    requires p != q && Enabled(m, Begin(p, i)) && Enabled(m, Begin(q, j))
    ensures Runs(m, [Begin(p, i), Begin(q, j)], n) && n.requests == m.requests
    ensures InProgress(n, ByWorker(p), m.workers[p].key) && n.workers[p].running == Some(i)
    ensures InProgress(n, ByWorker(q), m.workers[q].key) && n.workers[q].running == Some(j)
  {
    var k := Next(m, Begin(p, i));
    n := Next(k, Begin(q, j));
    assert Runs(n, [], n);
    var es := [Begin(q, j)];
    assert es[1..] == [] && Runs(k, es, n);
    es := [Begin(p, i), Begin(q, j)];
    assert es[1..] == [Begin(q, j)];
  }

  /** And whenever two URIs have different keys, their I/Os do overlap in some run. */
  lemma DifferentKeysOverlap(u: Uri, v: Uri) returns (es: seq<Event>, m: Bus)
    requires !IsEybond(u) && !IsEybond(v) && TransportKey(u) != TransportKey(v)
    ensures Runs(IDLE, es, m) && forall j :: j in m.requests ==> m.requests[j].mode == Serialized
    ensures InProgress(m, ByWorker(1), TransportKey(u)) && UriOf(m, ByWorker(1)) == u
    ensures InProgress(m, ByWorker(2), TransportKey(v)) && UriOf(m, ByWorker(2)) == v
  {
    var first, second := Request(0, u, false, Serialized), Request(0, v, false, Serialized);
    hide TransportKey, IsEybond;
    QueueForNewKey(IDLE, 1, first, 1);
    var m1 := Next(IDLE, Enqueue(1, first, 1));
    assert m1.lock == Free && 2 !in m1.workers && 2 !in m1.requests;
    QueueForNewKey(m1, 2, second, 2);
    var m2 := Next(m1, Enqueue(2, second, 2));
    assert m2.workers[1] == Worker(TransportKey(u), true, {1}, None);
    assert m2.workers[2] == Worker(TransportKey(v), true, {2}, None);
    assert m2.requests == map[1 := first, 2 := second];
    hide Next, OnEnqueue, Direct, Runs;
    m := BothBegin(m2, 1, 2, 1, 2);
    es := [Enqueue(2, second, 2)] + [Begin(1, 1), Begin(2, 2)];
    RunsBefore(m1, Enqueue(2, second, 2), [Begin(1, 1), Begin(2, 2)], m);
    RunsBefore(IDLE, Enqueue(1, first, 1), es, m);
    es := [Enqueue(1, first, 1)] + es;
  }

  /** TCP URIs share a queue exactly if they name the same protocol and the same endpoint; a
      serial URL shares the queue of a bare path exactly if that is its path part. */
  lemma SharedQueues(u: Uri, v: Uri)
    ensures IsTcp(u) && IsTcp(v) ==>
      (TransportKey(u) == TransportKey(v) <==> u.scheme == v.scheme && Lower(u.netloc) == Lower(v.netloc))
    ensures IsSerial(u) && v.Path? && v.path != EMPTY ==> (TransportKey(u) == TransportKey(v) <==> u.path == v.path)
    ensures IsSerial(u) && IsSerial(v) ==>
      (TransportKey(u) == TransportKey(v) <==> u.path == v.path && (u.path == EMPTY ==> u == v))
    ensures u.Url? && u.scheme.Unknown? ==> (TransportKey(u) == TransportKey(v) <==> u == v)
  {
  }

  /** A Windows port is the network part of its URL, not the path: the bare name and the
      URL have queues of their own, and their I/Os overlap on the port. */
  lemma WindowsPortHasTwoQueues(port: Text) returns (es: seq<Event>, m: Bus)
    requires port != EMPTY
    ensures Runs(IDLE, es, m) && forall j :: j in m.requests ==> m.requests[j].mode == Serialized
    ensures InProgress(m, ByWorker(1), SerialKey(Part(port))) && UriOf(m, ByWorker(1)) == Path(port)
    ensures exists k :: k != SerialKey(Part(port)) && InProgress(m, ByWorker(2), k)
    ensures UriOf(m, ByWorker(2)) == Url(Pi18Serial, port, EMPTY)
  {
    var u, v := Path(port), Url(Pi18Serial, port, EMPTY);
    assert TransportKey(v) == SerialKey(Whole(v));
    es, m := DifferentKeysOverlap(u, v);
    assert InProgress(m, ByWorker(2), TransportKey(v));
    hide Runs, InProgress;
  }

  /** So have two protocols of one bridge. */
  lemma BridgeHasTwoQueues(endpoint: Text) returns (es: seq<Event>, m: Bus)
    ensures Runs(IDLE, es, m) && forall j :: j in m.requests ==> m.requests[j].mode == Serialized
    ensures InProgress(m, ByWorker(1), NetKey(Tcp, Lower(endpoint)))
    ensures InProgress(m, ByWorker(2), NetKey(Pi18, Lower(endpoint)))
  {
    var u, v := Url(Tcp, endpoint, EMPTY), Url(Pi18, endpoint, EMPTY);
    assert TransportKey(u) == NetKey(Tcp, Lower(endpoint)) && TransportKey(v) == NetKey(Pi18, Lower(endpoint));
    es, m := DifferentKeysOverlap(u, v);
  }

  // ---------------------------------------------------------------- every job once

  predicate Queued(m: Bus, q: QueueId, j: Job) { q in m.workers && j in m.workers[q].jobs }

  ghost predicate QueuedSomewhere(m: Bus, j: Job) { exists q :: Queued(m, q, j) }

  predicate OneQueue(m: Bus, p: QueueId, q: QueueId, j: Job)
  {
    (Queued(m, p, j) ==> j in m.requests) && (Queued(m, p, j) && Queued(m, q, j) ==> p == q)
  }

  /** The step starts job `j`. */
  predicate StartsNow(e: Event, j: Job)
  {
    match e
    case Begin(_, i) => i == j
    case RunDirectly(i, _) => i == j
    case _ => false
  }

  /** How often job `j` starts. */
  function Starts(es: seq<Event>, j: Job): nat
  {
    if es == [] then 0 else Starts(es[1..], j) + if StartsNow(es[0], j) then 1 else 0
  }

  /** A job is queued because it was before, or because it is enqueued now, in the queue of its
      transport. */
  lemma StillQueued(m: Bus, e: Event, q: QueueId, j: Job)
    requires Enabled(m, e) && BusOk(m) && Queued(Next(m, e), q, j)
    ensures
      || Queued(m, q, j)
      || (e.Enqueue? && e.j == j && TransportKey(e.r.uri) in Next(m, e).reg.queues
          && q == Next(m, e).reg.queues[TransportKey(e.r.uri)])
  {
    if e.Enqueue? {
      BusOkAt(m, TransportKey(e.r.uri), 0, j);
      hide BusOk, CountOk, Direct, TransportKey;
      EnqueueEffect(m, e.j, e.r, e.created);
      hide OnEnqueue;
    } else {
      hide BusOk, Direct, Release, IsLastUse, Owned;
    }
  }

  lemma RequestsStay(m: Bus, e: Event, j: Job)
    requires Enabled(m, e) && j in m.requests
    ensures j in Next(m, e).requests
  {
    hide Direct, TransportKey, Ensure, Release, IsLastUse, Owned;
  }

  lemma NextKeepsOneQueue(m: Bus, e: Event, p: QueueId, q: QueueId, j: Job)
    requires Enabled(m, e) && BusOk(m) && OneQueue(m, p, q, j) && OneQueue(m, q, p, j)
    ensures OneQueue(Next(m, e), p, q, j)
  {
    var n := Next(m, e);
    if Queued(n, p, j) {
      StillQueued(m, e, p, j);
    }
    if Queued(n, q, j) {
      StillQueued(m, e, q, j);
    }
    if j in m.requests {
      RequestsStay(m, e, j);
    }
    assert e.Enqueue? ==> e.j !in m.requests && e.j in n.requests by { hide Direct, TransportKey, Ensure; }
    hide BusOk, Enabled, Next, Queued;
  }

  lemma NextStarts(m: Bus, e: Event, j: Job)
    requires Enabled(m, e) && BusOk(m) && forall p, q :: OneQueue(m, p, q, j)
    ensures j in m.requests || StartsNow(e, j) ==> j in Next(m, e).requests
    ensures QueuedSomewhere(Next(m, e), j) ==> !StartsNow(e, j) && (j !in m.requests || QueuedSomewhere(m, j))
    ensures StartsNow(e, j) ==> j !in m.requests || QueuedSomewhere(m, j)
  {
    var n := Next(m, e);
    if StartsNow(e, j) {
      StartsHere(m, e, j);
    } else if QueuedSomewhere(n, j) {
      var q :| Queued(n, q, j);
      StillQueued(m, e, q, j);
      hide BusOk, Next, Queued;
    } else {
      hide BusOk, QueuedSomewhere, OneQueue, Direct;
    }
  }

  lemma StartsHere(m: Bus, e: Event, j: Job)
    requires Enabled(m, e) && BusOk(m) && (forall p, q :: OneQueue(m, p, q, j)) && StartsNow(e, j)
    ensures j in Next(m, e).requests && !QueuedSomewhere(Next(m, e), j)
    ensures j !in m.requests || QueuedSomewhere(m, j)
  {
    var n := Next(m, e);
    hide BusOk, Direct;
    match e
    case Begin(o, _) =>
      assert Queued(m, o, j) && OneQueue(m, o, o, j);
      forall q ensures !Queued(n, q, j) { assert OneQueue(m, q, o, j); }
    case RunDirectly(_, _) =>
      forall q ensures !Queued(n, q, j) { assert OneQueue(m, q, q, j); }
  }

  lemma {:induction false} StartsLeft(m: Bus, es: seq<Event>, n: Bus, j: Job)
    requires Runs(m, es, n) && BusOk(m) && forall p, q :: OneQueue(m, p, q, j)
    ensures Starts(es, j) <= if j !in m.requests || QueuedSomewhere(m, j) then 1 else 0
    decreases |es|
  {
    if es != [] {
      var k := Next(m, es[0]);
      NextKeepsBusOk(m, es[0]);
      NextStarts(m, es[0], j);
      forall p, q ensures OneQueue(k, p, q, j) {
        assert OneQueue(m, p, q, j) && OneQueue(m, q, p, j);
        NextKeepsOneQueue(m, es[0], p, q, j);
      }
      hide Next, BusOk, Enabled, OneQueue, QueuedSomewhere;
      StartsLeft(k, es[1..], n, j);
    }
  }

  /** No job starts twice, on its queue or beside it. */
  lemma StartsAtMostOnce(es: seq<Event>, m: Bus, j: Job)
    requires Runs(IDLE, es, m)
    ensures Starts(es, j) <= 1
  {
    IdleIsOk();
    StartsLeft(IDLE, es, m, j);
  }
}

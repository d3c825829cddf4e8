/** The state of an EyBond manager and its atomic operations, as functions on values.

    One listener serves many dongles.  A session is known by a number, in place of
    its object identity; it has no PN (the empty text) until a heartbeat tells.
    An asyncio future is an entry of `futures`, known by the number of the request
    that waits for it; a ready event is a Boolean.
 */
module EybondIndex {
  import opened Wrappers

  const TIDS := 0x10000  // tids are 16 bits wide

  /** PNs and peer addresses.  Only equality and emptiness matter here, so texts are
      known by number. */
  type Text = int

  const EMPTY: Text := 0

  type SessionId = int

  type RequestId = int

  /** The bytes of a reply, which are only handed on. */
  type Payload = seq<int>

  datatype Status = Connected | Disconnected

  /** Wall-clock stamps, known by number; a record that was only configured has none yet. */
  type Stamp = int

  const NEVER: Stamp := 0

  datatype Record = Record(enabled: bool, status: Status, peer: Text, firstSeen: Stamp, lastSeen: Stamp)

  datatype Future = Pending | Reply(payload: Payload) | Lost | Cancelled

  /** Where the handler of a session stands: reading frames, past its read loop but
      not yet torn down, or finished. */
  datatype Phase = Reading | Closing | Finished

  /** `drawn` counts the tids drawn so far, without wrapping. */
  datatype Session = Session(
    peer: Text, pn: Text, tid: int, pending: map<int, RequestId>, drawn: int, phase: Phase)

  datatype Index = Index(
    sessions: map<SessionId, Session>,    // every session object ever created
    connected: set<SessionId>,      // _sessions
    byPn: map<Text, SessionId>,   // _sessions_by_pn
    ready: map<Text, bool>,       // _ready_by_pn
    anyReady: bool,                 // _any_ready
    records: map<Text, Record>,   // the discovery registry
    clock: Stamp,                 // what the clock of the registry shows
    futures: map<RequestId, Future>)

  // ---------------------------------------------------------------- discovery registry

  function RecordSeen(records: map<Text, Record>, pn: Text, peer: Text, now: Stamp): map<Text, Record>
  {
    if pn !in records then records[pn := Record(false, Connected, peer, now, now)]
    else
      var rec := records[pn];
      records[pn := rec.(status := Connected, lastSeen := now, peer := if peer != EMPTY then peer else rec.peer)]
  }

  function MarkDisconnected(records: map<Text, Record>, pn: Text, now: Stamp): map<Text, Record>
  {
    if pn in records then records[pn := records[pn].(status := Disconnected, lastSeen := now)] else records
  }

  function ResetConnectionState(records: map<Text, Record>): map<Text, Record>
  {
    map pn | pn in records :: records[pn].(status := Disconnected, peer := EMPTY)
  }

  function SetEnabled(records: map<Text, Record>, pn: Text, enabled: bool): map<Text, Record>
  {
    var rec := if pn in records then records[pn] else Record(false, Disconnected, EMPTY, NEVER, NEVER);
    records[pn := rec.(enabled := enabled)]
  }

  // ---------------------------------------------------------------- sessions

  function Accept(x: Index, s: SessionId, peer: Text): Index
    requires s !in x.sessions
  {
    x.(sessions := x.sessions[s := Session(peer, EMPTY, 0, map[], 0, Reading)],
       connected := x.connected + {s},
       anyReady := true)
  }

  /** Every future of `waiters` that still waits fails. */
  function FailAll(futures: map<RequestId, Future>, waiters: set<RequestId>): map<RequestId, Future>
  {
    map f | f in futures :: if f in waiters && futures[f] == Pending then Lost else futures[f]
  }

  /** The requests that are entered under some tid. */
  function Waiters(pending: map<int, RequestId>): set<RequestId> { set t | t in pending :: pending[t] }

  function DropSession(x: Index, s: SessionId): Index
    requires s in x.sessions
  {
    var sess := x.sessions[s];
    var owns := sess.pn != EMPTY && sess.pn in x.byPn && x.byPn[sess.pn] == s;
    var connected := x.connected - {s};
    x.(sessions := x.sessions[s := sess.(pending := map[])],
       connected := connected,
       byPn := if owns then x.byPn - {sess.pn} else x.byPn,
       ready := if owns && sess.pn in x.ready then x.ready[sess.pn := false] else x.ready,
       anyReady := x.anyReady && connected != {},
       futures := FailAll(x.futures, Waiters(sess.pending)))
  }

  function Identify(x: Index, s: SessionId, pn: Text): Index
    requires s in x.sessions
  {
    x.(sessions := x.sessions[s := x.sessions[s].(pn := pn)])
  }

  function Evict(x: Index, s: SessionId, pn: Text): Index
    requires s in x.sessions
  {
    if pn in x.byPn && x.byPn[pn] != s && x.byPn[pn] in x.sessions then DropSession(x, x.byPn[pn]) else x
  }

  function Claim(x: Index, s: SessionId, pn: Text): Index
    requires s in x.sessions
  {
    x.(byPn := x.byPn[pn := s], ready := x.ready[pn := true],
       records := RecordSeen(x.records, pn, x.sessions[s].peer, x.clock))
  }

  /** A heartbeat frame whose payload spells `pn`. */
  function Heartbeat(x: Index, s: SessionId, pn: Text): Index
    requires s in x.sessions
  {
    var own := x.sessions[s].pn;
    if pn != EMPTY && own == EMPTY then Claim(Evict(Identify(x, s, pn), s, pn), s, pn)
    else if own != EMPTY then x.(records := RecordSeen(x.records, own, x.sessions[s].peer, x.clock))
    else x
  }

  /** An FC=4 frame: the reply to the request that waits under its tid, if any. */
  function Forwarded(x: Index, s: SessionId, tid: int, payload: Payload): Index
    requires s in x.sessions
  {
    var pending := x.sessions[s].pending;
    if tid !in pending then x
    else
      var f := pending[tid];
      x.(sessions := x.sessions[s := x.sessions[s].(pending := pending - {tid})],
         futures := if f in x.futures && x.futures[f] == Pending then x.futures[f := Reply(payload)] else x.futures)
  }

  /** The end of a session handler. */
  function Finish(x: Index, s: SessionId): Index
    requires s in x.sessions
  {
    var pn := x.sessions[s].pn;
    var y := DropSession(x, s);
    y.(sessions := y.sessions[s := y.sessions[s].(phase := Finished)],
       records := if pn != EMPTY && pn !in y.byPn then MarkDisconnected(y.records, pn, y.clock) else y.records)
  }

  /** The read loop of the handler ends: end of stream, or an error. */
  function StopReading(x: Index, s: SessionId): Index
    requires s in x.sessions
  {
    x.(sessions := x.sessions[s := x.sessions[s].(phase := Closing)])
  }

  function NextTid(tid: int): int { (tid + 1) % TIDS }

  function AllocateTid(x: Index, s: SessionId): Index
    requires s in x.sessions
  {
    var sess := x.sessions[s];
    x.(sessions := x.sessions[s := sess.(tid := NextTid(sess.tid), drawn := sess.drawn + 1)])
  }

  /** The start of a transmission: a fresh tid, and future `r` waiting under it. */
  function Register(x: Index, s: SessionId, r: RequestId): Index
    requires s in x.sessions
  {
    var sess := x.sessions[s];
    var tid := NextTid(sess.tid);
    x.(sessions := x.sessions[s := sess.(tid := tid, drawn := sess.drawn + 1, pending := sess.pending[tid := r])],
       futures := x.futures[r := Pending])
  }

  function Unregister(x: Index, s: SessionId, tid: int): Index
    requires s in x.sessions
  {
    x.(sessions := x.sessions[s := x.sessions[s].(pending := x.sessions[s].pending - {tid})])
  }

  function CancelFuture(x: Index, r: RequestId): Index
  {
    if r in x.futures && x.futures[r] == Pending then x.(futures := x.futures[r := Cancelled]) else x
  }

  // ---------------------------------------------------------------- queries

  /** The session for a request that names no dongle. */
  ghost function PnlessTarget(x: Index): (r: Option<SessionId>)
    ensures r.Some? <==> |x.connected| == 1
    ensures r.Some? ==> x.connected == {r.value}
  {
    if exists s :: x.connected == {s} then
      var s :| x.connected == {s};
      Some(s)
    else
      SingletonIffOne(x.connected);
      None
  }

  lemma SingletonIffOne(connected: set<SessionId>)
    ensures |connected| == 1 <==> exists s :: connected == {s}
  {
    if |connected| == 1 {
      EmptyIfNoMember(connected);
      var s :| s in connected;
      assert |connected - {s}| == 0;
      assert connected == {s};
    }
  }

  /** Whether a request for `pn` finds its session at once, must wait, or is dropped. */
  datatype Lookup = Found(s: SessionId) | MustWait | Ambiguous

  ghost function Resolve(x: Index, pn: Text): Lookup
  {
    if pn != EMPTY then
      if pn in x.byPn then Found(x.byPn[pn]) else MustWait
    else if x.connected != {} then
      match PnlessTarget(x) case Some(s) => Found(s) case None => Ambiguous
    else MustWait
  }

  /** The ready event of a PN comes into being, unset, when it is first asked for. */
  function ReadyEvent(x: Index, pn: Text): Index
  {
    if pn == EMPTY || pn in x.ready then x else x.(ready := x.ready[pn := false])
  }

  /** Whether to broadcast, outside a forced window. */
  predicate ShouldAnnounce(x: Index)
  {
    var expected := set pn | pn in x.records && x.records[pn].enabled;
    if expected != {} then expected - x.byPn.Keys != {} else x.byPn.Keys == {}
  }
}

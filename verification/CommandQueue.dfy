/** The queue of one transport: user commands before polls, one I/O at a time.

    Submissions are numbered in order, which is what breaks ties between equal
    priorities.  The number of a job also names its future.
 */
module CommandQueue {
  import opened Wrappers

  const PRIORITY_USER := 0
  const PRIORITY_POLL := 1

  /** What calling the function of a job comes to. */
  datatype Outcome = Returned(value: int) | Raised(error: int)

  datatype Future = Pending | Done(outcome: Outcome) | Cancelled

  /** The worker waits for a job, awaits one, sleeps after one, or has ended. */
  datatype Worker = Idle | Running(job: int) | Pausing | Ended

  /** `prios` and `futures` are indexed by job; `lost` holds a job whose worker was cancelled. */
  datatype Queue = Queue(
    prios: seq<int>, futures: seq<Future>, queued: set<int>, worker: Worker,
    started: seq<int>, completed: seq<int>, lost: set<int>)

  // ---------------------------------------------------------------- atomic steps

  predicate Submitted(q: Queue, n: int) { 0 <= n < |q.prios| && n < |q.futures| }

  predicate Before(q: Queue, n: int, m: int)
  {
    Submitted(q, n) && Submitted(q, m) &&
    (q.prios[n] < q.prios[m] || (q.prios[n] == q.prios[m] && n <= m))
  }

  /** The job that a priority queue hands out. */
  predicate IsLeast(q: Queue, n: int)
  {
    n in q.queued && forall m :: m in q.queued ==> Before(q, n, m)
  }

  function Submit(q: Queue, prio: int): Queue
  {
    q.(prios := q.prios + [prio], futures := q.futures + [Pending], queued := q.queued + {|q.prios|})
  }

  function Get(q: Queue, n: int): Queue
  {
    q.(queued := q.queued - {n}, worker := Running(n), started := q.started + [n])
  }

  function Settle(q: Queue, n: int, future: Future): Queue
  {
    if Submitted(q, n) && q.futures[n] == Pending then q.(futures := q.futures[n := future]) else q
  }

  function Finish(q: Queue, n: int, outcome: Outcome): Queue
  {
    Settle(q, n, Done(outcome)).(worker := Pausing, completed := q.completed + [n])
  }

  function End(q: Queue): Queue
  {
    q.(worker := Ended, lost := if q.worker.Running? then q.lost + {q.worker.job} else q.lost)
  }

  // ---------------------------------------------------------------- the queue as an object

  class CommandQueue {
    var prios: seq<int>
    var futures: seq<Future>
    var queued: set<int>
    var worker: Worker
    var started: seq<int>
    var completed: seq<int>
    var lost: set<int>

    constructor ()
      ensures State() == EMPTY
    {
      prios, futures, queued, worker, started, completed, lost := [], [], {}, Idle, [], [], {};
    }

    function State(): Queue
      reads this
    {
      Queue(prios, futures, queued, worker, started, completed, lost)
    }

    method Enqueue(prio: int) returns (n: int)
      modifies this
      ensures State() == Submit(old(State()), prio)
      ensures n == |old(prios)|
    {
      n := |prios|;
      prios, futures, queued := prios + [prio], futures + [Pending], queued + {n};
    }

    /** The worker takes its next job; there is always exactly one that it may take. */
    method Next() returns (n: int)
      requires worker == Idle && queued != {} && forall m :: m in queued ==> Submitted(State(), m)
      modifies this
      ensures IsLeast(old(State()), n)
      ensures State() == Get(old(State()), n)
    {
      ghost var least := LeastExists(State(), queued);
      n :| n in queued && forall m :: m in queued ==> Before(State(), n, m);
      queued := queued - {n};
      worker := Running(n);
      started := started + [n];
    }

    /** The awaited job has returned or raised. */
    method Complete(outcome: Outcome)
      requires worker.Running? && Submitted(State(), worker.job)
      modifies this
      ensures State() == Finish(old(State()), old(worker.job), outcome)
    {
      var n := worker.job;
      if futures[n] == Pending {
        futures := futures[n := Done(outcome)];
      }
      worker := Pausing;
      completed := completed + [n];
    }

    /** The pause after a job is over. */
    method Resume()
      requires worker == Pausing
      modifies this
      ensures State() == old(State()).(worker := Idle)
    {
      worker := Idle;
    }

    method Stop()
      modifies this
      ensures State() == End(old(State()))
    {
      if worker.Running? {
        lost := lost + {worker.job};
      }
      worker := Ended;
    }
  }

  lemma {:induction false} LeastExists(q: Queue, jobs: set<int>) returns (l: int)
    requires jobs != {} && forall m :: m in jobs ==> Submitted(q, m)
    ensures l in jobs && forall m :: m in jobs ==> Before(q, l, m)
    decreases |jobs|
  {
    EmptyIfNoMember(jobs);
    l :| l in jobs;
    var rest := jobs - {l};
    EmptyIfNoMember(rest);
    if rest != {} {
      var k := LeastExists(q, rest);
      l := LeastOfTwo(q, jobs, l, k);
    }
  }

  lemma LeastOfTwo(q: Queue, jobs: set<int>, n: int, k: int) returns (l: int)
    requires n in jobs && k in jobs && Submitted(q, n) && Submitted(q, k)
    requires forall m :: m in jobs && m != n ==> Before(q, k, m)
    ensures l in jobs && forall m :: m in jobs ==> Before(q, l, m)
  {
    l := if Before(q, n, k) then n else k;
    forall m | m in jobs ensures Before(q, l, m) {
      assert m != n ==> Before(q, k, m);
    }
  }

  // ---------------------------------------------------------------- runs

  /** Submissions, callers that give up, the steps of the worker, and its end: by `stop`,
      or by a cancellation that escapes from a job. */
  datatype Event = Submission(prio: int) | GiveUp(n: int) | Take(n: int) | JobEnds | Wake | WorkerEnds

  const EMPTY := Queue([], [], {}, Idle, [], [], {})

  predicate Enabled(q: Queue, e: Event)
  {
    match e
    case Submission(prio) => prio == PRIORITY_USER || prio == PRIORITY_POLL
    case GiveUp(n) => Submitted(q, n)
    case Take(n) => q.worker == Idle && IsLeast(q, n)
    case JobEnds => q.worker.Running?
    case Wake => q.worker == Pausing
    case WorkerEnds => true
  }

  /** `call` says what the function of each job comes to. */
  function Next(q: Queue, e: Event, call: int -> Outcome): Queue
    requires Enabled(q, e)
  {
    match e
    case Submission(prio) => Submit(q, prio)
    case GiveUp(n) => Settle(q, n, Cancelled)
    case Take(n) => Get(q, n)
    case JobEnds => Finish(q, q.worker.job, call(q.worker.job))
    case Wake => q.(worker := Idle)
    case WorkerEnds => End(q)
  }

  /** The events `es` lead from `q` to `r`. */
  predicate Runs(q: Queue, es: seq<Event>, r: Queue, call: int -> Outcome)
    decreases |es|
  {
    if es == [] then q == r
    else Enabled(q, es[0]) && Runs(Next(q, es[0], call), es[1..], r, call)
  }

  // ---------------------------------------------------------------- conservation

  /** Every job is in exactly one place. */
  predicate PlaceOk(q: Queue, n: int)
  {
    var places := (if n in q.queued then 1 else 0) + (if n in q.completed then 1 else 0)
                + (if q.worker == Running(n) then 1 else 0) + (if n in q.lost then 1 else 0);
    && places == (if Submitted(q, n) then 1 else 0)
    && (n in q.started <==> Submitted(q, n) && n !in q.queued)
  }

  /** A future gets the outcome of its own job, or its caller has given up; and it has one
      of the two once the job is over. */
  predicate FutureOk(q: Queue, n: int, call: int -> Outcome)
  {
    Submitted(q, n) ==>
      && (q.futures[n].Done? ==> q.futures[n].outcome == call(n) && n in q.completed)
      && (n in q.completed ==> q.futures[n] != Pending)
  }

  predicate CountOk(q: Queue)
  {
    && |q.futures| == |q.prios|
    && |q.prios| == |q.queued| + |q.completed| + (if q.worker.Running? then 1 else 0) + |q.lost|
    && |q.lost| <= (if q.worker.Ended? then 1 else 0)
  }

  ghost predicate Ok(q: Queue, call: int -> Outcome)
  {
    CountOk(q) && (forall n :: PlaceOk(q, n)) && (forall n :: FutureOk(q, n, call))
  }

  /** The job that an event is about. */
  function Subject(q: Queue, e: Event): int
  {
    match e
    case GiveUp(n) => n
    case Take(n) => n
    case _ => if q.worker.Running? then q.worker.job else |q.prios|
  }

  lemma NextKeepsPlace(q: Queue, e: Event, call: int -> Outcome, n: int)
    requires Enabled(q, e) && |q.futures| == |q.prios|
    requires PlaceOk(q, n) && PlaceOk(q, |q.prios|) && PlaceOk(q, Subject(q, e))
    ensures PlaceOk(Next(q, e, call), n)
  {
  }

  lemma NextKeepsFuture(q: Queue, e: Event, call: int -> Outcome, n: int)
    requires Enabled(q, e) && |q.futures| == |q.prios|
    requires PlaceOk(q, n) && FutureOk(q, n, call)
    ensures FutureOk(Next(q, e, call), n, call)
  {
  }

  lemma SubmitKeepsCount(q: Queue, prio: int)
    requires CountOk(q) && |q.prios| !in q.queued
    ensures CountOk(Submit(q, prio))
  {
  }

  lemma GetKeepsCount(q: Queue, n: int)
    requires CountOk(q) && n in q.queued && q.worker == Idle
    ensures CountOk(Get(q, n))
  {
  }

  lemma EndKeepsCount(q: Queue)
    requires CountOk(q) && (q.worker.Running? ==> q.worker.job !in q.lost)
    ensures CountOk(End(q))
  {
  }

  lemma NextKeepsCount(q: Queue, e: Event, call: int -> Outcome)
    requires Enabled(q, e) && CountOk(q)
    requires PlaceOk(q, |q.prios|) && PlaceOk(q, Subject(q, e))
    ensures CountOk(Next(q, e, call))
  {
    match e
    case Submission(prio) =>
      SubmitKeepsCount(q, prio);
      hide CountOk, Submit;
    case Take(n) =>
      GetKeepsCount(q, n);
      hide CountOk, Get, PlaceOk;
    case WorkerEnds =>
      EndKeepsCount(q);
      hide CountOk, End;
    case _ =>
      hide PlaceOk, Before;
  }

  lemma NextKeepsOk(q: Queue, e: Event, call: int -> Outcome)
    requires Ok(q, call) && Enabled(q, e)
    ensures Ok(Next(q, e, call), call)
  {
    var r := Next(q, e, call);
    assert PlaceOk(q, |q.prios|) && PlaceOk(q, Subject(q, e));
    hide PlaceOk, FutureOk, Next, Enabled, Subject;
    NextKeepsCount(q, e, call);
    forall n ensures PlaceOk(r, n) { NextKeepsPlace(q, e, call, n); }
    forall n ensures FutureOk(r, n, call) { NextKeepsFuture(q, e, call, n); }
  }

  /** Until the worker ends, every submitted job is completed, running or queued; the end
      of the worker loses at most the running one.  A completed job has told its caller its
      own outcome, unless the caller had given up. */
  lemma {:induction false} JobsAreConserved(q: Queue, es: seq<Event>, r: Queue, call: int -> Outcome)
    requires Ok(q, call) && Runs(q, es, r, call)
    ensures Ok(r, call)
    decreases |es|
  {
    if es != [] {
      hide Ok, Next;
      NextKeepsOk(q, es[0], call);
      JobsAreConserved(Next(q, es[0], call), es[1..], r, call);
    }
  }

  // ---------------------------------------------------------------- users before polls

  /** The priorities in use. */
  predicate Ranked(q: Queue)
  {
    forall n :: 0 <= n < |q.prios| ==> q.prios[n] == PRIORITY_USER || q.prios[n] == PRIORITY_POLL
  }

  lemma {:induction false} RunsKeepRanked(q: Queue, es: seq<Event>, r: Queue, call: int -> Outcome)
    requires Ranked(q) && Runs(q, es, r, call)
    ensures Ranked(r)
    decreases |es|
  {
    if es != [] {
      RunsKeepRanked(Next(q, es[0], call), es[1..], r, call);
    }
  }

  /** The user commands that were queued before `u`. */
  function Ahead(q: Queue, u: int): set<int>
  {
    set n | n in q.queued && n < u && Submitted(q, n) && q.prios[n] == PRIORITY_USER
  }

  predicate WaitingUser(q: Queue, u: int) { u in q.queued && Submitted(q, u) && q.prios[u] == PRIORITY_USER }

  /** From `q` to `r`, every started job was in `Ahead`, and left it by starting. */
  predicate ServesAhead(q: Queue, r: Queue, u: int)
  {
    && q.started <= r.started && Ahead(r, u) <= Ahead(q, u)
    && (forall i :: |q.started| <= i < |r.started| ==> r.started[i] in Ahead(q, u))
    && |r.started| - |q.started| + |Ahead(r, u)| == |Ahead(q, u)|
  }

  lemma TakeServesAhead(q: Queue, n: int, u: int)
    requires Ranked(q) && IsLeast(q, n) && WaitingUser(q, u) && u != n
    ensures ServesAhead(q, Get(q, n), u)
  {
    assert Before(q, n, u);
    assert n in Ahead(q, u);
    assert Ahead(Get(q, n), u) == Ahead(q, u) - {n};
  }

  lemma SubmitLeavesAhead(q: Queue, prio: int, u: int)
    requires |q.futures| == |q.prios| && WaitingUser(q, u)
    ensures ServesAhead(q, Submit(q, prio), u) && WaitingUser(Submit(q, prio), u)
  {
    assert Ahead(Submit(q, prio), u) == Ahead(q, u);
  }

  lemma StepServesAhead(q: Queue, e: Event, call: int -> Outcome, u: int)
    requires Ranked(q) && |q.futures| == |q.prios| && Enabled(q, e)
    requires WaitingUser(q, u) && u in Next(q, e, call).queued
    ensures WaitingUser(Next(q, e, call), u) && ServesAhead(q, Next(q, e, call), u)
  {
    match e
    case Take(n) =>
      TakeServesAhead(q, n, u);
      hide ServesAhead, Ranked;
    case Submission(prio) =>
      SubmitLeavesAhead(q, prio, u);
      hide Ahead, ServesAhead, Ranked;
    case _ =>
      hide Ranked, IsLeast;
      assert Ahead(Next(q, e, call), u) == Ahead(q, u);
  }

  /** A job that has left the queue never returns to it. */
  lemma {:induction false} StartedNeverQueued(q: Queue, es: seq<Event>, r: Queue, call: int -> Outcome, n: int)
    requires Ok(q, call) && Runs(q, es, r, call) && n in r.queued && Submitted(q, n)
    ensures n in q.queued
    decreases |es|
  {
    if es != [] {
      assert PlaceOk(q, n);
      NextKeepsOk(q, es[0], call);
      StartedNeverQueued(Next(q, es[0], call), es[1..], r, call, n);
    }
  }

  lemma ServingIsTransitive(q: Queue, k: Queue, r: Queue, u: int)
    requires ServesAhead(q, k, u) && ServesAhead(k, r, u)
    ensures ServesAhead(q, r, u)
  {
    hide Ahead;
    forall i | |q.started| <= i < |r.started| ensures r.started[i] in Ahead(q, u) {
      assert i < |k.started| ==> r.started[i] == k.started[i];
    }
  }

  lemma {:induction false} RunsServeAhead(
      q: Queue, es: seq<Event>, r: Queue, call: int -> Outcome, u: int)
    requires Ok(q, call) && Ranked(q) && Runs(q, es, r, call)
    requires WaitingUser(q, u) && u in r.queued
    ensures ServesAhead(q, r, u)
    decreases |es|
  {
    if es != [] {
      var k := Next(q, es[0], call);
      NextKeepsOk(q, es[0], call);
      assert Submitted(k, u);
      StartedNeverQueued(k, es[1..], r, call, u);
      StepServesAhead(q, es[0], call, u);
      hide Ok, Next, Ahead, WaitingUser, Enabled;
      RunsKeepRanked(q, [es[0]], k, call);
      hide Ranked, Runs, ServesAhead;
      RunsServeAhead(k, es[1..], r, call, u);
      ServingIsTransitive(q, k, r, u);
    }
  }

  // ---------------------------------------------------------------- first come, first served

  predicate SamePriority(q: Queue, n: int, m: int)
  {
    Submitted(q, n) && Submitted(q, m) && q.prios[n] == q.prios[m]
  }

  /** No job starts before an earlier one of its priority. */
  predicate Overtakes(q: Queue, n: int, m: int)
  {
    n < m && SamePriority(q, n, m) && m in q.started && n !in q.started
  }

  /** Jobs of one priority start in the order of their submission. */
  predicate InOrder(q: Queue, i: int, j: int)
  {
    0 <= i < j < |q.started| && SamePriority(q, q.started[i], q.started[j]) ==> q.started[i] < q.started[j]
  }

  ghost predicate Fifo(q: Queue)
  {
    && (forall n, m :: !Overtakes(q, n, m))
    && (forall i, j :: InOrder(q, i, j))
  }

  lemma TakeOvertakesNothing(q: Queue, n: int, k: int, m: int)
    requires IsLeast(q, n) && !Overtakes(q, k, m) && PlaceOk(q, k)
    ensures !Overtakes(Get(q, n), k, m)
  {
    if k < m == n && SamePriority(q, k, m) {
      assert k in q.queued ==> Before(q, n, k);
    }
  }

  lemma TakeKeepsOrder(q: Queue, n: int, i: int, j: int)
    requires IsLeast(q, n) && InOrder(q, i, j) && |q.prios| == |q.futures|
    requires 0 <= i < |q.started| ==> !Overtakes(q, n, q.started[i]) && PlaceOk(q, q.started[i]) && PlaceOk(q, n)
    ensures InOrder(Get(q, n), i, j)
  {
  }

  lemma NextKeepsFifo(q: Queue, e: Event, call: int -> Outcome)
    requires Ok(q, call) && Fifo(q) && Enabled(q, e)
    ensures Fifo(Next(q, e, call))
  {
    var r := Next(q, e, call);
    forall k, m ensures !Overtakes(r, k, m) {
      assert !Overtakes(q, k, m) && PlaceOk(q, k) && PlaceOk(q, m);
      if e.Take? {
        TakeOvertakesNothing(q, e.n, k, m);
      }
    }
    forall i, j ensures InOrder(r, i, j) {
      assert InOrder(q, i, j);
      if e.Take? {
        if 0 <= i < |q.started| {
          assert !Overtakes(q, e.n, q.started[i]) && PlaceOk(q, q.started[i]) && PlaceOk(q, e.n);
        }
        TakeKeepsOrder(q, e.n, i, j);
      } else if 0 <= i < j < |q.started| {
        assert PlaceOk(q, q.started[i]) && PlaceOk(q, q.started[j]);
      }
    }
  }

  /** The started jobs of each priority are the first of that priority's submissions, in
      the order of their submission. */
  lemma {:induction false} StartedInOrder(q: Queue, es: seq<Event>, r: Queue, call: int -> Outcome)
    requires Ok(q, call) && Fifo(q) && Runs(q, es, r, call)
    ensures Fifo(r)
    decreases |es|
  {
    if es != [] {
      NextKeepsOk(q, es[0], call);
      NextKeepsFifo(q, es[0], call);
      hide Ok, Fifo, Next;
      StartedInOrder(Next(q, es[0], call), es[1..], r, call);
    }
  }

  // ---------------------------------------------------------------- every run

  /** What holds of a queue after any events. */
  lemma ReachableQueue(es: seq<Event>, q: Queue, call: int -> Outcome)
    requires Runs(EMPTY, es, q, call)
    ensures Ok(q, call) && Fifo(q) && Ranked(q)
    ensures !q.worker.Ended? ==> |q.prios| == |q.completed| + (if q.worker.Running? then 1 else 0) + |q.queued|
  {
    assert Ok(EMPTY, call) by {
      assert forall n :: PlaceOk(EMPTY, n) && FutureOk(EMPTY, n, call);
    }
    assert Fifo(EMPTY) by {
      assert forall n, m :: !Overtakes(EMPTY, n, m);
      assert forall i, j :: InOrder(EMPTY, i, j);
    }
    JobsAreConserved(EMPTY, es, q, call);
    StartedInOrder(EMPTY, es, q, call);
    RunsKeepRanked(EMPTY, es, q, call);
    hide Fifo, Ranked, PlaceOk, FutureOk, Runs;
  }

  /** In every run from the empty queue, a user command, which has priority 0 where polls have
      1, waits only for the job in flight and for earlier user commands: while it is queued,
      every job that starts is one of those, and each start leaves one of them less. */
  lemma UserWaitsOnlyForEarlierUsers(
      es: seq<Event>, q: Queue, later: seq<Event>, r: Queue, call: int -> Outcome, u: int)
    requires Runs(EMPTY, es, q, call) && Runs(q, later, r, call)
    requires u in q.queued && u in r.queued && 0 <= u < |q.prios| && q.prios[u] == 0
    ensures forall prio :: Enabled(r, Submission(prio)) <==> prio == 0 || prio == 1
    ensures forall n :: 0 <= n < |q.prios| ==> q.prios[n] == 0 || q.prios[n] == 1
    ensures q.started <= r.started
    ensures forall i :: |q.started| <= i < |r.started| ==>
      var n := r.started[i];
      n in q.queued && 0 <= n < u && q.prios[n] == 0
    ensures |r.started| - |q.started| + |Ahead(r, u)| == |Ahead(q, u)|
  {
    ReachableQueue(es, q, call);
    assert WaitingUser(q, u);
    hide Ok, Fifo, Runs, WaitingUser;
    RunsServeAhead(q, later, r, call, u);
  }

  lemma {:induction false} RunsKeepFuture(q: Queue, es: seq<Event>, r: Queue, call: int -> Outcome, n: int)
    requires Ok(q, call) && Runs(q, es, r, call) && GiveUp(n) !in es
    requires Submitted(q, n) ==> q.futures[n] != Cancelled
    ensures Submitted(r, n) ==> r.futures[n] != Cancelled
    decreases |es|
  {
    if es != [] {
      assert es[0] in es;
      NextKeepsOk(q, es[0], call);
      assert |q.futures| == |q.prios|;
      StepKeepsFuture(q, es[0], call, n);
      hide Ok, Next, Enabled;
      RunsKeepFuture(Next(q, es[0], call), es[1..], r, call, n);
    }
  }

  lemma StepKeepsFuture(q: Queue, e: Event, call: int -> Outcome, n: int)
    requires Enabled(q, e) && e != GiveUp(n) && |q.futures| == |q.prios|
    requires Submitted(q, n) ==> q.futures[n] != Cancelled
    ensures Submitted(Next(q, e, call), n) ==> Next(q, e, call).futures[n] != Cancelled
  {
    hide IsLeast;
  }

  /** A caller that does not give up gets the outcome of its own job when that is complete,
      and waits until then. */
  lemma CallerGetsItsOutcome(es: seq<Event>, q: Queue, call: int -> Outcome, n: int)
    requires Runs(EMPTY, es, q, call) && 0 <= n < |q.prios| && GiveUp(n) !in es
    ensures n < |q.futures| && q.futures[n] == if n in q.completed then Done(call(n)) else Pending
  {
    ReachableQueue([], EMPTY, call);
    ReachableQueue(es, q, call);
    RunsKeepFuture(EMPTY, es, q, call, n);
    assert FutureOk(q, n, call);
    hide Fifo, Ranked, Runs, PlaceOk;
  }

  /** The worker may end at any time: the job in flight is lost, its caller and those of the
      queued jobs are told nothing, and no job starts any more. */
  lemma EndIsForGood(q: Queue, es: seq<Event>, r: Queue, call: int -> Outcome)
    requires Runs(Next(q, WorkerEnds, call), es, r, call)
    ensures
      var n := Next(q, WorkerEnds, call);
      && n.futures == q.futures && n.queued == q.queued && n.completed == q.completed
      && (forall j :: q.worker == Running(j) ==> j in n.lost)
      && r.started == q.started && r.completed == q.completed
  {
    EndedStays(Next(q, WorkerEnds, call), es, r, call);
  }

  lemma {:induction false} EndedStays(q: Queue, es: seq<Event>, r: Queue, call: int -> Outcome)
    requires q.worker == Ended && Runs(q, es, r, call)
    ensures r.worker == Ended && r.started == q.started && r.completed == q.completed
    decreases |es|
  {
    if es != [] {
      hide IsLeast;
      EndedStays(Next(q, es[0], call), es[1..], r, call);
    }
  }
}

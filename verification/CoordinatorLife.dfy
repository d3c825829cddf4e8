/** One command of one device, over every interleaving.

    A cycle takes a snapshot of the published data, reaches the command, polls it with up
    to two transactions and a pause between them, and publishes what it has gathered.
    Forced reads, a timeout of the device and a failure of the cycle may come at any time.
 */
module CoordinatorLife {
  import opened Coordinator
  import opened Wrappers

  /** `previous` is the section that was published when the cycle began. */
  datatype Poll =
    | Idle
    | Ready(previous: Section)
    | Asking(previous: Section, attempt: nat)
    | Resting(previous: Section)
    | Polled(previous: Section, section: Section)

  /** Polling transactions that were started, whose reply was judged, and that were cut off
      while under way; forced reads that were accepted; and due polls that came to their end. */
  datatype Tally = Tally(started: nat, judged: nat, cut: nat, cleared: nat, finished: nat)

  /** `accepted` are the sections ever accepted. */
  datatype Life = Life(pair: Pair, data: Section, poll: Poll, accepted: set<Section>, tally: Tally)

  const NO_TALLY := Tally(0, 0, 0, 0, 0)
  const NEW_LIFE := Life(NEW_PAIR, map[], Idle, {}, NO_TALLY)

  datatype Event =
    | Open                 // a cycle begins that includes the device
    | Reach(due: bool)     // it reaches the command
    | Answer(r: Reply)     // the transaction under way ends
    | Retry                // the pause is over
    | TimesOut             // the device exceeds its bound: its old data will be published again
    | CycleFails           // the cycle exceeds its bound: nothing is published
    | Publish              // the cycle ends
    | Absent               // a cycle without the device ends
    | ForcedRead(r: Reply)

  predicate Enabled(m: Life, e: Event)
  {
    match e
    case Open => m.poll.Idle?
    case Reach(_) => m.poll.Ready?
    case Answer(_) => m.poll.Asking?
    case Retry => m.poll.Resting?
    case TimesOut => !m.poll.Idle?
    case CycleFails => !m.poll.Idle?
    case Publish => m.poll.Polled?
    case Absent => m.poll.Idle?
    case ForcedRead(_) => true
  }

  function Start(t: Tally): Tally { t.(started := t.started + 1) }

  function Finish(t: Tally): Tally { t.(finished := t.finished + 1) }

  /** A transaction under way is cut off. */
  function Stop(t: Tally, poll: Poll): Tally { if poll.Asking? then t.(cut := t.cut + 1) else t }

  function OnReach(m: Life, due: bool): Life
    requires m.poll.Ready?
  {
    var previous := m.poll.previous;
    if !due then m.(poll := Polled(previous, previous))
    else if m.pair.unsupported then m.(poll := Polled(previous, Clean(previous)), tally := Finish(m.tally))
    else m.(poll := Asking(previous, 0), tally := Start(m.tally))
  }

  function OnAnswer(m: Life, cmd: Command, r: Reply): Life
    requires m.poll.Asking?
  {
    var judged := Judge(m.pair, cmd, r);
    var tally := m.tally.(judged := m.tally.judged + 1);
    var previous := m.poll.previous;
    match judged.1
    case Accepted(section) =>
      Life(judged.0, m.data, Polled(previous, section), m.accepted + {section}, Finish(tally))
    case Suppressed => m.(pair := judged.0, poll := Polled(previous, Clean(previous)), tally := Finish(tally))
    case Rejected =>
      if m.poll.attempt == 0 then m.(pair := judged.0, poll := Resting(previous), tally := tally)
      else
        var given := GiveUp(judged.0, previous);
        m.(pair := given.0, poll := Polled(previous, given.1), tally := Finish(tally))
  }

  function OnForcedRead(m: Life, cmd: Command, r: Reply): Life
  {
    var read := Refresh(m.pair, cmd, r);
    match read.1
    case None => m.(pair := read.0)
    case Some(section) =>
      Life(read.0, section, m.poll, m.accepted + {section}, m.tally.(cleared := m.tally.cleared + 1))
  }

  function Next(m: Life, cmd: Command, e: Event): Life
    requires Enabled(m, e)
  {
    match e
    case Open => m.(poll := Ready(m.data))
    case Reach(due) => OnReach(m, due)
    case Answer(r) => OnAnswer(m, cmd, r)
    case Retry => m.(poll := Asking(m.poll.previous, 1), tally := Start(m.tally))
    case TimesOut => m.(poll := Polled(m.poll.previous, m.poll.previous), tally := Stop(m.tally, m.poll))
    case CycleFails => m.(poll := Idle, tally := Stop(m.tally, m.poll))
    case Publish => m.(data := m.poll.section, poll := Idle)
    case Absent => m.(data := map[])
    case ForcedRead(r) => OnForcedRead(m, cmd, r)
  }

  predicate Runs(m: Life, cmd: Command, es: seq<Event>, n: Life)
    decreases |es|
  {
    if es == [] then m == n else Enabled(m, es[0]) && Runs(Next(m, cmd, es[0]), cmd, es[1..], n)
  }

  lemma {:induction false} RunsAppend(m: Life, cmd: Command, es: seq<Event>, n: Life, fs: seq<Event>, k: Life)
    requires Runs(m, cmd, es, n) && Runs(n, cmd, fs, k)
    ensures Runs(m, cmd, es + fs, k)
    decreases |es|
  {
    if es == [] {
      assert es + fs == fs;
    } else {
      hide Next, Enabled;
      RunsAppend(Next(m, cmd, es[0]), cmd, es[1..], n, fs, k);
      assert (es + fs)[1..] == es[1..] + fs;
    }
  }

  // ---------------------------------------------------------------- only accepted data are published

  /** Empty, or accepted at some time. */
  predicate Genuine(m: Life, section: Section) { section == map[] || section in m.accepted }

  ghost predicate LifeOk(m: Life, cmd: Command)
  {
    && (forall s :: s in m.accepted ==> Acceptable(cmd, s))
    && Genuine(m, m.data)
    && (!m.poll.Idle? ==> Genuine(m, m.poll.previous))
    && (m.poll.Polled? ==> Genuine(m, m.poll.section))
  }

  lemma CleanIsGenuine(m: Life, cmd: Command, section: Section)
    requires LifeOk(m, cmd) && Genuine(m, section)
    ensures Clean(section) == section
  {
    assert section in m.accepted ==> Acceptable(cmd, section);
  }

  lemma JudgeAccepts(p: Pair, cmd: Command, r: Reply)
    ensures var j := Judge(p, cmd, r).1; j.Accepted? ==> r == Dict(j.section) && Acceptable(cmd, j.section)
    ensures var read := Refresh(p, cmd, r).1; read.Some? ==> r == Dict(read.value) && Acceptable(cmd, read.value)
  {
    hide IsNak, Acceptable;
  }

  lemma AnswerKeepsLifeOk(m: Life, cmd: Command, r: Reply)
    requires LifeOk(m, cmd) && m.poll.Asking?
    ensures LifeOk(OnAnswer(m, cmd, r), cmd)
  {
    CleanIsGenuine(m, cmd, m.poll.previous);
    JudgeAccepts(m.pair, cmd, r);
    hide Judge, Acceptable, Clean;
  }

  lemma ForcedReadKeepsLifeOk(m: Life, cmd: Command, r: Reply)
    requires LifeOk(m, cmd)
    ensures LifeOk(OnForcedRead(m, cmd, r), cmd)
  {
    JudgeAccepts(m.pair, cmd, r);
    hide Refresh, Acceptable;
  }

  lemma NextKeepsLifeOk(m: Life, cmd: Command, e: Event)
    requires LifeOk(m, cmd) && Enabled(m, e)
    ensures LifeOk(Next(m, cmd, e), cmd)
  {
    match e
    case Answer(r) =>
      hide OnAnswer, LifeOk;
      AnswerKeepsLifeOk(m, cmd, r);
    case ForcedRead(r) =>
      hide OnForcedRead, LifeOk;
      ForcedReadKeepsLifeOk(m, cmd, r);
    case Reach(_) =>
      CleanIsGenuine(m, cmd, m.poll.previous);
      hide Acceptable, Clean;
    case _ =>
      hide Acceptable;
  }

  /** A reply that brought `section`. */
  predicate Brings(e: Event, section: Section) { e == Answer(Dict(section)) || e == ForcedRead(Dict(section)) }

  /** What is accepted has come in. */
  lemma NextAcceptsWhatComes(m: Life, cmd: Command, e: Event, section: Section)
    requires Enabled(m, e) && section in Next(m, cmd, e).accepted
    ensures section in m.accepted || Brings(e, section)
  {
    match e
    case Answer(r) =>
      JudgeAccepts(m.pair, cmd, r);
      hide Judge, Acceptable, Clean;
    case ForcedRead(r) =>
      JudgeAccepts(m.pair, cmd, r);
      hide Refresh, Acceptable;
    case _ =>
  }

  lemma {:induction false} RunsKeepLifeOk(m: Life, cmd: Command, es: seq<Event>, n: Life)
    requires LifeOk(m, cmd) && Runs(m, cmd, es, n)
    ensures LifeOk(n, cmd)
    ensures forall s :: s in n.accepted ==> s in m.accepted || exists e :: e in es && Brings(e, s)
    decreases |es|
  {
    if es != [] {
      var k := Next(m, cmd, es[0]);
      NextKeepsLifeOk(m, cmd, es[0]);
      RunsKeepLifeOk(k, cmd, es[1..], n);
      forall s | s in n.accepted && s !in m.accepted ensures exists e :: e in es && Brings(e, s) {
        if s in k.accepted {
          NextAcceptsWhatComes(m, cmd, es[0], s);
          assert es[0] in es;
        } else {
          var e :| e in es[1..] && Brings(e, s);
          assert e in es;
        }
      }
    }
  }

  /** In every reachable state, timeouts included, the published section is empty, or it is
      one that a reply to this command has brought and that carries no error and no NAK
      and, for the telemetry, is plausible. */
  lemma PublishedIsAccepted(cmd: Command, es: seq<Event>, n: Life)
    requires Runs(NEW_LIFE, cmd, es, n)
    ensures n.data == map[] || (Sound(cmd, n.data) && exists e :: e in es && Brings(e, n.data))
  {
    assert LifeOk(NEW_LIFE, cmd);
    AcceptableIsSound(cmd, n.data);
    hide Runs, Acceptable, Sound;
    RunsKeepLifeOk(NEW_LIFE, cmd, es, n);
  }

  // ---------------------------------------------------------------- what NAKs cost

  /** Every transaction started is judged, cut off or under way. */
  predicate Balanced(m: Life)
  {
    m.tally.started == m.tally.judged + m.tally.cut + if m.poll.Asking? then 1 else 0
  }

  predicate Naks(e: Event) { e.Answer? ==> IsNak(e.r) }

  /** At most two replies are judged, and one more for each forced read that was accepted;
      a transaction under way leaves room for its own. */
  predicate NakOk(m: Life)
  {
    var underWay := m.poll.Asking? || m.poll.Resting?;
    && (m.poll.Asking? ==> m.poll.attempt <= 1)
    && (if m.pair.unsupported then m.tally.judged + (if underWay then 1 else 0) <= 2 + m.tally.cleared
        else 0 <= m.pair.naks <= 1 && m.tally.judged <= m.pair.naks + m.tally.cleared)
  }

  lemma NextKeepsBalance(m: Life, cmd: Command, e: Event)
    requires Balanced(m) && Enabled(m, e)
    ensures Balanced(Next(m, cmd, e))
  {
    hide Judge, Refresh, Clean, Resolve;
  }

  lemma NextKeepsNakOk(m: Life, cmd: Command, e: Event)
    requires NakOk(m) && Enabled(m, e) && Naks(e)
    ensures NakOk(Next(m, cmd, e))
  {
    hide IsNak, Acceptable, Clean, Resolve;
  }

  lemma {:induction false} RunsKeepNakOk(m: Life, cmd: Command, es: seq<Event>, n: Life)
    requires NakOk(m) && Balanced(m) && Runs(m, cmd, es, n) && forall e :: e in es ==> Naks(e)
    ensures NakOk(n) && Balanced(n)
    decreases |es|
  {
    if es != [] {
      assert es[0] in es;
      NextKeepsNakOk(m, cmd, es[0]);
      NextKeepsBalance(m, cmd, es[0]);
      hide NakOk, Balanced, Next, Enabled, Naks;
      RunsKeepNakOk(Next(m, cmd, es[0]), cmd, es[1..], n);
    }
  }

  /** A command whose every polled reply is a NAK: over its whole life at most two replies
      are judged, and one more for each accepted forced read.  Every transaction started is
      judged, cut off or under way, so that at most two are started, and one more for each
      that a timeout cut off and for each accepted forced read. */
  lemma NakCost(cmd: Command, es: seq<Event>, n: Life)
    requires Runs(NEW_LIFE, cmd, es, n) && forall e :: e in es ==> Naks(e)
    ensures n.tally.started == n.tally.judged + n.tally.cut + if n.poll.Asking? then 1 else 0
    ensures n.tally.judged <= 2 + n.tally.cleared
    ensures n.tally.started <= 2 + n.tally.cut + n.tally.cleared
  {
    RunsKeepNakOk(NEW_LIFE, cmd, es, n);
  }

  /** A forced read that neither counts as a NAK nor is accepted. */
  predicate Neutral(cmd: Command, e: Event)
  {
    e.ForcedRead? ==> !IsNak(e.r) && !(e.r.Dict? && Acceptable(cmd, e.r.fields))
  }

  predicate ExactOk(m: Life)
  {
    && m.pair.naks == m.tally.judged <= 2 && m.tally.cleared == 0
    && (m.pair.unsupported <==> m.tally.judged == 2)
    && (m.poll.Asking? ==> m.poll.attempt <= 1 && m.tally.judged < 2 && (m.poll.attempt == 1 ==> m.tally.judged == 1))
    && (m.poll.Resting? ==> m.tally.judged == 1)
    && (m.tally.finished > 0 ==> m.tally.judged == 2)
  }

  lemma NextKeepsExactOk(m: Life, cmd: Command, e: Event)
    requires ExactOk(m) && Enabled(m, e) && Naks(e) && Neutral(cmd, e)
    ensures ExactOk(Next(m, cmd, e))
  {
    hide IsNak, Acceptable, Clean, Resolve;
  }

  lemma {:induction false} RunsKeepExactOk(m: Life, cmd: Command, es: seq<Event>, n: Life)
    requires ExactOk(m) && Runs(m, cmd, es, n) && forall e :: e in es ==> Naks(e) && Neutral(cmd, e)
    ensures ExactOk(n)
    decreases |es|
  {
    if es != [] {
      assert es[0] in es;
      NextKeepsExactOk(m, cmd, es[0]);
      hide ExactOk, Next, Enabled, Naks, Neutral;
      RunsKeepExactOk(Next(m, cmd, es[0]), cmd, es[1..], n);
    }
  }

  /** If forced reads take no part, the command is suppressed exactly by its second NAK, and
      a poll that comes to its end leaves exactly two replies judged. */
  lemma NakCostExactly(cmd: Command, es: seq<Event>, n: Life)
    requires Runs(NEW_LIFE, cmd, es, n) && forall e :: e in es ==> Naks(e) && Neutral(cmd, e)
    ensures n.tally.judged <= 2 && (n.pair.unsupported <==> n.tally.judged == 2)
    ensures n.tally.finished > 0 ==> n.tally.judged == 2
    ensures n.tally.started <= 2 + n.tally.cut
  {
    RunsKeepExactOk(NEW_LIFE, cmd, es, n);
    RunsKeepNakOk(NEW_LIFE, cmd, es, n);
  }

  // ---------------------------------------------------------------- the cost is reached

  lemma RunsOn(cmd: Command, es: seq<Event>, m: Life, e: Event)
    requires Runs(NEW_LIFE, cmd, es, m) && Enabled(m, e)
    ensures Runs(NEW_LIFE, cmd, es + [e], Next(m, cmd, e))
  {
    var n := Next(m, cmd, e);
    assert [e][1..] == [] && Runs(n, cmd, [], n);
    assert Runs(m, cmd, [e], n);
    RunsAppend(NEW_LIFE, cmd, es, m, [e], n);
  }

  /** A run in which every polled reply is a NAK comes to a state between cycles. */
  ghost predicate Rested(cmd: Command, es: seq<Event>, m: Life)
  {
    Runs(NEW_LIFE, cmd, es, m) && (forall e :: e in es ==> Naks(e)) && m.poll.Idle? && m.pair == NEW_PAIR
  }

  /** One more cycle begins and sends its first transaction. */
  lemma AskOnce(cmd: Command, es: seq<Event>, m: Life) returns (fs: seq<Event>, n: Life)
    requires Rested(cmd, es, m)
    ensures Runs(NEW_LIFE, cmd, fs, n) && forall e :: e in fs ==> Naks(e)
    ensures n == m.(poll := Asking(m.data, 0), tally := Start(m.tally))
  {
    var k := Next(m, cmd, Open);
    n := Next(k, cmd, Reach(true));
    fs := es + [Open] + [Reach(true)];
    assert Enabled(m, Open) && Enabled(k, Reach(true));
    hide Next, Enabled;
    RunsOn(cmd, es, m, Open);
    RunsOn(cmd, es + [Open], k, Reach(true));
  }

  /** The device times out and the cycle ends. */
  lemma TimeOut(cmd: Command, es: seq<Event>, m: Life) returns (fs: seq<Event>, n: Life)
    requires Runs(NEW_LIFE, cmd, es, m) && (forall e :: e in es ==> Naks(e))
    requires !m.poll.Idle? && m.pair == NEW_PAIR
    ensures Rested(cmd, fs, n) && n.tally == Stop(m.tally, m.poll)
  {
    var k := Next(m, cmd, TimesOut);
    n := Next(k, cmd, Publish);
    fs := es + [TimesOut] + [Publish];
    assert Enabled(m, TimesOut) && Enabled(k, Publish);
    hide Next, Enabled;
    RunsOn(cmd, es, m, TimesOut);
    RunsOn(cmd, es + [TimesOut], k, Publish);
  }

  lemma CutOnce(cmd: Command, es: seq<Event>, m: Life) returns (fs: seq<Event>, n: Life)
    requires Rested(cmd, es, m)
    ensures Rested(cmd, fs, n)
    ensures n.tally == m.tally.(started := m.tally.started + 1, cut := m.tally.cut + 1)
  {
    var gs, k := AskOnce(cmd, es, m);
    hide Rested;
    fs, n := TimeOut(cmd, gs, k);
  }

  lemma NakThenCleared(m: Life, cmd: Command, nak: Reply, good: Section)
    requires m.pair == NEW_PAIR && m.poll.Asking? && m.poll.attempt == 0 && IsNak(nak) && Acceptable(cmd, good)
    ensures
      var rested := OnAnswer(m, cmd, nak);
      var cleared := OnForcedRead(rested, cmd, Dict(good));
      && rested == m.(pair := Pair(false, 1, 0), poll := Resting(m.poll.previous),
                      tally := m.tally.(judged := m.tally.judged + 1))
      && cleared.pair == NEW_PAIR && cleared.poll == rested.poll
      && cleared.tally == rested.tally.(cleared := m.tally.cleared + 1)
  {
    AcceptableReplies(cmd, Dict(good));
    hide IsNak, Acceptable;
  }

  lemma ClearOnce(cmd: Command, es: seq<Event>, m: Life, nak: Reply, good: Section)
    returns (fs: seq<Event>, n: Life)
    requires Rested(cmd, es, m) && IsNak(nak) && Acceptable(cmd, good)
    ensures Rested(cmd, fs, n)
    ensures n.tally == m.tally.(
      started := m.tally.started + 1, judged := m.tally.judged + 1, cleared := m.tally.cleared + 1)
  {
    var gs, k := AskOnce(cmd, es, m);
    NakThenCleared(k, cmd, nak, good);
    var l := OnAnswer(k, cmd, nak);
    hide Rested, OnAnswer, OnForcedRead, IsNak, Acceptable;
    RunsOn(cmd, gs, k, Answer(nak));
    RunsOn(cmd, gs + [Answer(nak)], l, ForcedRead(Dict(good)));
    fs, n := TimeOut(cmd, gs + [Answer(nak)] + [ForcedRead(Dict(good))], OnForcedRead(l, cmd, Dict(good)));
  }

  lemma SecondNak(m: Life, cmd: Command, nak: Reply)
    requires m.pair == Pair(false, 1, 0) && m.poll.Asking? && IsNak(nak)
    ensures OnAnswer(m, cmd, nak).tally == m.tally.(judged := m.tally.judged + 1, finished := m.tally.finished + 1)
  {
  }

  /** The last poll: two NAKs. */
  lemma NakTwice(cmd: Command, es: seq<Event>, m: Life, nak: Reply, good: Section)
    returns (fs: seq<Event>, n: Life)
    requires Rested(cmd, es, m) && IsNak(nak) && Acceptable(cmd, good)
    ensures Runs(NEW_LIFE, cmd, fs, n) && forall e :: e in fs ==> Naks(e)
    ensures n.tally.started == m.tally.started + 2 && n.tally.judged == m.tally.judged + 2
    ensures n.tally.cut == m.tally.cut && n.tally.cleared == m.tally.cleared
  {
    var gs, k := AskOnce(cmd, es, m);
    NakThenCleared(k, cmd, nak, good);
    var l := OnAnswer(k, cmd, nak);
    var a := Next(l, cmd, Retry);
    assert Enabled(l, Retry) && Enabled(a, Answer(nak));
    SecondNak(a, cmd, nak);
    hide Rested, OnAnswer, IsNak, Acceptable;
    n := Next(a, cmd, Answer(nak));
    RunsOn(cmd, gs, k, Answer(nak));
    RunsOn(cmd, gs + [Answer(nak)], l, Retry);
    RunsOn(cmd, gs + [Answer(nak)] + [Retry], a, Answer(nak));
    fs := gs + [Answer(nak)] + [Retry] + [Answer(nak)];
  }

  lemma {:induction false} CutAndClear(cmd: Command, nak: Reply, good: Section, cuts: nat, clears: nat)
    returns (es: seq<Event>, n: Life)
    requires IsNak(nak) && Acceptable(cmd, good)
    ensures Rested(cmd, es, n) && n.tally == Tally(cuts + clears, clears, cuts, clears, 0)
    decreases cuts + clears
  {
    if cuts > 0 {
      var fs, k := CutAndClear(cmd, nak, good, cuts - 1, clears);
      hide Rested;
      es, n := CutOnce(cmd, fs, k);
    } else if clears > 0 {
      var fs, k := CutAndClear(cmd, nak, good, cuts, clears - 1);
      hide Rested;
      es, n := ClearOnce(cmd, fs, k, nak, good);
    } else {
      es, n := [], NEW_LIFE;
    }
  }

  /** Both bounds are met, for any number of cut transactions and accepted forced reads: a
      device whose NAKs come too late is asked without limit. */
  lemma NakCostIsReached(cmd: Command, nak: Reply, good: Section, cuts: nat, clears: nat)
    returns (es: seq<Event>, n: Life)
    requires IsNak(nak) && Acceptable(cmd, good)
    ensures Runs(NEW_LIFE, cmd, es, n) && forall e :: e in es ==> Naks(e)
    ensures n.tally.cut == cuts && n.tally.cleared == clears
    ensures n.tally.judged == 2 + clears && n.tally.started == 2 + cuts + clears
  {
    var fs, k := CutAndClear(cmd, nak, good, cuts, clears);
    hide Rested;
    es, n := NakTwice(cmd, fs, k, nak, good);
  }

  // ---------------------------------------------------------------- undisturbed polls

  /** The section that a poll accepts, if any. */
  function Acceptance(p: Pair, cmd: Command, replies: seq<Reply>, attempt: nat): Option<Section>
    requires attempt <= |replies|
    decreases |replies| - attempt
  {
    if attempt == |replies| then None
    else
      var judged := Judge(p, cmd, replies[attempt]);
      match judged.1
      case Accepted(section) => Some(section)
      case Suppressed => None
      case Rejected => Acceptance(judged.0, cmd, replies, attempt + 1)
  }

  /** What a due poll of a command that is not suppressed comes to. */
  ghost predicate PollResult(
      p: Pair, cmd: Command, previous: Section, accepted: Option<Section>, q: Pair, section: Section)
  {
    match accepted
    case Some(s) => q == Pair(false, 0, 0) && section == s && Acceptable(cmd, s)
    case None =>
      || (q.unsupported && section == previous)
      || (!q.unsupported && q.failures == p.failures + 1 &&
          section == if q.failures < MAX_CONSECUTIVE_FAILURES then previous else map[])
  }

  lemma TwoAttempts(p: Pair, cmd: Command, previous: Section, replies: seq<Reply>)
    requires |replies| == 2
    ensures
      var first := Judge(p, cmd, replies[0]);
      var second := Judge(first.0, cmd, replies[1]);
      && FetchFrom(p, cmd, previous, replies, 0) ==
           (match first.1
            case Accepted(section) => (first.0, section)
            case Suppressed => (first.0, Clean(previous))
            case Rejected =>
              match second.1
              case Accepted(section) => (second.0, section)
              case Suppressed => (second.0, Clean(previous))
              case Rejected => GiveUp(second.0, previous))
      && Acceptance(p, cmd, replies, 0) ==
           (if first.1.Accepted? then Some(first.1.section)
            else if first.1.Rejected? && second.1.Accepted? then Some(second.1.section) else None)
  {
    hide Judge, Resolve, Clean;
    var first := Judge(p, cmd, replies[0]);
    var second := Judge(first.0, cmd, replies[1]);
    assert FetchFrom(second.0, cmd, previous, replies, 2) == GiveUp(second.0, previous);
    assert Acceptance(second.0, cmd, replies, 2) == None;
  }

  lemma JudgeCases(p: Pair, cmd: Command, r: Reply)
    requires !p.unsupported
    ensures
      var judged := Judge(p, cmd, r);
      match judged.1
      case Accepted(section) => judged.0 == Pair(false, 0, 0) && Acceptable(cmd, section)
      case Suppressed => judged.0.unsupported
      case Rejected => !judged.0.unsupported && judged.0.failures == p.failures
  {
    hide IsNak, Acceptable;
  }

  lemma FetchHasPollResult(p: Pair, cmd: Command, previous: Section, replies: seq<Reply>)
    requires !p.unsupported && |replies| == 2 && Clean(previous) == previous
    ensures
      var fetched := Fetch(p, cmd, previous, replies);
      PollResult(p, cmd, previous, Acceptance(p, cmd, replies, 0), fetched.0, fetched.1)
  {
    var first := Judge(p, cmd, replies[0]);
    JudgeCases(p, cmd, replies[0]);
    if !first.0.unsupported {
      JudgeCases(first.0, cmd, replies[1]);
    }
    TwoAttempts(p, cmd, previous, replies);
    hide Judge, Acceptable, Clean, FetchFrom, Acceptance;
  }

  /** A poll that nothing interrupts comes to the pair and the section of `Fetch`, with the
      second transaction only where the first one settles nothing. */
  lemma UndisturbedPollIsFetch(m: Life, cmd: Command, replies: seq<Reply>)
    requires m.poll.Ready? && |replies| == 2
    ensures
      var begun := OnReach(m, true);
      var once := if begun.poll.Asking? then OnAnswer(begun, cmd, replies[0]) else begun;
      var again := if once.poll.Resting? then Next(once, cmd, Retry) else once;
      var twice := if again.poll.Asking? then OnAnswer(again, cmd, replies[1]) else again;
      twice.poll.Polled? && (twice.pair, twice.poll.section) == Fetch(m.pair, cmd, m.poll.previous, replies)
  {
    TwoAttempts(m.pair, cmd, m.poll.previous, replies);
    hide Judge, Resolve, Clean, FetchFrom;
  }
}

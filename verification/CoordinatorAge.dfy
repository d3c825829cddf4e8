/** How old the published section of a command can be.

    The runs are those of CoordinatorLife, with all their interleavings; beside them every
    acceptance is numbered, and the numbers follow the sections through the snapshot of a
    cycle, its poll and its publication.
 */
module CoordinatorAge {
  import opened Coordinator
  import opened Wrappers
  import L = CoordinatorLife

  /** An acceptance: its section, the cycle in which it was polled or after which it was
      forced, and how many cuts and overwrites there had been. */
  datatype Entry = Entry(section: Section, stamp: int, cuts: int, overs: int)

  /** `cycle` cycles are complete.  `shown`, `previous` and `gathered` are the numbers of the
      acceptances, from 1, whose sections are published, were published when the cycle
      began, and will be published when it ends; 0 is for none, and a section that has
      been dropped keeps its number.  `cuts` counts timeouts and failures of cycles in
      which the command is due, `overs` the cycles that ended by publishing an older
      acceptance than was published already. */
  datatype Watch = Watch(
    life: L.Life, cycle: nat, history: seq<Entry>,
    shown: nat, previous: nat, gathered: nat, cuts: nat, overs: nat)

  const NEW_WATCH := Watch(L.NEW_LIFE, 0, [], 0, 0, 0, 0, 0)

  predicate Due(n: int, cmd: Command) { n % Cadence(cmd) == 0 }

  predicate Enabled(w: Watch, cmd: Command, e: L.Event)
  {
    L.Enabled(w.life, e) && (e.Reach? ==> e.due == Due(w.cycle, cmd))
  }

  function Accept(w: Watch, section: Section, stamp: int): Watch
  {
    w.(history := w.history + [Entry(section, stamp, w.cuts, w.overs)])
  }

  function CountCut(w: Watch, cmd: Command): Watch
  {
    if Due(w.cycle, cmd) then w.(cuts := w.cuts + 1) else w
  }

  /** What happens to the numbers. */
  function Number(w: Watch, cmd: Command, e: L.Event): Watch
    requires Enabled(w, cmd, e)
  {
    match e
    case Open => w.(previous := w.shown)
    case Reach(_) => w.(gathered := w.previous)
    case Answer(r) =>
      (match Judge(w.life.pair, cmd, r).1
       case Accepted(section) => Accept(w, section, w.cycle).(gathered := |w.history| + 1)
       case _ => w.(gathered := w.previous))
    case Retry => w
    case TimesOut => CountCut(w, cmd).(gathered := w.previous)
    case CycleFails => CountCut(w, cmd)
    case Publish =>
      w.(shown := w.gathered, cycle := w.cycle + 1, overs := if w.gathered < w.shown then w.overs + 1 else w.overs)
    case Absent => w.(cycle := w.cycle + 1)
    case ForcedRead(r) =>
      (match Refresh(w.life.pair, cmd, r).1
       case None => w
       case Some(section) => Accept(w, section, w.cycle - 1).(shown := |w.history| + 1))
  }

  function Next(w: Watch, cmd: Command, e: L.Event): Watch
    requires Enabled(w, cmd, e)
  {
    Number(w, cmd, e).(life := L.Next(w.life, cmd, e))
  }

  /** The state that `es` lead to, if each of them is enabled in its turn. */
  function After(w: Watch, cmd: Command, es: seq<L.Event>): Option<Watch>
  {
    if es == [] then Some(w)
    else
      var last := es[|es| - 1];
      match After(w, cmd, es[..|es| - 1])
      case None => None
      case Some(prior) => if Enabled(prior, cmd, last) then Some(Next(prior, cmd, last)) else None
  }

  lemma {:induction false} AfterIsLife(cmd: Command, es: seq<L.Event>, w: Watch)
    requires After(NEW_WATCH, cmd, es) == Some(w)
    ensures L.Runs(L.NEW_LIFE, cmd, es, w.life)
    decreases |es|
  {
    if es != [] {
      var n := |es| - 1;
      var prior := After(NEW_WATCH, cmd, es[..n]).value;
      AfterIsLife(cmd, es[..n], prior);
      hide Number, L.Next;
      L.RunsOn(cmd, es[..n], prior.life, es[n]);
      assert es[..n] + [es[n]] == es;
    }
  }

  // ---------------------------------------------------------------- the numbers are right

  predicate Numbered(w: Watch, section: Section, q: nat)
  {
    q <= |w.history| && (section != map[] ==> q >= 1 && section == w.history[q - 1].section)
  }

  /** The numbers name the sections, and a forced read only makes the published one newer. */
  predicate NumbersOk(w: Watch)
  {
    && Numbered(w, w.life.data, w.shown)
    && (!w.life.poll.Idle? ==>
          && Numbered(w, w.life.poll.previous, w.previous) && w.previous <= w.shown
          && (w.shown == w.previous ==> w.life.data == w.life.poll.previous))
    && (w.life.poll.Polled? ==>
          && Numbered(w, w.life.poll.section, w.gathered) && w.previous <= w.gathered
          && (w.gathered == w.previous && w.life.poll.section != map[] ==>
                w.life.poll.section == w.life.poll.previous))
  }

  lemma AnswerKeepsNumbersOk(w: Watch, cmd: Command, r: Reply)
    requires NumbersOk(w) && L.LifeOk(w.life, cmd) && w.life.poll.Asking?
    ensures NumbersOk(Next(w, cmd, L.Answer(r)))
  {
    L.CleanIsGenuine(w.life, cmd, w.life.poll.previous);
    hide L.LifeOk, Judge, Clean;
  }

  lemma ForcedReadKeepsNumbersOk(w: Watch, cmd: Command, r: Reply)
    requires NumbersOk(w)
    ensures NumbersOk(Next(w, cmd, L.ForcedRead(r)))
  {
    hide Refresh;
  }

  lemma ReachKeepsNumbersOk(w: Watch, cmd: Command, due: bool)
    requires NumbersOk(w) && L.LifeOk(w.life, cmd) && Enabled(w, cmd, L.Reach(due))
    ensures NumbersOk(Next(w, cmd, L.Reach(due)))
  {
    L.CleanIsGenuine(w.life, cmd, w.life.poll.previous);
    hide L.LifeOk, Clean, Due;
  }

  lemma NextKeepsNumbersOk(w: Watch, cmd: Command, e: L.Event)
    requires NumbersOk(w) && L.LifeOk(w.life, cmd) && Enabled(w, cmd, e)
    ensures NumbersOk(Next(w, cmd, e))
  {
    match e
    case Answer(r) =>
      AnswerKeepsNumbersOk(w, cmd, r);
      hide Next, NumbersOk;
    case ForcedRead(r) =>
      ForcedReadKeepsNumbersOk(w, cmd, r);
      hide Next, NumbersOk;
    case Reach(due) =>
      ReachKeepsNumbersOk(w, cmd, due);
      hide Next, NumbersOk;
    case _ =>
      hide L.LifeOk, Due;
  }

  // ---------------------------------------------------------------- the age is bounded

  predicate Present(section: Section) { section != map[] }

  /** What the numbers have to do with each other and with empty sections. */
  predicate Ordered(w: Watch)
  {
    var poll := w.life.poll;
    && w.shown <= |w.history| && (Present(w.life.data) ==> w.shown >= 1)
    && (!poll.Idle? ==>
          && w.previous <= w.shown && (Present(poll.previous) ==> w.previous >= 1)
          && (w.shown == w.previous ==> (Present(w.life.data) <==> Present(poll.previous))))
    && (poll.Polled? ==>
          && w.previous <= w.gathered <= |w.history| && (Present(poll.section) ==> w.gathered >= 1)
          && (w.gathered == w.previous && Present(poll.section) ==> Present(poll.previous)))
  }

  lemma NumbersAreOrdered(w: Watch)
    requires NumbersOk(w)
    ensures Ordered(w)
  {
  }

  /** How often the command is polled from cycle 1 to cycle `n`. */
  function PollsUpTo(n: int, cmd: Command): int { n / Cadence(cmd) }

  predicate Known(w: Watch, q: nat) { 1 <= q <= |w.history| }

  /** The cycles in which the command was due since acceptance `q`. */
  function PollsSince(w: Watch, cmd: Command, q: nat): int
    requires Known(w, q)
  {
    PollsUpTo(w.cycle - 1, cmd) - PollsUpTo(w.history[q - 1].stamp, cmd)
  }

  /** The cuts and overwrites since acceptance `q`. */
  function LossesSince(w: Watch, q: nat): int
    requires Known(w, q)
  {
    w.cuts - w.history[q - 1].cuts + w.overs - w.history[q - 1].overs
  }

  /** A section with number `q` has survived its polls so far, and `polls` more. */
  predicate Within(w: Watch, cmd: Command, q: nat, polls: int, failures: int)
  {
    && Known(w, q) && w.history[q - 1].stamp < w.cycle
    && PollsSince(w, cmd, q) + polls <= 6 * LossesSince(w, q) + Least(failures, 5)
  }

  predicate StampedAt(w: Watch, q: nat, stamp: int) { Known(w, q) && w.history[q - 1].stamp == stamp }

  predicate EntryOk(w: Watch, q: nat)
  {
    Known(w, q) ==>
      w.history[q - 1].cuts <= w.cuts && w.history[q - 1].overs <= w.overs && -1 <= w.history[q - 1].stamp <= w.cycle
  }

  ghost predicate EntriesOk(w: Watch) { forall q :: EntryOk(w, q) }

  /** While a cycle has not been overtaken by a forced read, every failure stands for a poll
      since the acceptance of its snapshot. */
  predicate CycleAgeOk(w: Watch, cmd: Command)
    requires !w.life.poll.Idle?
  {
    var poll, f := w.life.poll, w.life.pair.failures;
    && (poll.Asking? || poll.Resting? ==> Due(w.cycle, cmd))
    && (w.shown > w.previous ==> StampedAt(w, w.shown, w.cycle - 1))
    && (poll.Polled? && w.gathered > w.previous ==> StampedAt(w, w.gathered, w.cycle) && Due(w.cycle, cmd))
    && (poll.Polled? && !Due(w.cycle, cmd) ==> (Present(poll.section) <==> Present(poll.previous)))
    && (Present(poll.previous) ==>
          && Within(w, cmd, w.previous, 0, 5)
          && (w.shown == w.previous && !poll.Polled? ==> Within(w, cmd, w.previous, 0, f))
          && (w.shown == w.previous == w.gathered && poll.Polled? && Present(poll.section) ==>
                Within(w, cmd, w.previous, if Due(w.cycle, cmd) then 1 else 0, f)))
  }

  ghost predicate AgeOk(w: Watch, cmd: Command)
  {
    w.life.pair.failures >= 0 && EntriesOk(w) &&
    (!w.life.pair.unsupported ==>
      if w.life.poll.Idle?
      then Present(w.life.data) ==> Within(w, cmd, w.shown, 0, w.life.pair.failures)
      else CycleAgeOk(w, cmd))
  }

  /** The schedule: telemetry every cycle, mode and second input every other one, warnings and
      faults every third, ratings every sixth. */
  lemma ScheduleExactly(w: Watch, cmd: Command, due: bool)
    requires w.life.poll.Ready?
    ensures
      var every :=
        if cmd == QPIGS then 1
        else if cmd == QMOD || cmd == QPIGS2 then 2
        else if cmd == QPIWS || cmd == QFWS then 3
        else 6;
      Enabled(w, cmd, L.Reach(due)) <==> (due <==> w.cycle % every == 0)
  {
  }

  /** What counts as a loss: a timeout or a failure of a cycle in which the command is due, and
      an end of a cycle that publishes an older acceptance. */
  lemma LossesAreCounted(w: Watch, cmd: Command, e: L.Event)
    requires Enabled(w, cmd, e)
    ensures
      var cut := (e.TimesOut? || e.CycleFails?) && w.cycle % Cadence(cmd) == 0;
      var overwritten := e.Publish? && Next(w, cmd, e).shown < w.shown;
      && Next(w, cmd, e).cuts == w.cuts + (if cut then 1 else 0)
      && Next(w, cmd, e).overs == w.overs + (if overwritten then 1 else 0)
  {
    hide Judge, Refresh;
  }

  lemma PollsStep(n: int, cmd: Command)
    ensures PollsUpTo(n, cmd) == PollsUpTo(n - 1, cmd) + if Due(n, cmd) then 1 else 0
  {
  }

  lemma ReplyEffects(p: Pair, cmd: Command, r: Reply)
    requires p.failures >= 0
    ensures
      var judged := Judge(p, cmd, r);
      && judged.0.failures >= 0 && (p.unsupported ==> judged.0.unsupported)
      && (judged.1.Suppressed? ==> judged.0.unsupported)
      && (judged.1.Rejected? ==> judged.0.failures == p.failures)
    ensures
      var read := Refresh(p, cmd, r);
      && read.0.failures >= 0 && (p.unsupported ==> read.0.unsupported)
      && (read.1.None? ==> read.0.failures == p.failures)
  {
    hide IsNak, Acceptable;
  }

  // Each event is reduced to what it changes for the age.

  /** The cycle stays, and so do the acceptances but for one more. */
  predicate SameCycle(w: Watch, n: Watch)
  {
    && n.cycle == w.cycle && n.previous == w.previous && n.cuts == w.cuts && n.overs == w.overs
    && n.life.pair.failures >= 0 && (w.life.pair.unsupported ==> n.life.pair.unsupported)
  }

  predicate Grown(w: Watch, n: Watch, stamp: int)
  {
    && |n.history| == |w.history| + 1
    && (forall i :: 0 <= i < |w.history| ==> n.history[i] == w.history[i])
    && n.history[|w.history|].stamp == stamp
    && n.history[|w.history|].cuts == w.cuts && n.history[|w.history|].overs == w.overs
  }

  lemma GrownKeepsEntriesOk(w: Watch, n: Watch, stamp: int)
    requires EntriesOk(w) && SameCycle(w, n) && -1 <= stamp <= w.cycle
    requires n.history == w.history || Grown(w, n, stamp)
    ensures EntriesOk(n)
  {
    forall q ensures EntryOk(n, q) { assert EntryOk(w, q); }
  }

  lemma GrownKeepsWithin(w: Watch, n: Watch, cmd: Command, q: nat, polls: int, f: int, stamp: int)
    requires SameCycle(w, n) && Within(w, cmd, q, polls, f)
    requires n.history == w.history || Grown(w, n, stamp)
    ensures Within(n, cmd, q, polls, f)
  {
  }

  lemma MoreLossesKeepEntriesOk(w: Watch, n: Watch)
    requires EntriesOk(w) && n.history == w.history
    requires n.cuts >= w.cuts && n.overs >= w.overs && n.cycle >= w.cycle
    ensures EntriesOk(n)
  {
    forall q ensures EntryOk(n, q) { assert EntryOk(w, q); }
  }

  /** A section that is stamped before this cycle and has not been polled since. */
  lemma NewlyStamped(w: Watch, cmd: Command, q: nat, f: int)
    requires EntriesOk(w) && StampedAt(w, q, w.cycle - 1) && f >= 0
    ensures Within(w, cmd, q, 0, f)
  {
    assert EntryOk(w, q);
  }

  lemma ReachKeepsAgeOk(w: Watch, cmd: Command, due: bool)
    requires Ordered(w) && AgeOk(w, cmd) && Enabled(w, cmd, L.Reach(due)) && Ordered(Next(w, cmd, L.Reach(due)))
    ensures AgeOk(Next(w, cmd, L.Reach(due)), cmd)
  {
    MoreLossesKeepEntriesOk(w, Next(w, cmd, L.Reach(due)));
    hide Due, PollsUpTo, Clean, Present, EntriesOk;
  }

  /** What a reply to a poll comes to. */
  predicate Answered(w: Watch, n: Watch)
    requires w.life.poll.Asking?
  {
    && SameCycle(w, n) && n.shown == w.shown && n.life.data == w.life.data
    && !n.life.poll.Idle? && !n.life.poll.Asking? && n.life.poll.previous == w.life.poll.previous
    && (n.history == w.history || Grown(w, n, w.cycle))
    && (|| n.life.pair.unsupported
        || (n.life.poll.Polled? && n.gathered == |n.history| && Grown(w, n, w.cycle))
        || (n.gathered == n.previous && n.history == w.history
            && ((n.life.poll.Resting? && n.life.pair.failures == w.life.pair.failures)
                || (n.life.poll.Polled? && n.life.pair.failures == w.life.pair.failures + 1
                    && (Present(n.life.poll.section) ==> n.life.pair.failures < 6)))))
  }

  lemma AnswerIsAnswered(w: Watch, cmd: Command, r: Reply)
    requires w.life.pair.failures >= 0 && w.life.poll.Asking?
    ensures Answered(w, Next(w, cmd, L.Answer(r)))
  {
    ReplyEffects(w.life.pair, cmd, r);
    hide Due, Clean, Judge, Refresh;
  }

  lemma AnsweredKeepsAgeOk(w: Watch, cmd: Command, n: Watch)
    requires Ordered(w) && AgeOk(w, cmd) && w.life.poll.Asking? && Answered(w, n) && Ordered(n)
    ensures AgeOk(n, cmd)
  {
    GrownKeepsEntriesOk(w, n, w.cycle);
    hide EntriesOk, Due, PollsUpTo, Present;
  }

  lemma AnswerKeepsAgeOk(w: Watch, cmd: Command, r: Reply)
    requires Ordered(w) && AgeOk(w, cmd) && Enabled(w, cmd, L.Answer(r)) && Ordered(Next(w, cmd, L.Answer(r)))
    ensures AgeOk(Next(w, cmd, L.Answer(r)), cmd)
  {
    AnswerIsAnswered(w, cmd, r);
    hide Answered, Next, Ordered, CycleAgeOk, EntriesOk;
    AnsweredKeepsAgeOk(w, cmd, Next(w, cmd, L.Answer(r)));
  }

  lemma TimeoutKeepsAgeOk(w: Watch, cmd: Command)
    requires Ordered(w) && AgeOk(w, cmd) && Enabled(w, cmd, L.TimesOut) && Ordered(Next(w, cmd, L.TimesOut))
    ensures AgeOk(Next(w, cmd, L.TimesOut), cmd)
  {
    MoreLossesKeepEntriesOk(w, Next(w, cmd, L.TimesOut));
    hide Due, PollsUpTo, EntriesOk, Present;
  }

  lemma FailureKeepsAgeOk(w: Watch, cmd: Command)
    requires Ordered(w) && AgeOk(w, cmd) && Enabled(w, cmd, L.CycleFails) && Ordered(Next(w, cmd, L.CycleFails))
    ensures AgeOk(Next(w, cmd, L.CycleFails), cmd)
  {
    var n := Next(w, cmd, L.CycleFails);
    MoreLossesKeepEntriesOk(w, n);
    if !w.life.pair.unsupported && Present(w.life.data) {
      if w.shown > w.previous {
        NewlyStamped(n, cmd, w.shown, n.life.pair.failures);
      } else {
        CutKeepsWithin(w, cmd, n);
      }
    }
    hide Due, PollsUpTo, EntriesOk, Present, Within, StampedAt, CycleAgeOk;
  }

  lemma CutKeepsWithin(w: Watch, cmd: Command, n: Watch)
    requires Ordered(w) && !w.life.poll.Idle? && CycleAgeOk(w, cmd)
    requires Present(w.life.poll.previous) && w.shown == w.previous
    requires n == CountCut(w, cmd).(life := n.life) && n.life.pair == w.life.pair && w.life.pair.failures >= 0
    ensures Within(n, cmd, w.shown, 0, w.life.pair.failures)
  {
    hide Due, PollsUpTo, Present;
  }

  lemma OtherKeepsAgeOk(w: Watch, cmd: Command, e: L.Event)
    requires Ordered(w) && AgeOk(w, cmd) && Enabled(w, cmd, e) && Ordered(Next(w, cmd, e))
    requires e.Absent? || e.Open? || e.Retry?
    ensures AgeOk(Next(w, cmd, e), cmd)
  {
    MoreLossesKeepEntriesOk(w, Next(w, cmd, e));
    assert !Present(map[]);
    hide Due, PollsUpTo, EntriesOk, Present;
  }

  predicate Published(w: Watch, n: Watch)
    requires w.life.poll.Polled?
  {
    && n.life.data == w.life.poll.section && n.life.poll.Idle? && n.life.pair == w.life.pair
    && n.history == w.history && n.shown == w.gathered && n.cycle == w.cycle + 1 && n.cuts == w.cuts
    && n.overs == w.overs + if w.gathered < w.shown then 1 else 0
  }

  lemma OnePollLater(w: Watch, n: Watch, cmd: Command, q: nat, f: int)
    requires n.history == w.history && n.cycle == w.cycle + 1 && n.cuts == w.cuts && f >= 0
    requires n.overs == w.overs || n.overs == w.overs + 1
    requires
      || Within(w, cmd, q, if Due(w.cycle, cmd) then 1 else 0, f)
      || (Within(w, cmd, q, 0, 5) && n.overs == w.overs + 1)
      || (EntryOk(w, q) && StampedAt(w, q, w.cycle))
    ensures Within(n, cmd, q, 0, f)
  {
    PollsStep(w.cycle, cmd);
    hide PollsUpTo, Due;
  }

  /** The published acceptance is as old as the snapshot, or it is from this cycle. */
  lemma PublishedIsWithin(w: Watch, cmd: Command, n: Watch)
    requires Ordered(w) && w.life.poll.Polled? && Present(w.life.poll.section) && Published(w, n)
    requires EntriesOk(w) && CycleAgeOk(w, cmd) && w.life.pair.failures >= 0
    ensures Within(n, cmd, w.gathered, 0, w.life.pair.failures)
  {
    assert EntryOk(w, w.gathered);
    hide EntriesOk, EntryOk, Due, Within, Present, StampedAt;
    OnePollLater(w, n, cmd, w.gathered, w.life.pair.failures);
  }

  lemma PublishKeepsAgeOk(w: Watch, cmd: Command)
    requires Ordered(w) && AgeOk(w, cmd) && Enabled(w, cmd, L.Publish)
    ensures AgeOk(Next(w, cmd, L.Publish), cmd)
  {
    var n := Next(w, cmd, L.Publish);
    assert Published(w, n);
    hide Next;
    MoreLossesKeepEntriesOk(w, n);
    if !w.life.pair.unsupported && Present(w.life.poll.section) {
      PublishedIsWithin(w, cmd, n);
    }
    hide EntriesOk, Due, Within, CycleAgeOk, Present, Ordered;
  }

  /** What a forced read comes to: at most a suppression, or an acceptance. */
  predicate Forced(w: Watch, n: Watch)
  {
    && SameCycle(w, n) && n.gathered == w.gathered && n.life.poll == w.life.poll
    && (|| (n.shown == w.shown && n.life.data == w.life.data && n.history == w.history
            && n.life.pair.failures == w.life.pair.failures)
        || (n.shown == |n.history| && Grown(w, n, w.cycle - 1)))
  }

  lemma ForcedReadIsForced(w: Watch, cmd: Command, r: Reply)
    requires w.life.pair.failures >= 0
    ensures Forced(w, Next(w, cmd, L.ForcedRead(r)))
  {
    ReplyEffects(w.life.pair, cmd, r);
    hide Judge, Refresh;
  }

  lemma GrownKeepsStamp(w: Watch, n: Watch, q: nat, at: int, stamp: int)
    requires StampedAt(w, q, at) && Grown(w, n, stamp)
    ensures StampedAt(n, q, at)
  {
  }

  lemma OvertakenKeepsCycleAgeOk(w: Watch, cmd: Command, n: Watch)
    requires !w.life.poll.Idle? && Ordered(w) && CycleAgeOk(w, cmd)
    requires Grown(w, n, w.cycle - 1) && SameCycle(w, n)
    requires n.gathered == w.gathered && n.life.poll == w.life.poll && n.shown == |n.history|
    ensures CycleAgeOk(n, cmd)
  {
    if Present(w.life.poll.previous) {
      GrownKeepsWithin(w, n, cmd, w.previous, 0, 5, w.cycle - 1);
    }
    if w.life.poll.Polled? && w.gathered > w.previous {
      GrownKeepsStamp(w, n, w.gathered, w.cycle, w.cycle - 1);
    }
    assert StampedAt(n, n.shown, n.cycle - 1);
    assert n.shown > n.previous;
    hide Within, StampedAt, Grown, Due, Present;
  }

  lemma ForcedKeepsAgeOk(w: Watch, cmd: Command, n: Watch)
    requires Ordered(w) && AgeOk(w, cmd) && Forced(w, n)
    ensures AgeOk(n, cmd)
  {
    if n.history == w.history {
      hide AgeOk, Ordered;
      NothingNewKeepsAgeOk(w, cmd, n);
    } else {
      GrownKeepsEntriesOk(w, n, w.cycle - 1);
      NewSectionIsWithin(w, cmd, n);
      hide EntriesOk, Within, Present, Grown, Due, Ordered, CycleAgeOk;
      if !n.life.pair.unsupported && !w.life.poll.Idle? {
        OvertakenKeepsCycleAgeOk(w, cmd, n);
      }
    }
  }

  lemma NothingNewKeepsAgeOk(w: Watch, cmd: Command, n: Watch)
    requires AgeOk(w, cmd) && Forced(w, n) && n.history == w.history
    ensures AgeOk(n, cmd)
  {
    GrownKeepsEntriesOk(w, n, w.cycle - 1);
    forall q: nat, polls, f | Within(w, cmd, q, polls, f) ensures Within(n, cmd, q, polls, f) {
      GrownKeepsWithin(w, n, cmd, q, polls, f, w.cycle - 1);
    }
    hide Due, PollsUpTo, EntriesOk, Present, Within, Grown;
  }

  lemma NewSectionIsWithin(w: Watch, cmd: Command, n: Watch)
    requires EntriesOk(n) && n.shown == |n.history| && Grown(w, n, n.cycle - 1) && n.life.pair.failures >= 0
    ensures Within(n, cmd, n.shown, 0, n.life.pair.failures)
  {
    hide EntriesOk, Within;
    NewlyStamped(n, cmd, n.shown, n.life.pair.failures);
  }

  lemma ForcedReadKeepsAgeOk(w: Watch, cmd: Command, r: Reply)
    requires Ordered(w) && AgeOk(w, cmd)
    ensures AgeOk(Next(w, cmd, L.ForcedRead(r)), cmd)
  {
    ForcedReadIsForced(w, cmd, r);
    hide Forced, Next, Ordered, CycleAgeOk, EntriesOk;
    ForcedKeepsAgeOk(w, cmd, Next(w, cmd, L.ForcedRead(r)));
  }

  lemma NextKeepsAgeOk(w: Watch, cmd: Command, e: L.Event)
    requires NumbersOk(w) && AgeOk(w, cmd) && Enabled(w, cmd, e) && NumbersOk(Next(w, cmd, e))
    ensures AgeOk(Next(w, cmd, e), cmd)
  {
    NumbersAreOrdered(w);
    NumbersAreOrdered(Next(w, cmd, e));
    hide NumbersOk, AgeOk, Next, Ordered;
    match e
    case Reach(due) => ReachKeepsAgeOk(w, cmd, due);
    case Answer(r) => AnswerKeepsAgeOk(w, cmd, r);
    case TimesOut => TimeoutKeepsAgeOk(w, cmd);
    case CycleFails => FailureKeepsAgeOk(w, cmd);
    case Publish => PublishKeepsAgeOk(w, cmd);
    case ForcedRead(r) => ForcedReadKeepsAgeOk(w, cmd, r);
    case _ => OtherKeepsAgeOk(w, cmd, e);
  }

  lemma {:induction false} ReachableIsOk(cmd: Command, es: seq<L.Event>, w: Watch)
    requires After(NEW_WATCH, cmd, es) == Some(w)
    ensures L.LifeOk(w.life, cmd) && NumbersOk(w) && AgeOk(w, cmd)
    decreases |es|
  {
    if es == [] {
      assert forall q :: EntryOk(w, q);
    } else {
      var n := |es| - 1;
      var prior := After(NEW_WATCH, cmd, es[..n]).value;
      ReachableIsOk(cmd, es[..n], prior);
      L.NextKeepsLifeOk(prior.life, cmd, es[n]);
      hide L.LifeOk, NumbersOk, AgeOk, Number, L.Next;
      NextKeepsNumbersOk(prior, cmd, es[n]);
      NextKeepsAgeOk(prior, cmd, es[n]);
    }
  }

  /** How long ago the published section was accepted, in cycles. */
  function Age(w: Watch): int
    requires Known(w, w.shown)
  {
    w.cycle - 1 - w.history[w.shown - 1].stamp
  }

  lemma ShownIsWithin(w: Watch, cmd: Command)
    requires Ordered(w) && AgeOk(w, cmd) && Present(w.life.data) && !w.life.pair.unsupported
    ensures Within(w, cmd, w.shown, 0, 5)
  {
    if !w.life.poll.Idle? && w.shown > w.previous {
      NewlyStamped(w, cmd, w.shown, 5);
    }
    hide EntriesOk, Due, PollsUpTo, Present;
  }

  lemma AgeFromPolls(n: int, s: int, cmd: Command, k: int)
    requires k >= 0 && PollsUpTo(n, cmd) - PollsUpTo(s, cmd) < 6 * (k + 1)
    ensures n - s <= 6 * Cadence(cmd) * (k + 1) - 1
  {
    match cmd case QPIGS => case QMOD => case QPIGS2 => case QPIWS => case QFWS => case QPIRI =>
  }

  /** A section that is published by a command that is not suppressed was accepted at most
      six polls ago, and six more for each cut and for each overwrite since then. */
  lemma AgeIsBounded(cmd: Command, es: seq<L.Event>, w: Watch)
    requires After(NEW_WATCH, cmd, es) == Some(w)
    requires w.life.data != map[] && !w.life.pair.unsupported
    ensures Known(w, w.shown) && w.life.data == w.history[w.shown - 1].section
    ensures 0 <= Age(w) <= 6 * Cadence(cmd) * (LossesSince(w, w.shown) + 1) - 1
  {
    ReachableIsOk(cmd, es, w);
    NumbersAreOrdered(w);
    assert EntryOk(w, w.shown);
    ShownIsWithin(w, cmd);
    hide After, AgeOk, L.LifeOk, PollsUpTo, Cadence, Ordered;
    AgeFromPolls(w.cycle - 1, w.history[w.shown - 1].stamp, cmd, LossesSince(w, w.shown));
  }

  // ---------------------------------------------------------------- which acceptance is published

  /** The event publishes the acceptance that is the last one then. */
  predicate Shows(w: Watch, cmd: Command, e: L.Event)
  {
    match e
    case ForcedRead(r) => Refresh(w.life.pair, cmd, r).1.Some?
    case Publish => w.gathered == |w.history|
    case _ => false
  }

  /** A timeout or a failure of the cycle discards the last acceptance, which was still to
      be published. */
  predicate Discards(w: Watch, e: L.Event)
  {
    (e.TimesOut? || e.CycleFails?) && w.life.poll.Polled? && w.gathered == |w.history| > w.shown
  }

  /** The end of the cycle publishes an older acceptance than a forced read had published. */
  predicate Overwrites(w: Watch, e: L.Event) { e.Publish? && w.gathered < w.shown }

  predicate Loses(w: Watch, e: L.Event) { Discards(w, e) || Overwrites(w, e) }

  /** The state before event `i`. */
  function At(cmd: Command, es: seq<L.Event>, i: nat): Watch
    requires i <= |es|
  {
    match After(NEW_WATCH, cmd, es[..i]) case Some(w) => w case None => NEW_WATCH
  }

  /** Event `i` loses the last acceptance, and none of the first `n` events shows one later. */
  ghost predicate LastsFrom(cmd: Command, es: seq<L.Event>, n: nat, i: int)
    requires n <= |es|
  {
    0 <= i < n && Loses(At(cmd, es, i), es[i]) && forall j :: i < j < n ==> !Shows(At(cmd, es, j), cmd, es[j])
  }

  /** The last acceptance was lost, and none has been published since. */
  ghost predicate LostSince(cmd: Command, es: seq<L.Event>)
  {
    exists i :: LastsFrom(cmd, es, |es|, i)
  }

  lemma LastsInPrefix(cmd: Command, es: seq<L.Event>, n: nat, i: int)
    requires n <= |es|
    ensures LastsFrom(cmd, es[..n], n, i) <==> LastsFrom(cmd, es, n, i)
  {
    hide Loses, Shows, After;
    forall j | 0 <= j < n ensures At(cmd, es, j) == At(cmd, es[..n], j) {
      assert es[..n][..j] == es[..j];
    }
    hide At;
  }

  lemma LostAtLastOrBefore(cmd: Command, es: seq<L.Event>)
    requires es != []
    ensures
      var n := |es| - 1;
      LostSince(cmd, es) <==>
        Loses(At(cmd, es, n), es[n]) || (LostSince(cmd, es[..n]) && !Shows(At(cmd, es, n), cmd, es[n]))
  {
    hide Loses, Shows, At;
    var n := |es| - 1;
    if LostSince(cmd, es) {
      var i :| LastsFrom(cmd, es, |es|, i);
      assert i < n ==> LastsFrom(cmd, es, n, i);
      LastsInPrefix(cmd, es, n, i);
    }
    if LostSince(cmd, es[..n]) {
      var i :| LastsFrom(cmd, es[..n], n, i);
      LastsInPrefix(cmd, es, n, i);
      assert !Shows(At(cmd, es, n), cmd, es[n]) ==> LastsFrom(cmd, es, |es|, i);
    }
    assert Loses(At(cmd, es, n), es[n]) ==> LastsFrom(cmd, es, |es|, n);
  }

  /** The last acceptance is published or still to be published, or it was lost. */
  predicate LatestOk(w: Watch, lost: bool)
  {
    && w.shown <= |w.history| && (w.life.poll.Polled? ==> w.gathered <= |w.history|)
    && (!w.life.poll.Idle? ==> w.previous <= w.shown)
    && (lost ==> w.shown < |w.history|)
    && (lost || w.shown == |w.history| || (w.life.poll.Polled? && w.gathered == |w.history|))
  }

  lemma NextKeepsLatestOk(w: Watch, cmd: Command, e: L.Event, lost: bool)
    requires LatestOk(w, lost) && Enabled(w, cmd, e)
    ensures LatestOk(Next(w, cmd, e), Loses(w, e) || (lost && !Shows(w, cmd, e)))
  {
    hide Judge, Refresh, Due, Clean, Resolve;
  }

  lemma {:induction false} ReachableLatestOk(cmd: Command, es: seq<L.Event>, w: Watch)
    requires After(NEW_WATCH, cmd, es) == Some(w)
    ensures LatestOk(w, LostSince(cmd, es))
    decreases |es|
  {
    if es != [] {
      var n := |es| - 1;
      var prior := After(NEW_WATCH, cmd, es[..n]).value;
      ReachableLatestOk(cmd, es[..n], prior);
      LostAtLastOrBefore(cmd, es);
      hide LatestOk, LostSince, Number, L.Next;
      NextKeepsLatestOk(prior, cmd, es[n], LostSince(cmd, es[..n]));
    }
  }

  /** Between cycles, the published section is the one that was accepted last if and only if
      no timeout or failure of a cycle has discarded the last acceptance, and no end of a
      cycle has overwritten it, since an acceptance was last published. */
  lemma LatestIsPublishedIff(cmd: Command, es: seq<L.Event>, w: Watch)
    requires After(NEW_WATCH, cmd, es) == Some(w) && w.life.poll.Idle?
    ensures w.shown == |w.history| <==> !LostSince(cmd, es)
    ensures w.life.data != map[] ==> Known(w, w.shown) && w.life.data == w.history[w.shown - 1].section
  {
    ReachableIsOk(cmd, es, w);
    ReachableLatestOk(cmd, es, w);
    hide LostSince, After;
  }

  /** A forced read that is accepted after the poll of the same cycle is published at once,
      and the end of the cycle takes it back. */
  lemma ForcedReadIsReverted(w: Watch, cmd: Command, section: Section)
    requires w.life.poll.Polled? && w.gathered <= |w.history| && Acceptable(cmd, section)
    ensures
      var forced := Next(w, cmd, L.ForcedRead(Dict(section)));
      && forced.life.data == section && Enabled(forced, cmd, L.Publish) && Overwrites(forced, L.Publish)
      && Next(forced, cmd, L.Publish).life.data == w.life.poll.section
  {
    AcceptableReplies(cmd, Dict(section));
    hide IsNak, Acceptable;
  }

  // ---------------------------------------------------------------- runs, event by event

  lemma {:induction false} AfterAppend(w: Watch, cmd: Command, es: seq<L.Event>, n: Watch, fs: seq<L.Event>)
    requires After(w, cmd, es) == Some(n)
    ensures After(w, cmd, es + fs) == After(n, cmd, fs)
    decreases |fs|
  {
    if fs == [] {
      assert es + fs == es;
    } else {
      hide Next, Enabled, After;
      var k := |fs| - 1;
      AfterAppend(w, cmd, es, n, fs[..k]);
      assert fs[..k] + [fs[k]] == fs && es + fs[..k] + [fs[k]] == es + fs;
      LastStep(w, cmd, es + fs[..k], fs[k]);
      LastStep(n, cmd, fs[..k], fs[k]);
    }
  }

  lemma LastStep(w: Watch, cmd: Command, es: seq<L.Event>, e: L.Event)
    ensures
      var prior := After(w, cmd, es);
      After(w, cmd, es + [e]) ==
        if prior.Some? && Enabled(prior.value, cmd, e) then Some(Next(prior.value, cmd, e)) else None
  {
    hide Next, Enabled;
    assert (es + [e])[..|es + [e]| - 1] == es;
  }

  lemma Step(w: Watch, cmd: Command, es: seq<L.Event>, n: Watch, e: L.Event)
    requires After(w, cmd, es) == Some(n) && Enabled(n, cmd, e)
    ensures After(w, cmd, es + [e]) == Some(Next(n, cmd, e))
  {
    hide Next, Enabled, After;
    LastStep(w, cmd, es, e);
  }

  // ---------------------------------------------------------------- suppressed commands

  /** A forced read that is accepted. */
  predicate Accepts(cmd: Command, e: L.Event)
  {
    e.ForcedRead? && e.r.Dict? && !IsNak(e.r) && Acceptable(cmd, e.r.fields)
  }

  function Publications(es: seq<L.Event>): nat
  {
    if es == [] then 0 else Publications(es[..|es| - 1]) + if es[|es| - 1].Publish? then 1 else 0
  }

  /** A suppressed command carries its section through every cycle. */
  predicate Frozen(w: Watch, n: Watch)
  {
    && n.life.pair == w.life.pair && n.life.data == w.life.data && n.shown == w.shown && n.history == w.history
    && (!n.life.poll.Idle? ==> n.life.poll.previous == w.life.data && n.previous == w.shown)
    && !n.life.poll.Asking? && !n.life.poll.Resting?
    && (n.life.poll.Polled? ==> n.life.poll.section == w.life.data && n.gathered == w.shown)
  }

  lemma NextKeepsFrozen(w: Watch, n: Watch, cmd: Command, e: L.Event)
    requires Frozen(w, n) && w.life.pair.unsupported && Clean(w.life.data) == w.life.data
    requires Enabled(n, cmd, e) && !Accepts(cmd, e) && !e.Absent?
    ensures Frozen(w, Next(n, cmd, e)) && Next(n, cmd, e).cycle == n.cycle + if e.Publish? then 1 else 0
  {
    hide IsNak, Acceptable, Clean, Due;
  }

  lemma {:induction false} RunKeepsFrozen(w: Watch, cmd: Command, es: seq<L.Event>, n: Watch)
    requires w.life.poll.Idle? && w.life.pair.unsupported && Clean(w.life.data) == w.life.data
    requires After(w, cmd, es) == Some(n) && forall e :: e in es ==> !Accepts(cmd, e) && !e.Absent?
    ensures Frozen(w, n) && n.cycle == w.cycle + Publications(es)
    decreases |es|
  {
    if es != [] {
      var k := |es| - 1;
      var prior := After(w, cmd, es[..k]).value;
      assert es[k] in es;
      hide Frozen, Next, Enabled, Accepts, Clean;
      RunKeepsFrozen(w, cmd, es[..k], prior);
      NextKeepsFrozen(w, prior, cmd, es[k]);
    }
  }

  /** Over any run from between two cycles, with the device always among the targets and no
      forced read accepted, nothing changes for a suppressed command but the number of
      cycles: its section stays and ages by one with each of them. */
  lemma SuppressedIsFrozen(cmd: Command, before: seq<L.Event>, w: Watch, es: seq<L.Event>, n: Watch)
    requires After(NEW_WATCH, cmd, before) == Some(w) && w.life.poll.Idle? && w.life.pair.unsupported
    requires After(w, cmd, es) == Some(n) && forall e :: e in es ==> !Accepts(cmd, e) && !e.Absent?
    ensures Frozen(w, n) && n.cycle == w.cycle + Publications(es)
    ensures Known(w, w.shown) ==> Known(n, n.shown) && Age(n) == Age(w) + Publications(es)
  {
    SectionIsClean(cmd, before, w);
    hide After, Accepts, Clean, Frozen, Age, Known, Publications;
    RunKeepsFrozen(w, cmd, es, n);
    FrozenAge(w, n);
  }

  lemma SectionIsClean(cmd: Command, es: seq<L.Event>, w: Watch)
    requires After(NEW_WATCH, cmd, es) == Some(w)
    ensures Clean(w.life.data) == w.life.data
  {
    hide After, NumbersOk, AgeOk, Clean;
    ReachableIsOk(cmd, es, w);
    L.CleanIsGenuine(w.life, cmd, w.life.data);
  }

  lemma FrozenAge(w: Watch, n: Watch)
    requires Frozen(w, n)
    ensures Known(w, w.shown) ==> Known(n, n.shown) && Age(n) == Age(w) + n.cycle - w.cycle
  {
  }

  // ---------------------------------------------------------------- dropped sections

  /** What is not empty is newer than acceptance `q`. */
  predicate NewerThan(w: Watch, q: nat)
  {
    && q <= |w.history| && (w.life.data != map[] ==> w.shown > q)
    && (!w.life.poll.Idle? ==> w.life.poll.previous != map[] ==> w.previous > q)
    && (w.life.poll.Polled? ==> w.life.poll.section != map[] ==> w.gathered > q)
  }

  lemma NextKeepsNewer(w: Watch, cmd: Command, e: L.Event, q: nat)
    requires NewerThan(w, q) && Enabled(w, cmd, e)
    ensures NewerThan(Next(w, cmd, e), q)
  {
    assert Clean(map[]) == map[];
    hide Judge, Refresh, Due;
  }

  /** A section that is dropped between two cycles stays empty until a newer acceptance is
      published. */
  lemma {:induction false} DroppedStaysEmpty(w: Watch, cmd: Command, es: seq<L.Event>, n: Watch)
    requires w.life.data == map[] && w.life.poll.Idle? && After(w, cmd, es) == Some(n)
    ensures n.life.data != map[] ==> n.shown > |w.history|
    ensures NewerThan(n, |w.history|)
    decreases |es|
  {
    if es != [] {
      var k := |es| - 1;
      var prior := After(w, cmd, es[..k]).value;
      DroppedStaysEmpty(w, cmd, es[..k], prior);
      hide Number, L.Next;
      NextKeepsNewer(prior, cmd, es[k], |w.history|);
    }
  }

  // ---------------------------------------------------------------- the bound is met

  /** A state without what plays no part in its future: the accepted sections and the tally. */
  function Core(w: Watch): Watch { w.(life := w.life.(accepted := {}, tally := L.NO_TALLY)) }

  function WithPoll(w: Watch, poll: L.Poll): Watch { w.(life := w.life.(poll := poll)) }

  /** A run from start-up. */
  predicate Reaches(cmd: Command, es: seq<L.Event>, w: Watch) { After(NEW_WATCH, cmd, es) == Some(w) }

  /** A cycle begins and reaches the command. */
  lemma Begins(cmd: Command, es: seq<L.Event>, w: Watch) returns (fs: seq<L.Event>, n: Watch)
    requires Reaches(cmd, es, w) && w.life.poll.Idle? && !w.life.pair.unsupported
    ensures es <= fs
    ensures Reaches(cmd, fs, n)
    ensures
      var poll := if Due(w.cycle, cmd) then L.Asking(w.life.data, 0) else L.Polled(w.life.data, w.life.data);
      Core(n) == Core(WithPoll(w, poll)).(previous := w.shown, gathered := w.shown)
  {
    var due := Due(w.cycle, cmd);
    var k := Next(w, cmd, L.Open);
    n := Next(k, cmd, L.Reach(due));
    fs := es + [L.Open] + [L.Reach(due)];
    assert Enabled(w, cmd, L.Open) && Enabled(k, cmd, L.Reach(due));
    hide Next, Enabled;
    Step(NEW_WATCH, cmd, es, w, L.Open);
    Step(NEW_WATCH, cmd, es + [L.Open], k, L.Reach(due));
  }

  /** Two transactions without a reply. */
  lemma Fails(cmd: Command, es: seq<L.Event>, w: Watch) returns (fs: seq<L.Event>, n: Watch)
    requires Reaches(cmd, es, w) && w.life.poll.Asking? && w.life.poll.attempt == 0
    ensures es <= fs
    ensures Reaches(cmd, fs, n)
    ensures
      var given := GiveUp(w.life.pair, w.life.poll.previous);
      var k := WithPoll(w, L.Polled(w.life.poll.previous, given.1));
      Core(n) == Core(k.(life := k.life.(pair := given.0))).(gathered := w.previous)
  {
    var k1 := Next(w, cmd, L.Answer(Nothing));
    var k2 := Next(k1, cmd, L.Retry);
    n := Next(k2, cmd, L.Answer(Nothing));
    fs := es + [L.Answer(Nothing)] + [L.Retry] + [L.Answer(Nothing)];
    assert Enabled(w, cmd, L.Answer(Nothing)) && Enabled(k1, cmd, L.Retry) && Enabled(k2, cmd, L.Answer(Nothing));
    hide Next, Enabled;
    Step(NEW_WATCH, cmd, es, w, L.Answer(Nothing));
    Step(NEW_WATCH, cmd, es + [L.Answer(Nothing)], k1, L.Retry);
    Step(NEW_WATCH, cmd, es + [L.Answer(Nothing)] + [L.Retry], k2, L.Answer(Nothing));
  }

  lemma GoodReply(p: Pair, cmd: Command, section: Section)
    requires Acceptable(cmd, section)
    ensures Judge(p, cmd, Dict(section)) == (p.(naks := 0, failures := 0), Accepted(section))
    ensures Refresh(p, cmd, Dict(section)) == (p.(naks := 0, failures := 0), Some(section))
  {
    AcceptableReplies(cmd, Dict(section));
    hide IsNak, Acceptable;
  }

  lemma Succeeds(cmd: Command, es: seq<L.Event>, w: Watch, section: Section) returns (fs: seq<L.Event>, n: Watch)
    requires Reaches(cmd, es, w) && w.life.poll.Asking? && Acceptable(cmd, section)
    ensures Reaches(cmd, fs, n)
    ensures
      var k := Accept(WithPoll(w, L.Polled(w.life.poll.previous, section)), section, w.cycle);
      Core(n) == Core(k.(life := k.life.(pair := w.life.pair.(naks := 0, failures := 0)))).(gathered := |w.history| + 1)
  {
    GoodReply(w.life.pair, cmd, section);
    hide Judge, Refresh;
    n := Next(w, cmd, L.Answer(Dict(section)));
    fs := es + [L.Answer(Dict(section))];
    assert Enabled(w, cmd, L.Answer(Dict(section)));
    hide Next, Enabled;
    Step(NEW_WATCH, cmd, es, w, L.Answer(Dict(section)));
  }

  lemma Forces(cmd: Command, es: seq<L.Event>, w: Watch, section: Section) returns (fs: seq<L.Event>, n: Watch)
    requires Reaches(cmd, es, w) && Acceptable(cmd, section)
    ensures Reaches(cmd, fs, n)
    ensures
      var k := Accept(w, section, w.cycle - 1).(shown := |w.history| + 1);
      Core(n) == Core(k.(life := k.life.(pair := w.life.pair.(naks := 0, failures := 0), data := section)))
  {
    GoodReply(w.life.pair, cmd, section);
    hide Judge, Refresh;
    n := Next(w, cmd, L.ForcedRead(Dict(section)));
    fs := es + [L.ForcedRead(Dict(section))];
    assert Enabled(w, cmd, L.ForcedRead(Dict(section)));
    hide Next, Enabled;
    Step(NEW_WATCH, cmd, es, w, L.ForcedRead(Dict(section)));
  }

  lemma Ends(cmd: Command, es: seq<L.Event>, w: Watch) returns (fs: seq<L.Event>, n: Watch)
    requires Reaches(cmd, es, w) && w.life.poll.Polled?
    ensures es <= fs
    ensures Reaches(cmd, fs, n) && n == Next(w, cmd, L.Publish)
  {
    n := Next(w, cmd, L.Publish);
    fs := es + [L.Publish];
    assert Enabled(w, cmd, L.Publish);
    hide Next, Enabled;
    Step(NEW_WATCH, cmd, es, w, L.Publish);
  }

  /** How many times six polls have come round. */
  function Rounds(n: int, cmd: Command): int { PollsUpTo(n, cmd) / 6 }

  /** After `n` cycles of the run: one acceptance in the first; then every sixth poll is
      cut after an acceptance, or from the `cuts`-th on overtaken by forced reads, and the
      other polls fail. */
  predicate Held(w: Watch, cmd: Command, section: Section, cuts: nat, n: nat)
    requires n >= 1
  {
    && w.life.pair == Pair(false, 0, PollsUpTo(n - 1, cmd) % 6) && w.life.data == section && w.life.poll.Idle?
    && w.cycle == n && w.shown == 1 && Known(w, 1) && w.history[0] == Entry(section, 0, 0, 0)
    && w.cuts == Least(cuts, Rounds(n - 1, cmd)) && w.overs == Rounds(n - 1, cmd) - w.cuts
  }

  lemma FirstCycle(cmd: Command, section: Section, cuts: nat) returns (es: seq<L.Event>, w: Watch)
    requires Acceptable(cmd, section)
    ensures Reaches(cmd, es, w) && Held(w, cmd, section, cuts, 1)
  {
    assert Reaches(cmd, [], NEW_WATCH) && Due(0, cmd);
    var fs, k := Begins(cmd, [], NEW_WATCH);
    hide Reaches, Acceptable;
    fs, k := Succeeds(cmd, fs, k, section);
    es, w := Ends(cmd, fs, k);
  }

  lemma QuietCycle(cmd: Command, es: seq<L.Event>, w: Watch, section: Section, cuts: nat, n: nat)
    returns (fs: seq<L.Event>, v: Watch)
    requires n >= 1 && Reaches(cmd, es, w) && Held(w, cmd, section, cuts, n) && !Due(n, cmd)
    ensures Reaches(cmd, fs, v) && Held(v, cmd, section, cuts, n + 1)
  {
    PollsStep(n, cmd);
    hide PollsUpTo, Due, Reaches;
    var gs, k := Begins(cmd, es, w);
    fs, v := Ends(cmd, gs, k);
  }

  lemma FailingCycle(cmd: Command, es: seq<L.Event>, w: Watch, section: Section, cuts: nat, n: nat)
    returns (fs: seq<L.Event>, v: Watch)
    requires n >= 1 && Reaches(cmd, es, w) && Held(w, cmd, section, cuts, n)
    requires Due(n, cmd) && PollsUpTo(n, cmd) % 6 != 0 && Clean(section) == section != map[]
    ensures Reaches(cmd, fs, v) && Held(v, cmd, section, cuts, n + 1)
  {
    PollsStep(n, cmd);
    hide PollsUpTo, Due, Reaches, Clean;
    var gs, k := Begins(cmd, es, w);
    gs, k := Fails(cmd, gs, k);
    fs, v := Ends(cmd, gs, k);
  }

  lemma TimesOutNow(cmd: Command, es: seq<L.Event>, w: Watch) returns (fs: seq<L.Event>, n: Watch)
    requires Reaches(cmd, es, w) && w.life.poll.Polled? && Due(w.cycle, cmd)
    ensures Reaches(cmd, fs, n)
    ensures
      var k := WithPoll(w, L.Polled(w.life.poll.previous, w.life.poll.previous));
      Core(n) == Core(k).(gathered := w.previous, cuts := w.cuts + 1)
  {
    n := Next(w, cmd, L.TimesOut);
    fs := es + [L.TimesOut];
    assert Enabled(w, cmd, L.TimesOut);
    hide Next, Enabled;
    Step(NEW_WATCH, cmd, es, w, L.TimesOut);
  }

  lemma CutCycle(cmd: Command, es: seq<L.Event>, w: Watch, section: Section, cuts: nat, n: nat)
    returns (fs: seq<L.Event>, v: Watch)
    requires n >= 1 && Reaches(cmd, es, w) && Held(w, cmd, section, cuts, n) && Acceptable(cmd, section)
    requires Due(n, cmd) && PollsUpTo(n, cmd) % 6 == 0 && Rounds(n, cmd) <= cuts
    ensures Reaches(cmd, fs, v) && Held(v, cmd, section, cuts, n + 1)
  {
    PollsStep(n, cmd);
    hide PollsUpTo, Due, Reaches, Acceptable;
    var gs, k := Begins(cmd, es, w);
    gs, k := Succeeds(cmd, gs, k, section);
    gs, k := TimesOutNow(cmd, gs, k);
    fs, v := Ends(cmd, gs, k);
  }

  lemma OvertakenCycle(cmd: Command, es: seq<L.Event>, w: Watch, section: Section, cuts: nat, n: nat)
    returns (fs: seq<L.Event>, v: Watch)
    requires n >= 1 && Reaches(cmd, es, w) && Held(w, cmd, section, cuts, n) && Acceptable(cmd, section)
    requires Due(n, cmd) && PollsUpTo(n, cmd) % 6 == 0 && Rounds(n, cmd) > cuts
    requires Clean(section) == section != map[]
    ensures Reaches(cmd, fs, v) && Held(v, cmd, section, cuts, n + 1)
  {
    PollsStep(n, cmd);
    hide PollsUpTo, Due, Reaches, Acceptable, Clean;
    var gs, k := Begins(cmd, es, w);
    gs, k := Forces(cmd, gs, k, section);
    gs, k := Fails(cmd, gs, k);
    gs, k := Forces(cmd, gs, k, section);
    fs, v := Ends(cmd, gs, k);
  }

  lemma {:induction false} HeldFor(cmd: Command, section: Section, cuts: nat, n: nat)
    returns (es: seq<L.Event>, w: Watch)
    requires n >= 1 && Acceptable(cmd, section)
    ensures Reaches(cmd, es, w) && Held(w, cmd, section, cuts, n)
    decreases n
  {
    assert Clean(section) == section != map[];
    hide Reaches, Held, Acceptable, Clean, Due, PollsUpTo, Rounds;
    if n == 1 {
      es, w := FirstCycle(cmd, section, cuts);
    } else {
      var fs, k := HeldFor(cmd, section, cuts, n - 1);
      if !Due(n - 1, cmd) {
        es, w := QuietCycle(cmd, fs, k, section, cuts, n - 1);
      } else if PollsUpTo(n - 1, cmd) % 6 != 0 {
        es, w := FailingCycle(cmd, fs, k, section, cuts, n - 1);
      } else if Rounds(n - 1, cmd) <= cuts {
        es, w := CutCycle(cmd, fs, k, section, cuts, n - 1);
      } else {
        es, w := OvertakenCycle(cmd, fs, k, section, cuts, n - 1);
      }
    }
  }

  lemma ExactMultiple(c: int, m: int)
    requires c == 1 || c == 2 || c == 3 || c == 6
    ensures (c * m) % c == 0 && (c * m - 1) / c == m - 1
  {
    if c == 1 {
    } else if c == 2 {
    } else if c == 3 {
    } else {
    }
  }

  lemma WholeRounds(cmd: Command, k: nat)
    ensures
      var n := 6 * Cadence(cmd) * (k + 1);
      n >= 6 * (k + 1) && Rounds(n - 1, cmd) == k && PollsUpTo(n - 1, cmd) % 6 == 5 && Due(n, cmd)
  {
    var c, m := Cadence(cmd), 6 * (k + 1);
    assert c == 1 || c == 2 || c == 3 || c == 6;
    assert 6 * c * (k + 1) == c * m;
    assert c * m >= m;
    hide Cadence;
    ExactMultiple(c, m);
  }

  lemma SixthFailureDrops(cmd: Command, es: seq<L.Event>, w: Watch) returns (fs: seq<L.Event>, n: Watch)
    requires Reaches(cmd, es, w) && w.life.poll.Idle? && Due(w.cycle, cmd)
    requires !w.life.pair.unsupported && w.life.pair.failures == 5
    ensures Reaches(cmd, fs, n) && es <= fs && n.life.data == map[] && n.cycle == w.cycle + 1
  {
    hide Reaches, Due, Clean;
    var gs, k := Begins(cmd, es, w);
    var hs, l := Fails(cmd, gs, k);
    fs, n := Ends(cmd, hs, l);
    assert gs <= fs;
  }

  /** The bound is met for any number of cuts and of overwrites, and one more poll without
      a reply drops the section.  In particular no age is the limit, whether cycles are cut
      short or forced reads are overwritten. */
  lemma AgeIsReached(cmd: Command, section: Section, cuts: nat, overs: nat)
    returns (es: seq<L.Event>, w: Watch, more: seq<L.Event>, v: Watch)
    requires Acceptable(cmd, section)
    ensures After(NEW_WATCH, cmd, es) == Some(w)
    ensures w.life.data == section && !w.life.pair.unsupported && w.life.poll.Idle? && w.shown == 1 && Known(w, 1)
    ensures w.cuts - w.history[0].cuts == cuts && w.overs - w.history[0].overs == overs
    ensures Age(w) == 6 * Cadence(cmd) * (cuts + overs + 1) - 1 >= 6 * (cuts + overs) + 5
    ensures After(NEW_WATCH, cmd, more) == Some(v) && es <= more && v.life.data == map[] && v.cycle == w.cycle + 1
  {
    var n := 6 * Cadence(cmd) * (cuts + overs + 1);
    WholeRounds(cmd, cuts + overs);
    es, w := HeldFor(cmd, section, cuts, n);
    hide Acceptable, Cadence, PollsUpTo, Due, After;
    more, v := SixthFailureDrops(cmd, es, w);
  }

  /** It happens in a run without cuts: what a forced read confirmed is taken back by the end
      of the cycle, for any two sections. */
  lemma SettingsRevert(cmd: Command, older: Section, newer: Section)
    returns (es: seq<L.Event>, w: Watch, v: Watch)
    requires Acceptable(cmd, older) && Acceptable(cmd, newer)
    ensures After(NEW_WATCH, cmd, es) == Some(w) && w.life.data == newer && w.shown == |w.history|
    ensures After(NEW_WATCH, cmd, es + [L.Publish]) == Some(v) && v.life.data == older && v.shown < |v.history|
    ensures v.cuts == 0 && v.overs == 1
  {
    var fs, k := HeldFor(cmd, older, 0, 1);
    assert k.cycle == 1 && k.cuts == 0 && k.overs == 0;
    assert Clean(older) == older != map[];
    hide After, Due, Clean, Acceptable, PollsUpTo;
    fs, k := Begins(cmd, fs, k);
    if k.life.poll.Asking? {
      fs, k := Fails(cmd, fs, k);
    }
    es, w := Forces(cmd, fs, k, newer);
    v := Next(w, cmd, L.Publish);
    assert Enabled(w, cmd, L.Publish);
    Step(NEW_WATCH, cmd, es, w, L.Publish);
  }

  // ---------------------------------------------------------------- a section gets frozen

  lemma TwoNaks(cmd: Command, es: seq<L.Event>, w: Watch, nak: Reply) returns (fs: seq<L.Event>, n: Watch)
    requires Reaches(cmd, es, w) && w.life.poll.Asking? && w.life.poll.attempt == 0
    requires w.life.pair == NEW_PAIR && IsNak(nak)
    ensures Reaches(cmd, fs, n)
    ensures
      var k := WithPoll(w, L.Polled(w.life.poll.previous, Clean(w.life.poll.previous)));
      Core(n) == Core(k.(life := k.life.(pair := Pair(true, 2, 0)))).(gathered := w.previous)
  {
    assert Judge(NEW_PAIR, cmd, nak) == (Pair(false, 1, 0), Rejected);
    assert Judge(Pair(false, 1, 0), cmd, nak) == (Pair(true, 2, 0), Suppressed);
    hide Judge;
    var k1 := Next(w, cmd, L.Answer(nak));
    var k2 := Next(k1, cmd, L.Retry);
    n := Next(k2, cmd, L.Answer(nak));
    fs := es + [L.Answer(nak)] + [L.Retry] + [L.Answer(nak)];
    assert Enabled(w, cmd, L.Answer(nak)) && Enabled(k1, cmd, L.Retry) && Enabled(k2, cmd, L.Answer(nak));
    hide Next, Enabled, IsNak;
    Step(NEW_WATCH, cmd, es, w, L.Answer(nak));
    Step(NEW_WATCH, cmd, es + [L.Answer(nak)], k1, L.Retry);
    Step(NEW_WATCH, cmd, es + [L.Answer(nak)] + [L.Retry], k2, L.Answer(nak));
  }

  lemma WithinOneRound(cmd: Command)
    ensures PollsUpTo(Cadence(cmd) - 1, cmd) == 0 && Due(Cadence(cmd), cmd)
  {
  }

  /** One acceptance, and two NAKs in the next poll, freeze a section. */
  lemma SectionFreezes(cmd: Command, section: Section, nak: Reply) returns (es: seq<L.Event>, w: Watch)
    requires Acceptable(cmd, section) && IsNak(nak)
    ensures After(NEW_WATCH, cmd, es) == Some(w) && w.life.poll.Idle? && w.life.pair.unsupported
    ensures w.life.data == section && Known(w, w.shown) && Age(w) == Cadence(cmd)
  {
    WithinOneRound(cmd);
    var fs, k := HeldFor(cmd, section, 0, Cadence(cmd));
    assert Clean(section) == section;
    hide Acceptable, PollsUpTo, Due, After, Clean, IsNak, Cadence;
    fs, k := Begins(cmd, fs, k);
    fs, k := TwoNaks(cmd, fs, k, nak);
    es, w := Ends(cmd, fs, k);
  }

  /** From then on it is as old as the run is long. */
  lemma FrozenSectionAges(cmd: Command, section: Section, nak: Reply, more: seq<L.Event>)
    returns (es: seq<L.Event>, w: Watch)
    requires Acceptable(cmd, section) && IsNak(nak)
    requires forall e :: e in more ==> !Accepts(cmd, e) && !e.Absent?
    ensures After(NEW_WATCH, cmd, es) == Some(w) && w.life.data == section && w.life.pair.unsupported
    ensures After(w, cmd, more).Some? ==>
      var n := After(w, cmd, more).value;
      && After(NEW_WATCH, cmd, es + more) == Some(n)
      && n.life.data == section && Known(n, n.shown) && Age(n) == Cadence(cmd) + Publications(more)
  {
    es, w := SectionFreezes(cmd, section, nak);
    hide After, Accepts, Acceptable, IsNak, Cadence;
    if After(w, cmd, more).Some? {
      AfterAppend(NEW_WATCH, cmd, es, w, more);
      SuppressedIsFrozen(cmd, es, w, more, After(w, cmd, more).value);
    }
  }
}

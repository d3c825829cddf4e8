/** The polling policy of the coordinator: which replies are accepted, when a failed read
    is bridged by the last known section, and when a command is no longer sent.

    Devices are known by number.  The state that the policy keeps about one command of
    one device is a `Pair`.
 */
module Coordinator {
  import opened Sanity
  import opened Wrappers

  type Device = int

  datatype Command = QPIGS | QMOD | QPIGS2 | QPIWS | QFWS | QPIRI

  /** A command is polled every so many cycles. */
  function Cadence(cmd: Command): (n: int)
    ensures 1 <= n <= 6
  {
    match cmd
    case QPIGS => 1
    case QMOD => 2
    case QPIGS2 => 2
    case QPIWS => 3
    case QFWS => 3
    case QPIRI => 6
  }

  const MAX_CONSECUTIVE_FAILURES := 6
  const NAK_SUPPRESS_THRESHOLD := 2

  /** A decoded field: a text with the number that it spells, if any, or something else. */
  datatype Value = Text(text: string, number: Option<real>) | Number(number: Option<real>) | Null

  type Section = map<string, Value>

  /** What a transaction yields: an exception or no result, something other than a
      dictionary, or a dictionary. */
  datatype Reply = Nothing | NotADict | Dict(fields: Section)

  // ---------------------------------------------------------------- plausibility

  function FloatField(fields: Section, key: string): Option<real>
  {
    if key !in fields then None
    else
      match fields[key]
      case Null => None
      case Number(x) => x
      case Text(text, x) => if text == "" then None else x
  }

  predicate PlausibleQpigs(fields: Section)
  {
    && "error" !in fields
    && (var v := FloatField(fields, "battery_voltage"); v.Some? ==> PlausibleVoltage(v.value))
    && (var c := FloatField(fields, "battery_charging_current"); c.Some? ==> PlausibleCurrent(c.value))
    && (var d := FloatField(fields, "battery_discharge_current"); d.Some? ==> PlausibleCurrent(d.value))
  }

  // ---------------------------------------------------------------- replies

  predicate Mentions(s: string, word: string)
    decreases |s|
  {
    word <= s || (s != [] && Mentions(s[1..], word))
  }

  predicate HasNakStatus(fields: Section)
  {
    "status" in fields && fields["status"].Text? && fields["status"].text == "NAK"
  }

  predicate IsError(r: Reply)
  {
    !r.Dict? || r.fields == map[] || "error" in r.fields || HasNakStatus(r.fields)
  }

  predicate IsNak(r: Reply)
  {
    r.Dict? && (HasNakStatus(r.fields) ||
      ("error" in r.fields && r.fields["error"].Text? && Mentions(r.fields["error"].text, "NAK")))
  }

  /** A section that may be published for `cmd`. */
  predicate Acceptable(cmd: Command, fields: Section)
  {
    && fields != map[] && "error" !in fields && !HasNakStatus(fields)
    && (cmd == QPIGS ==> PlausibleQpigs(fields))
  }

  lemma AcceptableReplies(cmd: Command, r: Reply)
    ensures !IsNak(r) && !IsError(r) && (cmd == QPIGS && r.Dict? ==> PlausibleQpigs(r.fields))
      <==> r.Dict? && Acceptable(cmd, r.fields)
  {
  }

  // ---------------------------------------------------------------- one command of one device

  /** Suppressed or not, the current run of NAKs, and of failed reads. */
  datatype Pair = Pair(unsupported: bool, naks: int, failures: int)

  const NEW_PAIR := Pair(false, 0, 0)

  function NoteNak(p: Pair): Pair
  {
    if p.unsupported then p
    else Pair(p.naks + 1 >= NAK_SUPPRESS_THRESHOLD, p.naks + 1, p.failures)
  }

  datatype Verdict = Accepted(section: Section) | Suppressed | Rejected

  /** The reply to a poll is judged. */
  function Judge(p: Pair, cmd: Command, r: Reply): (Pair, Verdict)
  {
    if IsNak(r) then
      var q := NoteNak(p);
      (q, if q.unsupported then Suppressed else Rejected)
    else if r.Dict? && Acceptable(cmd, r.fields) then (p.(naks := 0, failures := 0), Accepted(r.fields))
    else (p, Rejected)
  }

  function Clean(previous: Section): Section { if "error" !in previous then previous else map[] }

  datatype Outcome = Freeze | NoData | Unavailable

  function Resolve(count: int, lastKnown: Section): (Section, Outcome)
  {
    if count < MAX_CONSECUTIVE_FAILURES then
      if lastKnown != map[] then (lastKnown, Freeze) else (map[], NoData)
    else (map[], Unavailable)
  }

  function GiveUp(p: Pair, previous: Section): (Pair, Section)
  {
    var q := p.(failures := p.failures + 1);
    (q, Resolve(q.failures, Clean(previous)).0)
  }

  /** The attempts of a poll from number `attempt` on. */
  function FetchFrom(p: Pair, cmd: Command, previous: Section, replies: seq<Reply>, attempt: nat): (Pair, Section)
    requires attempt <= |replies|
    decreases |replies| - attempt
  {
    if attempt == |replies| then GiveUp(p, previous)
    else
      var judged := Judge(p, cmd, replies[attempt]);
      match judged.1
      case Accepted(section) => (judged.0, section)
      case Suppressed => (judged.0, Clean(previous))
      case Rejected => FetchFrom(judged.0, cmd, previous, replies, attempt + 1)
  }

  /** A poll: `replies` are what its two transactions would yield. */
  function Fetch(p: Pair, cmd: Command, previous: Section, replies: seq<Reply>): (Pair, Section)
  {
    if p.unsupported then (p, Clean(previous)) else FetchFrom(p, cmd, previous, replies, 0)
  }

  /** A read forced by a write; its section is published at once if it is accepted. */
  function Refresh(p: Pair, cmd: Command, r: Reply): (Pair, Option<Section>)
  {
    if IsNak(r) then (NoteNak(p), None)
    else if r.Dict? && Acceptable(cmd, r.fields) then (p.(naks := 0, failures := 0), Some(r.fields))
    else (p, None)
  }

  // ---------------------------------------------------------------- in the fields themselves

  /** The field spells a number, and the number lies between the bounds; or it spells none. */
  predicate Between(fields: Section, key: string, low: real, high: real)
  {
    key in fields ==>
      match fields[key]
      case Text(text, Some(x)) => text == "" || low <= x <= high
      case Number(Some(x)) => low <= x <= high
      case _ => true
  }

  ghost predicate StatusIsNak(fields: Section)
  {
    exists number :: "status" in fields && fields["status"] == Text("NAK", number)
  }

  /** What may be published. */
  ghost predicate Sound(cmd: Command, fields: Section)
  {
    && fields != map[] && "error" !in fields && !StatusIsNak(fields)
    && (cmd == QPIGS ==>
          && Between(fields, "battery_voltage", 10.0, 120.0)
          && Between(fields, "battery_charging_current", 0.0, 300.0)
          && Between(fields, "battery_discharge_current", 0.0, 300.0))
  }

  /** A reply is accepted, from a poll or a forced read, if and only if it is a sound section. */
  lemma AcceptsExactly(p: Pair, cmd: Command, r: Reply, section: Section)
    ensures Judge(p, cmd, r).1 == Accepted(section) <==> r == Dict(section) && Sound(cmd, section)
    ensures Refresh(p, cmd, r).1 == Some(section) <==> r == Dict(section) && Sound(cmd, section)
  {
    AcceptableIsSound(cmd, section);
    hide Acceptable, Sound, NoteNak;
    if r == Dict(section) && Sound(cmd, section) {
      SoundIsNoNak(cmd, section);
    }
  }

  lemma AcceptableIsSound(cmd: Command, fields: Section)
    ensures Acceptable(cmd, fields) <==> Sound(cmd, fields)
  {
    if "error" !in fields {
      FieldIsBetween(fields, "battery_voltage", 10.0, 120.0);
      FieldIsBetween(fields, "battery_charging_current", 0.0, 300.0);
      FieldIsBetween(fields, "battery_discharge_current", 0.0, 300.0);
    }
    StatusTells(fields);
    hide FloatField, Between, StatusIsNak, HasNakStatus;
  }

  lemma StatusTells(fields: Section)
    ensures HasNakStatus(fields) <==> StatusIsNak(fields)
  {
    if HasNakStatus(fields) {
      assert fields["status"] == Text("NAK", fields["status"].number);
    }
  }

  lemma FieldIsBetween(fields: Section, key: string, low: real, high: real)
    ensures
      var x := FloatField(fields, key);
      (x.Some? ==> low <= x.value <= high) <==> Between(fields, key, low, high)
  {
  }

  lemma SoundIsNoNak(cmd: Command, fields: Section)
    requires Sound(cmd, fields)
    ensures !IsNak(Dict(fields))
  {
    StatusTells(fields);
    hide Between, StatusIsNak, HasNakStatus;
  }

  /** The three letters stand somewhere in the text. */
  ghost predicate SpellsNak(text: string)
  {
    exists i {:trigger text[i]} ::
      0 <= i && i + 2 < |text| && text[i] == 'N' && text[i + 1] == 'A' && text[i + 2] == 'K'
  }

  /** The program's two ways to tell a NAK: by the status, or by the text of the error. */
  ghost predicate SaysNak(fields: Section)
  {
    StatusIsNak(fields) || ("error" in fields && fields["error"].Text? && SpellsNak(fields["error"].text))
  }

  lemma {:induction false} MentionsNak(text: string)
    ensures Mentions(text, "NAK") <==> SpellsNak(text)
    decreases |text|
  {
    if text != [] {
      MentionsNak(text[1..]);
      if SpellsNak(text) {
        var i :| 0 <= i && i + 2 < |text| && text[i] == 'N' && text[i + 1] == 'A' && text[i + 2] == 'K';
        if i == 0 {
          assert text[..3] == "NAK";
        } else {
          assert text[1..][i - 1] == 'N';
        }
      }
      if SpellsNak(text[1..]) {
        var rest := text[1..];
        var i :| 0 <= i && i + 2 < |rest| && rest[i] == 'N' && rest[i + 1] == 'A' && rest[i + 2] == 'K';
        assert text[i + 1] == 'N';
      }
      if "NAK" <= text {
        assert text[0] == 'N';
      }
    }
  }

  /** A NAK is never accepted and never counts as a failure; while the command is not
      suppressed it counts as one NAK, and the second in a row suppresses.  Nothing else
      counts as one. */
  lemma NaksAreCounted(p: Pair, cmd: Command, r: Reply)
    ensures
      var nak := r.Dict? && SaysNak(r.fields);
      var counted := if p.unsupported then p else Pair(p.naks + 1 >= 2, p.naks + 1, p.failures);
      && (nak ==> Judge(p, cmd, r) == (counted, if counted.unsupported then Suppressed else Rejected))
      && (nak ==> Refresh(p, cmd, r) == (counted, None))
      && (!nak ==> Judge(p, cmd, r).0 in {p, p.(naks := 0, failures := 0)})
  {
    if r.Dict? && "error" in r.fields && r.fields["error"].Text? {
      MentionsNak(r.fields["error"].text);
    }
    if r.Dict? {
      StatusTells(r.fields);
    }
    hide Mentions, SpellsNak, PlausibleQpigs, StatusIsNak, HasNakStatus;
  }

  // ---------------------------------------------------------------- the coordinator as an object

  class FailureTracker {
    var counts: map<Device, map<Command, int>>

    constructor ()
      ensures counts == map[]
    {
      counts := map[];
    }

    function Count(key: Device, cmd: Command): int
      reads this
    {
      if key in counts && cmd in counts[key] then counts[key][cmd] else 0
    }

    twostate predicate OnlyChanges(key: Device, cmd: Command)
      reads this
    {
      forall k: Device, c: Command :: k != key || c != cmd ==> Count(k, c) == old(Count(k, c))
    }

    method OnSuccess(key: Device, cmd: Command)
      modifies this
      ensures Count(key, cmd) == 0 && OnlyChanges(key, cmd)
    {
      var perDevice := if key in counts then counts[key] else map[];
      counts := counts[key := perDevice[cmd := 0]];
    }

    method OnFailure(key: Device, cmd: Command) returns (count: int)
      modifies this
      ensures count == Count(key, cmd) == old(Count(key, cmd)) + 1 && OnlyChanges(key, cmd)
    {
      var perDevice := if key in counts then counts[key] else map[];
      count := (if cmd in perDevice then perDevice[cmd] else 0) + 1;
      counts := counts[key := perDevice[cmd := count]];
    }
  }

  class DirectCoordinator {
    const failures: FailureTracker
    var unsupported: set<(Device, Command)>
    var nakCounts: map<(Device, Command), int>

    constructor ()
      ensures forall k: Device, c: Command :: PairOf(k, c) == NEW_PAIR
      ensures fresh(failures)
    {
      failures := new FailureTracker();
      unsupported, nakCounts := {}, map[];
    }

    function PairOf(key: Device, cmd: Command): Pair
      reads this, failures
    {
      Pair((key, cmd) in unsupported,
           if (key, cmd) in nakCounts then nakCounts[(key, cmd)] else 0, failures.Count(key, cmd))
    }

    /** Other commands and devices keep their state. */
    twostate predicate OnlyChanges(key: Device, cmd: Command)
      reads this, failures
    {
      forall k: Device, c: Command :: k != key || c != cmd ==> PairOf(k, c) == old(PairOf(k, c))
    }

    method CountNak(key: Device, cmd: Command) returns (suppressed: bool)
      modifies this
      ensures PairOf(key, cmd) == NoteNak(old(PairOf(key, cmd))) && OnlyChanges(key, cmd)
      ensures suppressed == PairOf(key, cmd).unsupported
    {
      var pair := (key, cmd);
      if pair in unsupported {
        return true;
      }
      var count := (if pair in nakCounts then nakCounts[pair] else 0) + 1;
      nakCounts := nakCounts[pair := count];
      suppressed := count >= NAK_SUPPRESS_THRESHOLD;
      if suppressed {
        unsupported := unsupported + {pair};
      }
    }

    /** The cleaned data of a reply, or nothing; also the judgement of a forced read. */
    method AcceptResult(key: Device, cmd: Command, result: Reply) returns (accepted: Option<Section>)
      modifies this, failures
      ensures (PairOf(key, cmd), accepted) == Refresh(old(PairOf(key, cmd)), cmd, result)
      ensures OnlyChanges(key, cmd)
    {
      accepted := None;
      AcceptableReplies(cmd, result);
      if IsNak(result) {
        var _ := CountNak(key, cmd);
        return;
      }
      if IsError(result) {
        return;
      }
      if cmd == QPIGS && !PlausibleQpigs(result.fields) {
        return;
      }
      nakCounts := nakCounts - {(key, cmd)};
      failures.OnSuccess(key, cmd);
      accepted := Some(result.fields);
    }

    /** The reply to one transaction of a poll. */
    method JudgeReply(key: Device, cmd: Command, result: Reply) returns (verdict: Verdict)
      modifies this, failures
      ensures (PairOf(key, cmd), verdict) == Judge(old(PairOf(key, cmd)), cmd, result)
      ensures OnlyChanges(key, cmd)
    {
      verdict := Rejected;
      if result != Nothing {
        if IsNak(result) {
          var suppressed := CountNak(key, cmd);
          if suppressed {
            verdict := Suppressed;
          }
        } else {
          var accepted := AcceptResult(key, cmd, result);
          if accepted.Some? {
            verdict := Accepted(accepted.value);
          }
        }
      }
    }

    /** A poll with one retry. */
    method FetchWithRetry(key: Device, cmd: Command, previous: Section, replies: seq<Reply>)
      returns (section: Section)
      requires |replies| == 2
      modifies this, failures
      ensures (PairOf(key, cmd), section) == Fetch(old(PairOf(key, cmd)), cmd, previous, replies)
      ensures OnlyChanges(key, cmd)
    {
      hide Judge, Resolve, Clean, FailureTracker.Count;
      if (key, cmd) in unsupported {
        return Clean(previous);
      }
      var attempt := 0;
      while attempt < 2
        invariant 0 <= attempt <= 2
        invariant FetchFrom(PairOf(key, cmd), cmd, previous, replies, attempt)
               == FetchFrom(old(PairOf(key, cmd)), cmd, previous, replies, 0)
        invariant OnlyChanges(key, cmd)
      {
        var verdict := JudgeReply(key, cmd, replies[attempt]);
        match verdict {
          case Accepted(accepted) => return accepted;
          case Suppressed => return Clean(previous);
          case Rejected =>
        }
        attempt := attempt + 1;
      }
      var count := failures.OnFailure(key, cmd);
      section := Resolve(count, Clean(previous)).0;
    }
  }
}

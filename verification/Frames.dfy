/** Voltronic (PI30) and PI18 framing: the shift-XOR form of the checksum, the
    byte bump that keeps control bytes out of it, frame building, and the two
    response validators. */
module Frames {
  import opened Crc
  import opened ErrorDetection
  import opened TwoBitErrors

  const OPEN: bv8 := 0x28
  const CR: bv8 := 0x0D
  const LF: bv8 := 0x0A

  // ---------------------------------------------------------------- the shift-XOR checksum

  /** What the recurrence adds for the byte that leaves the register. */
  function Spread(x0: bv16): bv16
  {
    var x := x0 ^ (x0 >> 4);
    (x << 12) ^ (x << 5) ^ x
  }

  function ShiftXor(crc: bv16, b: bv8): bv16
  {
    Xor(crc << 8, Spread((crc >> 8) ^ (b as bv16)))
  }

  lemma EightTurnsSpread(u: bv8)
    ensures EightTurned(Xmodem, Xmodem.Align(u)) == Spread(u as bv16)
  {
  }

  /** The byte that leaves the register, mixed with the one that enters. */
  function Outgoing(crc: bv16, b: bv8): bv8 { High(crc) ^ b }

  function SpreadByte(u: bv8): bv16 { Spread(u as bv16) }

  lemma OutgoingWord(crc: bv16, b: bv8)
    ensures (crc >> 8) ^ (b as bv16) == Outgoing(crc, b) as bv16
    ensures crc << 8 == Xmodem.Align(Low(crc))
  {
  }

  lemma ShiftXorSplits(crc: bv16, b: bv8)
    ensures ShiftXor(crc, b) == Xor(Xmodem.Align(Low(crc)), SpreadByte(Outgoing(crc, b)))
  {
    OutgoingWord(crc, b);
    hide Xor, Spread, Outgoing, Low, Algorithm.Align;
  }

  lemma AlignOutgoing(crc: bv16, b: bv8)
    ensures Xmodem.Align(Outgoing(crc, b)) == Xor(Xmodem.Align(High(crc)), Xmodem.Align(b))
    ensures crc == Xor(Xmodem.Align(High(crc)), Far(Xmodem, Low(crc)))
  {
  }

  lemma SpreadIsEightTurns(u: bv8)
    ensures SpreadByte(u) == Xmodem.AdvanceN(Xmodem.Align(u), 8)
  {
    hide EightTurned, Spread, Algorithm.Align, Algorithm.AdvanceN;
    EightTurnsSpread(u);
    AdvanceEight(Xmodem, Xmodem.Align(u));
  }

  /** One shift-XOR step is one byte of the bit-by-bit loop. */
  lemma ShiftXorIsByte(crc: bv16, b: bv8)
    ensures ShiftXor(crc, b) == Xmodem.Byte(crc, b)
  {
    ShiftXorSplits(crc, b);
    AlignOutgoing(crc, b);
    SpreadIsEightTurns(Outgoing(crc, b));
    FarMovesUp(Xmodem, Low(crc));
    hide Xor, SpreadByte, ShiftXor, Outgoing, Far, High, Low, Algorithm.Align, Algorithm.AdvanceN;
    var high, far, mixed := Xmodem.Align(High(crc)), Far(Xmodem, Low(crc)), Xmodem.Align(b);
    XorLaws(high, far, mixed, 0);
    XorLaws(far, mixed, 0, 0);
    XorLaws(high, mixed, far, 0);
    AdvanceNLinear(Xmodem, Xor(high, mixed), far, 8);
    XorLaws(Xmodem.AdvanceN(Xor(high, mixed), 8), Xmodem.Align(Low(crc)), 0, 0);
  }

  predicate Control(b: bv8) { b == OPEN || b == CR || b == LF }

  function BumpByte(b: bv8): bv8 { if Control(b) then b + 1 else b }

  function Bump(w: Bytes): (r: Bytes)
    requires |w| == 2
    ensures |r| == 2
  {
    [BumpByte(w[0]), BumpByte(w[1])]
  }

  /** The checksum bytes as Voltronic firmware sends them. */
  function VoltronicCrc(data: Bytes): (r: Bytes)
    ensures |r| == 2
  {
    Bump(Xmodem.WireBytes(Xmodem.Checksum(data)))
  }

  /** Bumped bytes never collide with a frame delimiter. */
  lemma BumpAvoidsControl(w: Bytes)
    requires |w| == 2
    ensures forall b :: b in Bump(w) ==> !Control(b) && b != 0x28 && b != 0x0D && b != 0x0A
  {
  }

  lemma ShiftXorStep(data: Bytes, i: nat, crc: bv16)
    requires i < |data| && crc == Xmodem.Fold(0, data[..i])
    ensures ShiftXor(crc, data[i]) == Xmodem.Fold(0, data[..i + 1])
  {
    hide ShiftXor, Algorithm.Byte, Algorithm.Fold;
    ShiftXorIsByte(crc, data[i]);
    FoldSnoc(Xmodem, 0, data[..i], data[i]);
    assert data[..i + 1] == data[..i] + [data[i]];
  }

  /** The recurrence as the program writes it, on the intermediate values `x0` and `x`. */
  lemma Recurrence(crc: bv16, b: bv8, x0: bv16, x: bv16)
    requires x0 == (crc >> 8) ^ (b as bv16)
    requires x == x0 ^ (x0 >> 4)
    ensures (crc << 8) ^ (x << 12) ^ (x << 5) ^ x == ShiftXor(crc, b)
  {
    assert Spread(x0) == (x << 12) ^ (x << 5) ^ x;
    Regroup(crc << 8, x << 12, x << 5, x);
    hide Xor, Spread;
  }

  lemma Regroup(a: bv16, b: bv16, c: bv16, d: bv16)
    ensures a ^ b ^ c ^ d == Xor(a, b ^ c ^ d)
  {
  }

  lemma BumpByteIs(b: bv8)
    ensures BumpByte(b) == if b == 0x28 || b == 0x0D || b == 0x0A then b + 1 else b
  {
  }

  lemma BumpedWord(data: Bytes, crc: bv16)
    requires crc == Xmodem.Fold(0, data)
    ensures VoltronicCrc(data) == [BumpByte((crc >> 8) as bv8), BumpByte((crc & 0xFF) as bv8)]
  {
    hide BumpByte, Algorithm.Fold;
  }

  method Crc16Voltronic(data: Bytes) returns (w: Bytes)
    ensures w == VoltronicCrc(data)
  {
    var crc: bv16 := 0;
    assert crc == Xmodem.Fold(0, data[..0]);
    for i := 0 to |data|
      invariant crc == Xmodem.Fold(0, data[..i])
    {
      hide *;
      ShiftXorStep(data, i, crc);
      var x := (crc >> 8) ^ (data[i] as bv16);
      ghost var x0 := x;
      x := x ^ (x >> 4);
      Recurrence(crc, data[i], x0, x);
      crc := (crc << 8) ^ (x << 12) ^ (x << 5) ^ x;
    }
    assert data[..|data|] == data;
    BumpedWord(data, crc);
    hide *;
    var high, low := (crc >> 8) as bv8, (crc & 0xFF) as bv8;
    BumpByteIs(high);
    BumpByteIs(low);
    if high == 0x28 || high == 0x0D || high == 0x0A {
      high := high + 1;
    }
    if low == 0x28 || low == 0x0D || low == 0x0A {
      low := low + 1;
    }
    w := [high, low];
  }

  // ---------------------------------------------------------------- PI30 requests

  /** A request: the ASCII command, its checksum, and a carriage return. */
  function BuildPi30Frame(body: Bytes): Bytes
  {
    body + VoltronicCrc(body) + [CR]
  }

  /** The first position of a byte, or -1. */
  function Find(s: Bytes, b: bv8): (i: int)
    ensures -1 <= i < |s|
    ensures i >= 0 ==> s[i] == b && b !in s[..i]
    ensures i == -1 ==> b !in s
  {
    if s == [] then -1
    else if s[0] == b then 0
    else
      var i := Find(s[1..], b);
      assert s == [s[0]] + s[1..];
      if i < 0 then -1 else
        assert s[..i + 1] == [s[0]] + s[1..][..i];
        i + 1
  }

  /** A byte stream cut at every carriage return, and what follows the last one. */
  function SplitAtCr(s: Bytes): (cut: (seq<Bytes>, Bytes))
    decreases |s|
  {
    var i := Find(s, CR);
    if i < 0 then ([], s)
    else
      var (segments, rest) := SplitAtCr(s[i + 1..]);
      ([s[..i]] + segments, rest)
  }

  lemma FindAfter(head: Bytes, b: bv8, tail: Bytes)
    requires b !in head
    ensures Find(head + [b] + tail, b) == |head|
  {
    var s := head + [b] + tail;
    var i := Find(s, b);
    assert s[|head|] == b;
    assert forall j :: 0 <= j < |head| ==> s[j] == head[j];
    assert forall j :: 0 <= j < i ==> s[j] == s[..i][j];
  }

  function Concat(frames: seq<Bytes>): Bytes
  {
    if frames == [] then [] else frames[0] + Concat(frames[1..])
  }

  function BuildAll(bodies: seq<Bytes>): (r: seq<Bytes>)
    ensures |r| == |bodies|
  {
    if bodies == [] then [] else [BuildPi30Frame(bodies[0])] + BuildAll(bodies[1..])
  }

  function WithCrc(bodies: seq<Bytes>): (r: seq<Bytes>)
    ensures |r| == |bodies|
  {
    if bodies == [] then [] else [bodies[0] + VoltronicCrc(bodies[0])] + WithCrc(bodies[1..])
  }

  /** Cutting a stream of requests at the carriage returns gives back each body
      with its two checksum bytes, and nothing else. */
  lemma {:induction false} SplitRecoversRequests(bodies: seq<Bytes>)
    requires forall i :: 0 <= i < |bodies| ==> CR !in bodies[i]
    ensures SplitAtCr(Concat(BuildAll(bodies))) == (WithCrc(bodies), [])
  {
    if bodies != [] {
      hide VoltronicCrc, Bump;
      var segment := bodies[0] + VoltronicCrc(bodies[0]);
      var later := Concat(BuildAll(bodies[1..]));
      CrcHasNoCr(bodies[0]);
      assert CR !in segment;
      assert BuildPi30Frame(bodies[0]) == segment + [CR];
      assert Concat(BuildAll(bodies)) == segment + [CR] + later;
      FindAfter(segment, CR, later);
      var s := segment + [CR] + later;
      assert s[|segment| + 1..] == later && s[..|segment|] == segment;
      SplitRecoversRequests(bodies[1..]);
    }
  }

  lemma CrcHasNoCr(body: Bytes)
    ensures CR !in VoltronicCrc(body)
  {
    hide Algorithm.Checksum;
    BumpAvoidsControl(Xmodem.WireBytes(Xmodem.Checksum(body)));
    assert Control(CR);
  }

  // ---------------------------------------------------------------- PI30 responses

  predicate Blank(b: bv8) { b == 0x20 || b == 0x09 || b == CR || b == LF || b == 0x00 }

  function StripLeft(s: Bytes): Bytes
  {
    if s != [] && Blank(s[0]) then StripLeft(s[1..]) else s
  }

  /** Everything after the first opening parenthesis. */
  function Body(raw: Bytes): Bytes
  {
    var i := Find(raw, OPEN);
    if i >= 0 then raw[i + 1..] else StripLeft(raw)
  }

  /** The byte ranges that firmware variants compute the checksum over. */
  function Scopes(payload: Bytes): (r: seq<Bytes>)
    ensures |r| == 3
  {
    [payload, [OPEN] + payload, payload + [CR]]
  }

  predicate Matches(scope: Bytes, received: Bytes)
  {
    received == Xmodem.WireBytes(Xmodem.Checksum(scope)) || received == VoltronicCrc(scope)
  }

  predicate MatchesSome(payload: Bytes, received: Bytes)
  {
    exists k :: 0 <= k < 3 && Matches(Scopes(payload)[k], received)
  }

  function VoltronicVerdict(raw: Bytes): (bool, Bytes)
  {
    var body := Body(raw);
    if |body| < 3 then (false, body)
    else
      var payload := body[..|body| - 2];
      (MatchesSome(payload, body[|body| - 2..]), payload)
  }

  lemma Unbumped(c: bv16)
    ensures [(c >> 8) as bv8, (c & 0xFF) as bv8] == Xmodem.WireBytes(c)
  {
  }

  method ValidateVoltronic(raw: Bytes) returns (ok: bool, payload: Bytes)
    ensures (ok, payload) == VoltronicVerdict(raw)
  {
    hide Algorithm.Checksum, Algorithm.WireBytes, Bump, VoltronicCrc, Find, StripLeft;
    var index := Find(raw, OPEN);
    var body := if index >= 0 then raw[index + 1..] else StripLeft(raw);
    if |body| < 3 {
      return false, body;
    }
    payload := body[..|body| - 2];
    var received := body[|body| - 2..];
    var scopes := [payload, [OPEN] + payload, payload + [CR]];
    assert scopes == Scopes(payload);
    hide Scopes, Body;
    for k := 0 to 3
      invariant forall j :: 0 <= j < k ==> !Matches(Scopes(payload)[j], received)
    {
      var raw_crc := Crc16Xmodem(scopes[k]);
      Unbumped(raw_crc);
      var unbumped := [(raw_crc >> 8) as bv8, (raw_crc & 0xFF) as bv8];
      var bumped := Crc16Voltronic(scopes[k]);
      if received == unbumped || received == bumped {
        assert Matches(Scopes(payload)[k], received);
        return true, payload;
      }
    }
    ok := false;
  }

  /** A response as a device sends it: junk, the start byte, the payload, and the
      checksum over one of the scopes, bumped or not. */
  function DeviceResponse(junk: Bytes, payload: Bytes, scope: nat, bumped: bool): Bytes
    requires scope < 3
  {
    var range := Scopes(payload)[scope];
    junk + [OPEN] + payload +
    if bumped then VoltronicCrc(range) else Xmodem.WireBytes(Xmodem.Checksum(range))
  }

  /** Every firmware variant is understood. */
  lemma AcceptsEveryVariant(junk: Bytes, payload: Bytes, scope: nat, bumped: bool)
    requires scope < 3 && OPEN !in junk && payload != []
    ensures VoltronicVerdict(DeviceResponse(junk, payload, scope, bumped)) == (true, payload)
  {
    hide Algorithm.Checksum, Bump, Algorithm.WireBytes, VoltronicCrc;
    var raw := DeviceResponse(junk, payload, scope, bumped);
    var w := raw[|junk| + 1 + |payload|..];
    assert raw == junk + [OPEN] + (payload + w);
    FindAfter(junk, OPEN, payload + w);
    var body := Body(raw);
    assert body == payload + w;
    assert |w| == 2 && body[|body| - 2..] == w && body[..|body| - 2] == payload;
    assert Matches(Scopes(payload)[scope], w);
  }

  // ---------------------------------------------------------------- PI18 responses

  function ValidatePi18(raw: Bytes): (bool, Bytes)
  {
    if |raw| < 3 then (false, raw)
    else
      var payload := raw[..|raw| - 2];
      (raw[|raw| - 2..] == Xmodem.WireBytes(Xmodem.Checksum(payload)), payload)
  }

  /** A PI18 response is accepted exactly when it is long enough and clears the
      register. */
  lemma Pi18AcceptsIffClears(raw: Bytes)
    ensures ValidatePi18(raw).0 <==> |raw| >= 3 && Clears(Xmodem, raw)
  {
    if |raw| >= 3 {
      hide Clears, Algorithm.Checksum, Algorithm.WireBytes;
      SealedIffClears(Xmodem, raw[..|raw| - 2], raw[|raw| - 2..]);
      assert raw == raw[..|raw| - 2] + raw[|raw| - 2..];
    }
  }

  lemma Pi18RejectsOddCorruption(raw: Bytes, corrupt: Bytes)
    requires |raw| == |corrupt| && ValidatePi18(raw).0
    requires OddOnes(Diff(Xmodem.Wire(raw), Xmodem.Wire(corrupt)))
    ensures !ValidatePi18(corrupt).0
  {
    hide Clears, ValidatePi18, Algorithm.Wire, OddOnes;
    Pi18AcceptsIffClears(raw);
    Pi18AcceptsIffClears(corrupt);
    RejectsOddCorruption(Xmodem, raw, corrupt);
  }

  lemma Pi18RejectsBurst(raw: Bytes, corrupt: Bytes, at: nat)
    requires |raw| == |corrupt| && ValidatePi18(raw).0 && raw != corrupt
    requires ConfinedTo(Xmodem.Wire(raw), Xmodem.Wire(corrupt), at, 16)
    ensures !ValidatePi18(corrupt).0
  {
    hide Clears, ValidatePi18, Algorithm.Wire;
    Pi18AcceptsIffClears(raw);
    Pi18AcceptsIffClears(corrupt);
    RejectsBurst(Xmodem, raw, corrupt, at);
  }

  lemma Pi18RejectsTwoBytes(raw: Bytes, corrupt: Bytes, k: nat)
    requires |raw| == |corrupt| && ValidatePi18(raw).0 && raw != corrupt
    requires k + 2 <= |raw| && raw[..k] == corrupt[..k] && raw[k + 2..] == corrupt[k + 2..]
    ensures !ValidatePi18(corrupt).0
  {
    hide Clears, ValidatePi18;
    Pi18AcceptsIffClears(raw);
    Pi18AcceptsIffClears(corrupt);
    RejectsTwoBytes(Xmodem, raw, corrupt, k);
  }

  /** Two flipped bits pass exactly if their distance is a multiple of 32767 bits, so
      never in a frame of at most 4095 bytes. */
  lemma Pi18TwoBitsPassExactly(raw: Bytes, corrupt: Bytes, i: nat, j: nat)
    requires |raw| == |corrupt| && ValidatePi18(raw).0
    requires DifferAt(Xmodem.Wire(raw), Xmodem.Wire(corrupt), i, j)
    ensures ValidatePi18(corrupt).0 <==> (j - i) % ORDER == 0
    ensures |raw| <= 4095 ==> !ValidatePi18(corrupt).0
  {
    hide Clears, ValidatePi18, Algorithm.Wire;
    Pi18AcceptsIffClears(raw);
    Pi18AcceptsIffClears(corrupt);
    TwoBitsPassExactly(Xmodem, raw, corrupt, i, j);
  }
}

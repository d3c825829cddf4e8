/** Requests and checksums byte by byte: reference values of the algorithms, and frames as
    they go over the wire.
 */
module WireImages {
  import opened Crc
  import opened ErrorDetection
  import opened Frames

  lemma Nothing(alg: Algorithm)
    ensures Xmodem.Checksum([]) == 0 && Modbus.Checksum([]) == 0xFFFF
  {
  }

  /** One byte more. */
  lemma Extend(alg: Algorithm, data: Bytes, before: bv16, b: bv8, after: bv16) returns (longer: Bytes)
    requires alg.Checksum(data) == before && after == EightTurned(alg, before ^ alg.Align(b))
    ensures longer == data + [b] && alg.Checksum(longer) == after
  {
    CheckByte(alg, before, b, after);
    longer := data + [b];
    FoldSnoc(alg, alg.Initial(), data, b);
    hide Algorithm.Byte, Algorithm.Fold;
  }

  /** The nine digits, which are the usual check of a CRC. */
  lemma XmodemCheckValue()
    ensures Xmodem.Checksum([0x31, 0x32, 0x33, 0x34, 0x35, 0x36, 0x37, 0x38, 0x39]) == 0x31C3
  {
    Nothing(Xmodem);
    hide Algorithm.Checksum;
    var data: Bytes := [];
    data := Extend(Xmodem, data, 0, 0x31, 0x2672);
    data := Extend(Xmodem, data, 0x2672, 0x32, 0x20B5);
    data := Extend(Xmodem, data, 0x20B5, 0x33, 0x9752);
    data := Extend(Xmodem, data, 0x9752, 0x34, 0xD789);
    data := Extend(Xmodem, data, 0xD789, 0x35, 0x546C);
    data := Extend(Xmodem, data, 0x546C, 0x36, 0x20E4);
    data := Extend(Xmodem, data, 0x20E4, 0x37, 0x86D6);
    data := Extend(Xmodem, data, 0x86D6, 0x38, 0x9015);
    data := Extend(Xmodem, data, 0x9015, 0x39, 0x31C3);
    assert data == [0x31, 0x32, 0x33, 0x34, 0x35, 0x36, 0x37, 0x38, 0x39];
  }

  /** A read-input response of one register. */
  lemma ModbusCheckValue()
    ensures Modbus.Checksum([0x1, 0x4, 0x2, 0xFF, 0xFF]) == 0x80B8
  {
    Nothing(Modbus);
    hide Algorithm.Checksum;
    var data: Bytes := [];
    data := Extend(Modbus, data, 0xFFFF, 0x1, 0x807E);
    data := Extend(Modbus, data, 0x807E, 0x4, 0xE301);
    data := Extend(Modbus, data, 0xE301, 0x2, 0x1A3);
    data := Extend(Modbus, data, 0x1A3, 0xFF, 0x3901);
    data := Extend(Modbus, data, 0x3901, 0xFF, 0x80B8);
    assert data == [0x1, 0x4, 0x2, 0xFF, 0xFF];
  }

  /** A PI30 command. */
  lemma QpigsChecksum()
    ensures Xmodem.Checksum([0x51, 0x50, 0x49, 0x47, 0x53]) == 0xB7A9
  {
    Nothing(Xmodem);
    hide Algorithm.Checksum;
    var data: Bytes := [];
    data := Extend(Xmodem, data, 0, 0x51, 0x4AD4);
    data := Extend(Xmodem, data, 0x4AD4, 0x50, 0x677B);
    data := Extend(Xmodem, data, 0x677B, 0x49, 0xBEAC);
    data := Extend(Xmodem, data, 0xBEAC, 0x47, 0xD236);
    data := Extend(Xmodem, data, 0xD236, 0x53, 0xB7A9);
    assert data == [0x51, 0x50, 0x49, 0x47, 0x53];
  }

  /** One whose low checksum byte is a line feed, which is sent bumped. */
  lemma Pop02Checksum()
    ensures Xmodem.Checksum([0x50, 0x4F, 0x50, 0x30, 0x32]) == 0xE20A
  {
    Nothing(Xmodem);
    hide Algorithm.Checksum;
    var data: Bytes := [];
    data := Extend(Xmodem, data, 0, 0x50, 0x5AF5);
    data := Extend(Xmodem, data, 0x5AF5, 0x4F, 0xB794);
    data := Extend(Xmodem, data, 0xB794, 0x50, 0x19C9);
    data := Extend(Xmodem, data, 0x19C9, 0x30, 0x7C4B);
    data := Extend(Xmodem, data, 0x7C4B, 0x32, 0xE20A);
    assert data == [0x50, 0x4F, 0x50, 0x30, 0x32];
  }

  /** A request for one holding register. */
  lemma ReadOneChecksum()
    ensures Modbus.Checksum([0x1, 0x3, 0, 0, 0, 0x1]) == 0xA84
    ensures Modbus.WireBytes(Modbus.Checksum([0x1, 0x3, 0, 0, 0, 0x1])) == [0x84, 0x0A]
  {
    Nothing(Modbus);
    hide Algorithm.Checksum;
    var data: Bytes := [];
    data := Extend(Modbus, data, 0xFFFF, 0x1, 0x807E);
    data := Extend(Modbus, data, 0x807E, 0x3, 0x2140);
    data := Extend(Modbus, data, 0x2140, 0, 0xF020);
    data := Extend(Modbus, data, 0xF020, 0, 0xD8F1);
    data := Extend(Modbus, data, 0xD8F1, 0, 0x8419);
    data := Extend(Modbus, data, 0x8419, 0x1, 0xA84);
    assert data == [0x1, 0x3, 0, 0, 0, 0x1];
  }

  // ---------------------------------------------------------------- PI30, byte by byte

  /** A byte that would read as a start byte, a carriage return or a line feed goes out one
      higher. */
  function Sent(b: bv8): bv8 { if b == 0x28 || b == 0x0D || b == 0x0A then b + 1 else b }

  /** A request is its command, the checksum high byte first, and a carriage return. */
  lemma RequestBytes(body: Bytes)
    ensures
      var c := Xmodem.Checksum(body);
      BuildPi30Frame(body) == body + [Sent(High(c)), Sent(Low(c)), 0x0D]
  {
    hide Algorithm.Checksum, High, Low;
  }

  /** The request QPIGS, and one whose checksum is bumped. */
  lemma KnownRequests()
    ensures BuildPi30Frame([0x51, 0x50, 0x49, 0x47, 0x53]) == [0x51, 0x50, 0x49, 0x47, 0x53, 0xB7, 0xA9, 0x0D]
    ensures BuildPi30Frame([0x50, 0x4F, 0x50, 0x30, 0x32]) == [0x50, 0x4F, 0x50, 0x30, 0x32, 0xE2, 0x0B, 0x0D]
  {
    QpigsChecksum();
    Pop02Checksum();
    RequestBytes([0x51, 0x50, 0x49, 0x47, 0x53]);
    RequestBytes([0x50, 0x4F, 0x50, 0x30, 0x32]);
    hide Algorithm.Checksum, BuildPi30Frame;
  }

  /** Two bytes are the checksum of a range, as it is or bumped. */
  predicate Seals(range: Bytes, w: Bytes)
  {
    var c := Xmodem.Checksum(range);
    w == [High(c), Low(c)] || w == [Sent(High(c)), Sent(Low(c))]
  }

  lemma MatchesIsSeals(range: Bytes, w: Bytes)
    ensures Matches(range, w) <==> Seals(range, w)
  {
    hide Algorithm.Checksum, High, Low;
  }

  /** Over the payload alone, with the start byte, or with a carriage return. */
  predicate SealsSome(payload: Bytes, w: Bytes)
  {
    Seals(payload, w) || Seals([0x28] + payload, w) || Seals(payload + [0x0D], w)
  }

  lemma MatchesSomeIsSealsSome(payload: Bytes, w: Bytes)
    ensures MatchesSome(payload, w) <==> SealsSome(payload, w)
  {
    MatchesIsSeals(payload, w);
    MatchesIsSeals([0x28] + payload, w);
    MatchesIsSeals(payload + [0x0D], w);
    assert Scopes(payload)[0] == payload && Scopes(payload)[1] == [0x28] + payload;
    assert Scopes(payload)[2] == payload + [0x0D];
    hide Matches, Seals;
  }

  /** A response with a start byte, after any bytes without one: its verdict and its payload. */
  lemma FramedResponse(junk: Bytes, payload: Bytes, w: Bytes)
    requires 0x28 !in junk && payload != [] && |w| == 2
    ensures VoltronicVerdict(junk + [0x28] + payload + w) == (SealsSome(payload, w), payload)
  {
    var raw := junk + [0x28] + payload + w;
    assert raw == junk + [0x28] + (payload + w);
    FindAfter(junk, 0x28, payload + w);
    VerdictOf(raw, payload, w);
  }

  lemma VerdictOf(raw: Bytes, payload: Bytes, w: Bytes)
    requires Body(raw) == payload + w && payload != [] && |w| == 2
    ensures VoltronicVerdict(raw) == (SealsSome(payload, w), payload)
  {
    MatchesSomeIsSealsSome(payload, w);
    assert (payload + w)[..|payload|] == payload && (payload + w)[|payload|..] == w;
    hide Body, MatchesSome, SealsSome;
  }

  /** Spaces, tabs, line ends and zero bytes. */
  predicate Blanks(s: Bytes)
  {
    forall i :: 0 <= i < |s| ==> s[i] == 0x20 || s[i] == 0x09 || s[i] == 0x0A || s[i] == 0x0D || s[i] == 0x00
  }

  lemma {:induction false} StripsBlanks(blanks: Bytes, s: Bytes)
    requires Blanks(blanks) && s != [] && !Blanks(s[..1])
    ensures StripLeft(blanks + s) == s
    decreases |blanks|
  {
    if blanks == [] {
      assert blanks + s == s;
    } else {
      assert (blanks + s)[1..] == blanks[1..] + s;
      StripsBlanks(blanks[1..], s);
    }
  }

  /** One without a start byte: leading blanks do not belong to it. */
  lemma UnframedResponse(blanks: Bytes, payload: Bytes, w: Bytes)
    requires Blanks(blanks) && payload != [] && !Blanks(payload[..1]) && |w| == 2
    requires 0x28 !in payload && 0x28 !in w
    ensures VoltronicVerdict(blanks + payload + w) == (SealsSome(payload, w), payload)
  {
    var raw := blanks + payload + w;
    assert raw == blanks + (payload + w);
    assert (payload + w)[..1] == payload[..1];
    StripsBlanks(blanks, payload + w);
    assert forall i :: 0 <= i < |blanks| ==> blanks[i] != 0x28;
    assert 0x28 !in raw;
    assert Find(raw, 0x28) == -1;
    VerdictOf(raw, payload, w);
  }

  /** Too short a response is refused, and handed back without what goes before it. */
  lemma ShortResponse(junk: Bytes, body: Bytes)
    requires 0x28 !in junk && |body| < 3
    ensures VoltronicVerdict(junk + [0x28] + body) == (false, body)
  {
    FindAfter(junk, 0x28, body);
    assert (junk + [0x28] + body)[|junk| + 1..] == body;
  }

  /** PI18 responses go through with the plain checksum only, and give back their payload. */
  lemma Pi18Response(payload: Bytes, w: Bytes)
    requires |w| == 2
    ensures
      var c := Xmodem.Checksum(payload);
      ValidatePi18(payload + w) ==
        if payload == [] then (false, w) else (w == [High(c), Low(c)], payload)
  {
    assert (payload + w)[..|payload|] == payload && (payload + w)[|payload|..] == w;
    assert payload == [] ==> payload + w == w;
    hide Algorithm.Checksum, High, Low;
  }
}

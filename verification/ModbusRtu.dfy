/** Modbus RTU 'read holding registers': building the request, and the two ways the
    program reads the response, from a complete buffer and from a byte stream.

    Frame layout: MODBUS Application Protocol V1.1b3 section 6.3; checksum: MODBUS
    over Serial Line V1.02 section 6.2.2.
 */
module ModbusRtu {
  import opened Wrappers
  import opened Crc
  import opened ErrorDetection
  import opened TwoBitErrors

  datatype ReadError =
    | Short
    | WrongUnit(uid: bv8)
    | DeviceException(code: bv8)
    | BadChecksum
    | OddByteCount
    | IndexOutOfRange

  type Reading = Result<seq<bv16>, ReadError>

  function Word(hi: bv8, lo: bv8): bv16 { ((hi as bv16) << 8) | (lo as bv16) }

  function Words(data: Bytes, n: nat): (r: seq<bv16>)
    requires 2 * n <= |data|
    ensures |r| == n
  {
    seq(n, i requires 0 <= i < n => Word(data[2 * i], data[2 * i + 1]))
  }

  lemma WordsSnoc(data: Bytes, n: nat)
    requires 2 * n + 2 <= |data|
    ensures Words(data, n + 1) == Words(data, n) + [Word(data[2 * n], data[2 * n + 1])]
  {
    hide Word;
  }

  // ---------------------------------------------------------------- requests

  method BuildReadHoldingFrame(start: bv16, count: bv16, unit: bv8) returns (frame: Bytes)
    ensures |frame| == 8 && frame[0] == unit && frame[1] == 3
    ensures Word(frame[2], frame[3]) == start && Word(frame[4], frame[5]) == count
    ensures frame[6..] == Modbus.WireBytes(Modbus.Checksum(frame[..6]))
    ensures Clears(Modbus, frame)
  {
    WordOfBytes(start);
    WordOfBytes(count);
    hide *;
    frame := [unit, 3, (start >> 8) as bv8, (start & 0xFF) as bv8, (count >> 8) as bv8, (count & 0xFF) as bv8];
    var req := frame;
    var crc := Crc16Modbus(req);
    frame := frame + [(crc & 0xFF) as bv8];
    frame := frame + [(crc >> 8) as bv8];
    LowFirst(crc);
    assert frame == req + Modbus.WireBytes(crc);
    SealedIffClears(Modbus, req, Modbus.WireBytes(crc));
  }

  lemma WordOfBytes(w: bv16)
    ensures Word((w >> 8) as bv8, (w & 0xFF) as bv8) == w
  {
  }

  lemma LowFirst(crc: bv16)
    ensures [(crc & 0xFF) as bv8, (crc >> 8) as bv8] == Modbus.WireBytes(crc)
  {
  }

  // ---------------------------------------------------------------- the buffer parser

  function ByteCount(resp: Bytes): nat
    requires |resp| >= 3
  {
    resp[2] as nat
  }

  function Data(resp: Bytes): (d: Bytes)
    requires |resp| >= 3 && |resp| >= ByteCount(resp) + 5
    ensures |d| == ByteCount(resp)
  {
    resp[3..ByteCount(resp) + 3]
  }

  /** The checksum that follows the counted data is the one of all that precedes it. */
  predicate Intact(resp: Bytes)
    requires |resp| >= 3 && |resp| >= ByteCount(resp) + 5
  {
    var end := ByteCount(resp) + 3;
    Word(resp[end + 1], resp[end]) == Modbus.Checksum(resp[..end])
  }

  predicate IsException(func: bv8) { func & 0x80 != 0 }

  /** The registers both readers take from the counted data: as many as were asked,
      in steps of two bytes.  None when the last step runs past the data. */
  function Registers(data: Bytes, count: int): Option<seq<bv16>>
  {
    var limit := Least(|data|, count * 2);
    if limit <= 0 then Some([])
    else if limit % 2 == 1 then None
    else Some(Words(data, limit / 2))
  }

  method CollectRegisters(data: Bytes, count: int) returns (r: Option<seq<bv16>>)
    ensures r == Registers(data, count)
  {
    var regs: seq<bv16> := [];
    var i := 0;
    assert regs == Words(data, 0);
    hide Words, Word;
    while i < Least(|data|, count * 2)
      invariant 0 <= i <= |data| && i % 2 == 0
      invariant i == 0 || i <= Least(|data|, count * 2)
      invariant regs == Words(data, i / 2)
    {
      if i + 1 >= |data| { return None; }
      WordsSnoc(data, i / 2);
      regs := regs + [Word(data[i], data[i + 1])];
      i := i + 2;
    }
    r := Some(regs);
  }

  function BufferReading(resp: Bytes, count: int, unit: bv8): Reading
  {
    if |resp| < 5 then Failure(Short)
    else if resp[0] != unit then Failure(WrongUnit(resp[0]))
    else if IsException(resp[1]) then Failure(DeviceException(resp[2]))
    else if |resp| < ByteCount(resp) + 5 then Failure(Short)
    else if !Intact(resp) then Failure(BadChecksum)
    else
      match Registers(Data(resp), count)
      case Some(regs) => Success(regs)
      case None => Failure(IndexOutOfRange)
  }

  lemma BufferPieces(resp: Bytes)
    requires |resp| >= 5
    ensures ByteCount(resp) == resp[2] as nat
    ensures |resp| >= ByteCount(resp) + 5 ==>
      var end := 3 + ByteCount(resp);
      && Data(resp) == resp[3..end]
      && Intact(resp) == (Word(resp[end + 1], resp[end]) == Modbus.Checksum(resp[..end]))
  {
    hide Word, Algorithm.Checksum;
  }

  method ParseReadHoldingResponse(resp: Bytes, count: int, unit: bv8) returns (r: Reading)
    ensures r == BufferReading(resp, count, unit)
  {
    hide Algorithm.Checksum, Word, Registers;
    if |resp| >= 5 {
      BufferPieces(resp);
    }
    hide Intact, Data, ByteCount;
    if |resp| < 5 { return Failure(Short); }
    var uid, func := resp[0], resp[1];
    if uid != unit { return Failure(WrongUnit(uid)); }
    if func & 0x80 != 0 { return Failure(DeviceException(resp[2])); }
    var byte_count := resp[2] as nat;
    var end := 3 + byte_count;
    if |resp| < end + 2 { return Failure(Short); }
    var data := resp[3..end];
    var received := Word(resp[end + 1], resp[end]);
    var expected := Crc16Modbus(resp[..end]);
    if received != expected { return Failure(BadChecksum); }
    var regs := CollectRegisters(data, count);
    if regs.None? { return Failure(IndexOutOfRange); }
    r := Success(regs.value);
  }

  // ---------------------------------------------------------------- the streaming reader

  /** What the streaming reader makes of all the bytes that arrive before the
      connection ends. */
  function StreamReading(stream: Bytes, count: int, unit: bv8): Reading
  {
    if |stream| < 2 then Failure(Short)
    else if stream[0] != unit then Failure(WrongUnit(stream[0]))
    else if IsException(stream[1]) then
      if |stream| < 5 then Failure(Short) else Failure(DeviceException(stream[2]))
    else if |stream| < 3 || |stream| < ByteCount(stream) + 5 then Failure(Short)
    else if !Intact(stream) then Failure(BadChecksum)
    else if ByteCount(stream) % 2 != 0 then Failure(OddByteCount)
    else Success(Registers(Data(stream), count).value)
  }

  /** The reader's input: the bytes still to come, taken exactly `n` at a time. */
  class StreamReader {
    var pending: Bytes

    constructor (bytes: Bytes)
      ensures pending == bytes
    {
      pending := bytes;
    }

    method ReadExactly(n: nat) returns (r: Option<Bytes>)
      modifies this
      ensures r.Some? <==> n <= |old(pending)|
      ensures r.Some? ==> |r.value| == n && old(pending) == r.value + pending
    {
      if n > |pending| {
        pending := [];
        return None;
      }
      r := Some(pending[..n]);
      pending := pending[n..];
    }
  }

  method ReadBlock(reader: StreamReader, count: int, unit: bv8) returns (r: Reading)
    modifies reader
    ensures r == StreamReading(old(reader.pending), count, unit)
  {
    hide Algorithm.Checksum, Word;
    ghost var stream := reader.pending;
    var header := reader.ReadExactly(2);
    if header.None? { return Failure(Short); }
    var uid, func := header.value[0], header.value[1];
    if uid != unit { return Failure(WrongUnit(uid)); }
    if func & 0x80 != 0 {
      var exc := reader.ReadExactly(3);
      if exc.None? { return Failure(Short); }
      return Failure(DeviceException(exc.value[0]));
    }
    var bc := reader.ReadExactly(1);
    if bc.None? { return Failure(Short); }
    var byte_count := bc.value[0] as nat;
    var rest := reader.ReadExactly(byte_count + 2);
    if rest.None? { return Failure(Short); }
    ReadPieces(stream, header.value, bc.value, rest.value, reader.pending);
    hide Intact, Data, Registers;
    var data := rest.value[..byte_count];
    var expected := Crc16Modbus(header.value + bc.value + data);
    var received := Word(rest.value[byte_count + 1], rest.value[byte_count]);
    if received != expected { return Failure(BadChecksum); }
    if byte_count % 2 != 0 { return Failure(OddByteCount); }
    var regs := CollectRegisters(data, count);
    EvenNeverRunsOver(data, count);
    r := Success(regs.value);
  }

  /** The pieces the reader takes, in terms of the whole stream. */
  lemma ReadPieces(stream: Bytes, header: Bytes, bc: Bytes, rest: Bytes, pending: Bytes)
    requires |header| == 2 && |bc| == 1 && |rest| == bc[0] as nat + 2
    requires stream == header + (bc + (rest + pending))
    ensures |stream| >= ByteCount(stream) + 5 && ByteCount(stream) == |rest| - 2
    ensures Data(stream) == rest[..|rest| - 2]
    ensures Intact(stream) <==>
      Word(rest[|rest| - 1], rest[|rest| - 2]) == Modbus.Checksum(header + bc + rest[..|rest| - 2])
  {
    hide Algorithm.Checksum, Word;
    Pieces(stream, header, bc, rest, pending);
  }

  lemma Pieces<T>(stream: seq<T>, header: seq<T>, bc: seq<T>, rest: seq<T>, pending: seq<T>)
    requires |header| == 2 && |bc| == 1 && |rest| >= 2
    requires stream == header + (bc + (rest + pending))
    ensures |stream| >= |rest| + 3 && stream[2] == bc[0]
    ensures stream[3..|rest| + 1] == rest[..|rest| - 2]
    ensures stream[..|rest| + 1] == header + bc + rest[..|rest| - 2]
    ensures stream[|rest| + 1] == rest[|rest| - 2] && stream[|rest| + 2] == rest[|rest| - 1]
  {
  }

  lemma EvenNeverRunsOver(data: Bytes, count: int)
    requires |data| % 2 == 0
    ensures Registers(data, count).Some?
  {
  }

  // ---------------------------------------------------------------- the two readers compared

  /** What a caller gets: the registers, or nothing. */
  function Outcome(r: Reading): Option<seq<bv16>>
  {
    match r case Success(regs) => Some(regs) case Failure(_) => None
  }

  /** A frame that passes every check but for the parity of its byte count. */
  predicate WellFormed(resp: Bytes, unit: bv8)
  {
    && |resp| >= 5 && resp[0] == unit && !IsException(resp[1])
    && |resp| >= ByteCount(resp) + 5 && Intact(resp)
  }

  /** The readers disagree exactly on well-formed frames with an odd byte count of
      which fewer registers are asked than they hold: the buffer parser does not
      check the parity. */
  lemma ReadersDisagreeExactly(resp: Bytes, count: int, unit: bv8)
    ensures
      Outcome(BufferReading(resp, count, unit)) != Outcome(StreamReading(resp, count, unit))
      <==> WellFormed(resp, unit) && ByteCount(resp) % 2 == 1 && count * 2 < ByteCount(resp)
    ensures StreamReading(resp, count, unit).Success? ==>
      BufferReading(resp, count, unit) == StreamReading(resp, count, unit)
  {
    hide Intact, Words, IsException, Data;
  }

  /** Such frames exist for every number of registers asked and any data: one byte more
      than the registers take. */
  lemma ReadersDisagreeOnSpareByte(unit: bv8, data: Bytes, bc: bv8, count: nat)
    requires count <= 127 && |data| == 2 * count + 1 && bc as int == 2 * count + 1
    ensures
      var head := [unit, 3, bc] + data;
      var resp := head + Modbus.WireBytes(Modbus.Checksum(head));
      && BufferReading(resp, count, unit) == Success(Words(data, count))
      && StreamReading(resp, count, unit) == Failure(OddByteCount)
  {
    var head := [unit, 3, bc] + data;
    var c := Modbus.Checksum(head);
    var w := Modbus.WireBytes(c);
    SpareByteFrame(unit, data, bc, w);
    var resp := head + w;
    SealedWord(c, w[0], w[1]);
    assert !IsException(3);
    hide Algorithm.Checksum, Algorithm.WireBytes, Word, IsException, Words, BufferReading, StreamReading, Data;
    assert Intact(resp);
    hide Intact, ByteCount;
    SpareByteReadings(resp, data, unit, count);
  }

  lemma SpareByteReadings(resp: Bytes, data: Bytes, unit: bv8, count: nat)
    requires |resp| >= 5 && resp[0] == unit && !IsException(resp[1])
    requires ByteCount(resp) == |data| == 2 * count + 1 && |resp| >= |data| + 5
    requires Data(resp) == data && Intact(resp)
    ensures BufferReading(resp, count, unit) == Success(Words(data, count))
    ensures StreamReading(resp, count, unit) == Failure(OddByteCount)
  {
    hide Intact, Data, ByteCount, IsException, Word;
    assert count == 0 ==> Words(data, 0) == [];
  }

  /** Where the pieces of a frame with a header, its data and two checksum bytes are. */
  lemma SpareByteFrame(unit: bv8, data: Bytes, bc: bv8, w: Bytes)
    requires bc as int == |data| && |w| == 2
    ensures
      var head := [unit, 3, bc] + data;
      var resp := head + w;
      var end := |data| + 3;
      && |resp| == end + 2 && resp[0] == unit && resp[1] == 3 && ByteCount(resp) == |data|
      && Data(resp) == data && resp[..end] == head && resp[end] == w[0] && resp[end + 1] == w[1] && w == [w[0], w[1]]
  {
    var resp := [unit, 3, bc] + data + w;
    assert resp[2] == bc;
    assert ByteCount(resp) == |data|;
  }

  // ---------------------------------------------------------------- round trip

  function WordBytes(w: bv16): Bytes { [High(w), Low(w)] }

  function Payload(regs: seq<bv16>): (r: Bytes)
    ensures |r| == 2 * |regs|
  {
    if regs == [] then [] else WordBytes(regs[0]) + Payload(regs[1..])
  }

  /** The response frame that carries `regs`. */
  predicate Carries(frame: Bytes, unit: bv8, regs: seq<bv16>)
  {
    && |regs| <= 127
    && |frame| == 2 * |regs| + 5
    && frame[0] == unit && frame[1] == 3 && ByteCount(frame) == 2 * |regs|
    && frame[3..2 * |regs| + 3] == Payload(regs)
    && frame[2 * |regs| + 3..] == Modbus.WireBytes(Modbus.Checksum(frame[..2 * |regs| + 3]))
  }

  lemma WordRoundTrip(w: bv16)
    ensures Word(High(w), Low(w)) == w
  {
  }

  lemma WordsCons(data: Bytes, n: nat)
    requires 2 * n + 2 <= |data|
    ensures Words(data, n + 1) == [Word(data[0], data[1])] + Words(data[2..], n)
  {
    hide Word;
  }

  lemma PairFirst<T>(x: T, y: T, rest: seq<T>)
    ensures var s := [x, y] + rest; s[0] == x && s[1] == y && s[2..] == rest
  {
  }

  lemma FirstThenRest<T>(s: seq<T>, n: nat)
    requires 0 < n <= |s|
    ensures s[..n] == [s[0]] + s[1..][..n - 1]
  {
  }

  lemma {:induction false} WordsOfPayload(regs: seq<bv16>, n: nat)
    requires n <= |regs|
    ensures Words(Payload(regs), n) == regs[..n]
  {
    if n > 0 {
      WordRoundTrip(regs[0]);
      hide Word, High, Low, Words;
      WordsOfPayload(regs[1..], n - 1);
      PairFirst(High(regs[0]), Low(regs[0]), Payload(regs[1..]));
      WordsCons(Payload(regs), n - 1);
      FirstThenRest(regs, n);
    }
  }

  lemma SealedWord(c: bv16, lo: bv8, hi: bv8)
    ensures Word(hi, lo) == c <==> [lo, hi] == Modbus.WireBytes(c)
  {
    assert Modbus.WireBytes(c) == [Low(c), High(c)];
    WordRoundTrip(c);
    WordParts(hi, lo);
    hide Word, High, Low;
  }

  lemma WordParts(hi: bv8, lo: bv8)
    ensures High(Word(hi, lo)) == hi && Low(Word(hi, lo)) == lo
  {
  }

  /** Both readers recover every register list from its frame, up to the number asked. */
  lemma ReadersRoundTrip(frame: Bytes, unit: bv8, regs: seq<bv16>, count: nat)
    requires Carries(frame, unit, regs)
    ensures BufferReading(frame, count, unit) == Success(regs[..Least(|regs|, count)])
    ensures StreamReading(frame, count, unit) == Success(regs[..Least(|regs|, count)])
  {
    hide Word, Algorithm.WireBytes, Algorithm.Checksum, Payload, Words;
    var end := ByteCount(frame) + 3;
    SealedWord(Modbus.Checksum(frame[..end]), frame[end], frame[end + 1]);
    assert frame[end..] == [frame[end], frame[end + 1]];
    assert Intact(frame);
    assert !IsException(frame[1]);
    assert Data(frame) == Payload(regs);
    hide Intact, IsException, Data;
    WordsOfPayload(regs, Least(|regs|, count));
  }

  // ---------------------------------------------------------------- corruption

  /** Within a well-formed frame, intact means that the frame clears the register. */
  lemma IntactIffClears(resp: Bytes)
    requires |resp| >= 3 && |resp| == ByteCount(resp) + 5
    ensures Intact(resp) <==> Clears(Modbus, resp)
  {
    hide Word, Clears, Algorithm.WireBytes, Algorithm.Checksum;
    var end := ByteCount(resp) + 3;
    SealedWord(Modbus.Checksum(resp[..end]), resp[end], resp[end + 1]);
    SealedIffClears(Modbus, resp[..end], resp[end..]);
    assert resp[end..] == [resp[end], resp[end + 1]];
    assert resp == resp[..end] + resp[end..];
  }

  /** Corruption of the data and checksum bytes of a good response is reported as such when
      the corrupt frame does not clear the register. */
  lemma UnclearedIsReported(resp: Bytes, corrupt: Bytes, count: int, unit: bv8)
    requires WellFormed(resp, unit) && |resp| == ByteCount(resp) + 5
    requires |corrupt| == |resp| && corrupt[..3] == resp[..3] && !Clears(Modbus, corrupt)
    ensures BufferReading(corrupt, count, unit) == Failure(BadChecksum)
    ensures StreamReading(corrupt, count, unit) == Failure(BadChecksum)
  {
    hide Intact, Clears, Words;
    assert resp[..3][0] == resp[0] && resp[..3][1] == resp[1] && resp[..3][2] == resp[2];
    assert corrupt[..3][0] == corrupt[0] && corrupt[..3][1] == corrupt[1] && corrupt[..3][2] == corrupt[2];
    IntactIffClears(corrupt);
  }

  /** An odd number of flipped bits. */
  lemma OddCorruptionIsReported(resp: Bytes, corrupt: Bytes, count: int, unit: bv8)
    requires WellFormed(resp, unit) && |resp| == ByteCount(resp) + 5
    requires |corrupt| == |resp| && corrupt[..3] == resp[..3]
    requires OddOnes(Diff(Modbus.Wire(resp), Modbus.Wire(corrupt)))
    ensures BufferReading(corrupt, count, unit) == Failure(BadChecksum)
    ensures StreamReading(corrupt, count, unit) == Failure(BadChecksum)
  {
    IntactIffClears(resp);
    hide Intact, Clears, Algorithm.Wire, OddOnes, BufferReading, StreamReading;
    RejectsOddCorruption(Modbus, resp, corrupt);
    UnclearedIsReported(resp, corrupt, count, unit);
  }

  /** A change within sixteen consecutive bits of the wire, from bit `bit` on. */
  lemma BurstIsReported(resp: Bytes, corrupt: Bytes, count: int, unit: bv8, bit: nat)
    requires WellFormed(resp, unit) && |resp| == ByteCount(resp) + 5
    requires |corrupt| == |resp| && corrupt[..3] == resp[..3] && corrupt != resp
    requires ConfinedTo(Modbus.Wire(resp), Modbus.Wire(corrupt), bit, 16)
    ensures BufferReading(corrupt, count, unit) == Failure(BadChecksum)
    ensures StreamReading(corrupt, count, unit) == Failure(BadChecksum)
  {
    IntactIffClears(resp);
    hide Intact, Clears, Algorithm.Wire, ConfinedTo, BufferReading, StreamReading;
    RejectsBurst(Modbus, resp, corrupt, bit);
    UnclearedIsReported(resp, corrupt, count, unit);
  }

  /** A change within the two bytes from byte `k` on. */
  lemma TwoBytesAreReported(resp: Bytes, corrupt: Bytes, count: int, unit: bv8, k: nat)
    requires WellFormed(resp, unit) && |resp| == ByteCount(resp) + 5
    requires |corrupt| == |resp| && corrupt[..3] == resp[..3] && corrupt != resp
    requires k + 2 <= |resp| && resp[..k] == corrupt[..k] && resp[k + 2..] == corrupt[k + 2..]
    ensures BufferReading(corrupt, count, unit) == Failure(BadChecksum)
    ensures StreamReading(corrupt, count, unit) == Failure(BadChecksum)
  {
    IntactIffClears(resp);
    hide Intact, Clears, Algorithm.Wire, BufferReading, StreamReading;
    RejectsTwoBytes(Modbus, resp, corrupt, k);
    UnclearedIsReported(resp, corrupt, count, unit);
  }

  /** Any two flipped bits. */
  lemma TwoBitsAreReported(resp: Bytes, corrupt: Bytes, count: int, unit: bv8, i: nat, j: nat)
    requires WellFormed(resp, unit) && |resp| == ByteCount(resp) + 5
    requires |corrupt| == |resp| && corrupt[..3] == resp[..3]
    requires DifferAt(Modbus.Wire(resp), Modbus.Wire(corrupt), i, j)
    ensures BufferReading(corrupt, count, unit) == Failure(BadChecksum)
    ensures StreamReading(corrupt, count, unit) == Failure(BadChecksum)
  {
    IntactIffClears(resp);
    assert |resp| <= 260;
    hide Intact, Clears, Algorithm.Wire, BufferReading, StreamReading;
    TwoBitsPassExactly(Modbus, resp, corrupt, i, j);
    UnclearedIsReported(resp, corrupt, count, unit);
  }

  // ---------------------------------------------------------------- responses, byte by byte

  /** As many registers as were asked and are there, each from its high and its low byte. */
  predicate Spelled(regs: seq<bv16>, data: Bytes, count: int)
  {
    && |regs| == (if count <= 0 then 0 else if 2 * count <= |data| then count else |data| / 2)
    && forall k :: 0 <= k < |regs| ==>
         2 * k + 1 < |data| && High(regs[k]) == data[2 * k] && Low(regs[k]) == data[2 * k + 1]
  }

  lemma RegistersAreSpelled(data: Bytes, count: int)
    ensures Registers(data, count).None? <==> |data| % 2 == 1 && 2 * count > |data|
    ensures Registers(data, count).Some? ==> Spelled(Registers(data, count).value, data, count)
  {
    if Registers(data, count).Some? {
      var regs := Registers(data, count).value;
      forall k | 0 <= k < |regs|
        ensures 2 * k + 1 < |data| && High(regs[k]) == data[2 * k] && Low(regs[k]) == data[2 * k + 1]
      {
        WordParts(data[2 * k], data[2 * k + 1]);
      }
    }
    hide Word, High, Low;
  }

  /** A response in full: unit, function, byte count, data, checksum with its low byte first,
      and possibly more bytes. */
  lemma FullResponse(
      unit: bv8, u: bv8, func: bv8, bc: bv8, data: Bytes, lo: bv8, hi: bv8, more: Bytes, count: int)
    requires bc as int == |data|
    ensures
      var c := Modbus.Checksum([u, func, bc] + data);
      var sealed := lo == Low(c) && hi == High(c);
      var frame := [u, func, bc] + data + [lo, hi] + more;
      var buffer, stream := BufferReading(frame, count, unit), StreamReading(frame, count, unit);
      if u != unit then buffer == stream == Failure(WrongUnit(u))
      else if func >= 0x80 then buffer == stream == Failure(DeviceException(bc))
      else if !sealed then buffer == stream == Failure(BadChecksum)
      else
        && (if |data| % 2 == 1 && 2 * count > |data| then buffer == Failure(IndexOutOfRange)
            else buffer.Success? && Spelled(buffer.value, data, count))
        && (if |data| % 2 == 1 then stream == Failure(OddByteCount) else stream == buffer)
  {
    var head := [u, func, bc] + data;
    var frame := head + [lo, hi] + more;
    FullFrame(u, func, bc, data, lo, hi, more);
    ExceptionBit(func);
    SealedWord(Modbus.Checksum(head), lo, hi);
    RegistersAreSpelled(data, count);
    hide Algorithm.Checksum, Word, High, Low, Registers, Spelled, IsException, Data, Intact, ByteCount;
  }

  lemma ExceptionBit(func: bv8)
    ensures IsException(func) <==> func >= 0x80
  {
  }

  lemma FullFrame(u: bv8, func: bv8, bc: bv8, data: Bytes, lo: bv8, hi: bv8, more: Bytes)
    requires bc as int == |data|
    ensures
      var head := [u, func, bc] + data;
      var frame := head + [lo, hi] + more;
      && |frame| >= 5 + |data| && frame[0] == u && frame[1] == func && frame[2] == bc
      && ByteCount(frame) == |data| && Data(frame) == data
      && (Intact(frame) <==> Word(hi, lo) == Modbus.Checksum(head))
  {
    hide Algorithm.Checksum, Word;
    var head := [u, func, bc] + data;
    var frame := head + [lo, hi] + more;
    BufferPieces(frame);
    assert frame[..|data| + 3] == head && frame[3..|data| + 3] == data;
    assert frame[|data| + 3] == lo && frame[|data| + 4] == hi;
  }

  /** A response that is cut short, of the right unit and without an exception. */
  lemma CutResponse(resp: Bytes, unit: bv8, count: int)
    requires |resp| >= 2 ==> resp[0] == unit && resp[1] < 0x80
    requires |resp| < 3 || |resp| < 5 + resp[2] as int
    ensures BufferReading(resp, count, unit) == StreamReading(resp, count, unit) == Failure(Short)
  {
    if |resp| >= 2 {
      ExceptionBit(resp[1]);
    }
    hide IsException, Intact;
  }
}

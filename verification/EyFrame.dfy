/** EyBond frames.  A header of three big-endian words (tid, device code, length) and two
    bytes (device address, function code) precedes the payload; its length field counts
    the frame without the first six bytes.  A loop cuts the byte stream into frames. */
module EyFrame {
  import opened Wrappers

  type Octet = x: int | 0 <= x < 256

  type Octets = seq<Octet>

  const HEADER_SIZE := 8
  const WIRE_LEN_OFFSET := 6
  const FC_FORWARD2DEVICE := 4

  datatype Header = Header(tid: int, devcode: int, wireLen: int, devaddr: int, fcode: int) {

    function TotalLen(): int { wireLen + WIRE_LEN_OFFSET }

    /** Negative when the header claims less than its own length. */
    function PayloadLen(): int { TotalLen() - HEADER_SIZE }

    /** Every field fits its place on the wire. */
    predicate Fits()
    {
      && 0 <= tid < 0x10000 && 0 <= devcode < 0x10000 && 0 <= wireLen < 0x10000
      && 0 <= devaddr < 256 && 0 <= fcode < 256
    }
  }

  datatype Frame = Frame(header: Header, payload: Octets) {
    /** The payload is as long as the header says, or empty when it says less. */
    predicate Consistent()
    {
      header.Fits() && |payload| == if header.PayloadLen() > 0 then header.PayloadLen() else 0
    }
  }

  function BigEndian(n: int): (r: Octets)
    requires 0 <= n < 0x10000
    ensures |r| == 2
  {
    [n / 256, n % 256]
  }

  function FromBigEndian(hi: Octet, lo: Octet): int { hi * 256 + lo }

  function Pack(h: Header): (r: Octets)
    requires h.Fits()
    ensures |r| == HEADER_SIZE
  {
    BigEndian(h.tid) + BigEndian(h.devcode) + BigEndian(h.wireLen) + [h.devaddr, h.fcode]
  }

  /** Packing fails when a field does not fit, as the program's struct packing does. */
  function EncodeHeader(tid: int, devcode: int, totalLen: int, devaddr: int, fcode: int): Option<Octets>
  {
    var h := Header(tid, devcode, totalLen - WIRE_LEN_OFFSET, devaddr, fcode);
    if h.Fits() then Some(Pack(h)) else None
  }

  function DecodeHeader(data: Octets): Header
    requires |data| >= HEADER_SIZE
  {
    Header(FromBigEndian(data[0], data[1]), FromBigEndian(data[2], data[3]),
           FromBigEndian(data[4], data[5]), data[6], data[7])
  }

  /** The header codec is a bijection between eight bytes and headers that fit. */
  lemma HeaderRoundTrip(h: Header, rest: Octets)
    requires h.Fits()
    ensures DecodeHeader(Pack(h) + rest) == h
  {
    var data := Pack(h) + rest;
    assert data[0] == h.tid / 256 && data[1] == h.tid % 256;
    assert data[2] == h.devcode / 256 && data[3] == h.devcode % 256;
    assert data[4] == h.wireLen / 256 && data[5] == h.wireLen % 256;
    assert data[6] == h.devaddr && data[7] == h.fcode;
  }

  lemma HeaderIsItsBytes(data: Octets)
    requires |data| >= HEADER_SIZE
    ensures DecodeHeader(data).Fits() && Pack(DecodeHeader(data)) == data[..HEADER_SIZE]
  {
    TwoBytes(data[0], data[1]);
    TwoBytes(data[2], data[3]);
    TwoBytes(data[4], data[5]);
  }

  lemma TwoBytes(hi: Octet, lo: Octet)
    ensures 0 <= FromBigEndian(hi, lo) < 0x10000
    ensures BigEndian(FromBigEndian(hi, lo)) == [hi, lo]
  {
  }

  function FrameBytes(f: Frame): (r: Octets)
    requires f.Consistent()
    ensures |r| >= HEADER_SIZE
  {
    Pack(f.header) + f.payload
  }

  function BuildForward2Device(tid: int, payload: Octets, devaddr: int, devcode: int): Option<Octets>
  {
    match EncodeHeader(tid, devcode, HEADER_SIZE + |payload|, devaddr, FC_FORWARD2DEVICE)
    case Some(head) => Some(head + payload)
    case None => None
  }

  /** A forward frame is built exactly for fields in range and payloads of at most
      65533 bytes, and it is then the frame with those fields. */
  lemma ForwardFrameExactly(tid: int, payload: Octets, devaddr: int, devcode: int)
    ensures BuildForward2Device(tid, payload, devaddr, devcode).Some? <==>
      && 0 <= tid < 0x10000 && 0 <= devcode < 0x10000 && 0 <= devaddr < 256 && |payload| <= 65533
    ensures
      var f := Frame(Header(tid, devcode, |payload| + 2, devaddr, FC_FORWARD2DEVICE), payload);
      BuildForward2Device(tid, payload, devaddr, devcode).Some? ==>
        f.Consistent() && BuildForward2Device(tid, payload, devaddr, devcode) == Some(FrameBytes(f))
  {
  }

  /** Byte by byte: each word with its high byte first, the length counts the payload and the
      two bytes after it, and the function code is 4. */
  lemma ForwardFrameBytes(tid: int, payload: Octets, devaddr: int, devcode: int)
    requires 0 <= tid < 0x10000 && 0 <= devcode < 0x10000 && 0 <= devaddr < 256 && |payload| <= 65533
    ensures
      var n := |payload| + 2;
      BuildForward2Device(tid, payload, devaddr, devcode) == Some(
        [tid / 256, tid % 256, devcode / 256, devcode % 256, n / 256, n % 256, devaddr, 4] + payload)
  {
    var n := |payload| + 2;
    var head := Pack(Header(tid, devcode, n, devaddr, 4));
    assert head == [tid / 256, tid % 256, devcode / 256, devcode % 256, n / 256, n % 256, devaddr, 4];
  }

  // ---------------------------------------------------------------- the read loop

  /** The first frame of a stream, if it has arrived completely. */
  function First(stream: Octets): (r: Option<Frame>)
    ensures r.Some? ==> r.value.Consistent() && FrameBytes(r.value) <= stream
  {
    if |stream| < HEADER_SIZE then None
    else
      var h := DecodeHeader(stream);
      HeaderIsItsBytes(stream);
      var n := if h.PayloadLen() > 0 then h.PayloadLen() else 0;
      if |stream| < HEADER_SIZE + n then None
      else
        var f := Frame(h, stream[HEADER_SIZE..HEADER_SIZE + n]);
        assert FrameBytes(f) == stream[..HEADER_SIZE + n];
        Some(f)
  }

  /** The stream after its first frame. */
  function AfterFirst(stream: Octets): (r: Octets)
    requires First(stream).Some?
    ensures |r| < |stream|
  {
    stream[|FrameBytes(First(stream).value)|..]
  }

  /** The complete frames of a stream. */
  function Frames(stream: Octets): seq<Frame>
    decreases |stream|
  {
    match First(stream)
    case None => []
    case Some(f) => [f] + Frames(AfterFirst(stream))
  }

  /** The bytes after the last complete frame. */
  function Leftover(stream: Octets): Octets
    decreases |stream|
  {
    match First(stream)
    case None => stream
    case Some(f) => Leftover(AfterFirst(stream))
  }

  function Concat(fs: seq<Frame>): Octets
    requires forall f :: f in fs ==> f.Consistent()
  {
    if fs == [] then [] else FrameBytes(fs[0]) + Concat(fs[1..])
  }

  /** The loop of the session handler, up to the end of the stream. */
  method ReadFrames(stream: Octets) returns (frames: seq<Frame>, rest: Octets)
    ensures frames == Frames(stream) && rest == Leftover(stream)
  {
    hide First, AfterFirst, DecodeHeader, Frames, Leftover, Pack, Header.PayloadLen;
    frames, rest := [], stream;
    while |rest| >= HEADER_SIZE
      invariant Frames(stream) == frames + Frames(rest)
      invariant Leftover(stream) == Leftover(rest)
      decreases |rest|
    {
      FirstUnfolds(rest);
      OneFrame(frames, rest);
      var h := DecodeHeader(rest);
      var payload: Octets := [];
      if h.PayloadLen() > 0 {
        if |rest| < HEADER_SIZE + h.PayloadLen() {
          return;
        }
        payload := rest[HEADER_SIZE..HEADER_SIZE + h.PayloadLen()];
      }
      frames := frames + [Frame(h, payload)];
      rest := rest[HEADER_SIZE + |payload|..];
    }
    NothingInAFewBytes(rest);
  }

  lemma NothingInAFewBytes(stream: Octets)
    requires |stream| < HEADER_SIZE
    ensures Frames(stream) == [] && Leftover(stream) == stream
  {
  }

  lemma OneFrame(frames: seq<Frame>, stream: Octets)
    ensures First(stream).None? ==> frames + Frames(stream) == frames && Leftover(stream) == stream
    ensures First(stream).Some? ==>
      && Leftover(stream) == Leftover(AfterFirst(stream))
      && frames + Frames(stream) == frames + [First(stream).value] + Frames(AfterFirst(stream))
  {
    hide First, AfterFirst;
    if First(stream).Some? {
      Associative(frames, [First(stream).value], Frames(AfterFirst(stream)));
    }
  }

  lemma Associative<T>(a: seq<T>, b: seq<T>, c: seq<T>)
    ensures a + (b + c) == a + b + c
  {
  }

  lemma FirstUnfolds(stream: Octets)
    requires |stream| >= HEADER_SIZE
    ensures
      var h := DecodeHeader(stream);
      var n := if h.PayloadLen() > 0 then h.PayloadLen() else 0;
      && (|stream| < HEADER_SIZE + n ==> First(stream) == None)
      && (|stream| >= HEADER_SIZE + n ==>
            && First(stream) == Some(Frame(h, stream[HEADER_SIZE..HEADER_SIZE + n]))
            && AfterFirst(stream) == stream[HEADER_SIZE + n..])
  {
    hide DecodeHeader, Pack;
  }

  lemma FirstOfFrame(f: Frame, later: Octets)
    requires f.Consistent()
    ensures First(FrameBytes(f) + later) == Some(f)
    ensures AfterFirst(FrameBytes(f) + later) == later
  {
    var stream := FrameBytes(f) + later;
    assert stream == Pack(f.header) + (f.payload + later);
    HeaderRoundTrip(f.header, f.payload + later);
    hide Pack;
    assert stream[HEADER_SIZE..HEADER_SIZE + |f.payload|] == f.payload;
  }

  /** Reading back any concatenation of frames gives exactly those frames. */
  lemma {:induction false} FramesOfConcat(fs: seq<Frame>, tail: Octets)
    requires forall f :: f in fs ==> f.Consistent()
    ensures Frames(Concat(fs) + tail) == fs + Frames(tail)
    ensures Leftover(Concat(fs) + tail) == Leftover(tail)
  {
    hide First, FrameBytes, AfterFirst, Frame.Consistent;
    if fs == [] {
      assert Concat(fs) + tail == tail;
    } else {
      var later := Concat(fs[1..]) + tail;
      Associative(FrameBytes(fs[0]), Concat(fs[1..]), tail);
      FirstOfFrame(fs[0], later);
      FramesOfConcat(fs[1..], tail);
      Associative([fs[0]], fs[1..], Frames(tail));
      assert fs == [fs[0]] + fs[1..];
    }
  }

  /** On arbitrary bytes nothing is lost or invented: the frames and the left over
      bytes spell the stream, every frame takes at least eight bytes, and what is
      left over does not hold a complete frame. */
  lemma {:induction false} FramesAreLossless(stream: Octets)
    ensures forall f :: f in Frames(stream) ==> f.Consistent()
    ensures stream == Concat(Frames(stream)) + Leftover(stream)
    ensures |stream| >= HEADER_SIZE * |Frames(stream)| + |Leftover(stream)|
    ensures First(Leftover(stream)) == None
    decreases |stream|
  {
    match First(stream)
    case None =>
    case Some(f) =>
      var later := AfterFirst(stream);
      assert stream == FrameBytes(f) + later;
      hide First, FrameBytes, AfterFirst, Frame.Consistent;
      FramesAreLossless(later);
      assert Frames(stream)[1..] == Frames(later);
      Associative(FrameBytes(f), Concat(Frames(later)), Leftover(later));
  }

  /** Reading does not depend on how the bytes arrive: more bytes only add frames,
      and decoding can resume from the bytes left over. */
  lemma FramesResume(early: Octets, late: Octets)
    ensures Frames(early + late) == Frames(early) + Frames(Leftover(early) + late)
    ensures Leftover(early + late) == Leftover(Leftover(early) + late)
  {
    hide First, FrameBytes, AfterFirst, Frame.Consistent, Frames, Leftover;
    FramesAreLossless(early);
    Associative(Concat(Frames(early)), Leftover(early), late);
    FramesOfConcat(Frames(early), Leftover(early) + late);
  }
}

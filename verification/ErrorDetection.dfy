/** What the checksums guarantee.

    A frame is accepted exactly when running the register over the frame and its
    two checksum bytes leaves zero.  Everything else follows from linearity: a
    corrupted frame is accepted exactly when the register, started at zero, maps
    the bit-wise difference to zero.
 */
module ErrorDetection {
  import opened Crc

  function Diff(xs: Bits, ys: Bits): (ds: Bits)
    requires |xs| == |ys|
    ensures |ds| == |xs|
    ensures forall i :: 0 <= i < |xs| ==> ds[i] == (xs[i] != ys[i])
  {
    seq(|xs|, i requires 0 <= i < |xs| => xs[i] != ys[i])
  }

  /** Whether an odd number of the bits is set. */
  predicate OddOnes(xs: Bits)
  {
    if xs == [] then false else xs[0] != OddOnes(xs[1..])
  }

  predicate Zeros(xs: Bits) { forall i :: 0 <= i < |xs| ==> !xs[i] }

  // ---------------------------------------------------------------- linearity over messages

  lemma {:induction false} FoldBitsLinear(alg: Algorithm, a: bv16, b: bv16, xs: Bits, ys: Bits)
    requires |xs| == |ys|
    ensures alg.FoldBits(Xor(a, b), Diff(xs, ys)) == Xor(alg.FoldBits(a, xs), alg.FoldBits(b, ys))
    decreases |xs|
  {
    hide Xor, Algorithm.Bit;
    if xs != [] {
      BitLinear(alg, a, b, xs[0], ys[0]);
      FoldBitsLinear(alg, alg.Bit(a, xs[0]), alg.Bit(b, ys[0]), xs[1..], ys[1..]);
      assert Diff(xs, ys)[1..] == Diff(xs[1..], ys[1..]);
    }
  }

  lemma BitZero(alg: Algorithm, c: bv16)
    ensures alg.Bit(c, false) == alg.Advance(c)
  {
    hide Xor, Algorithm.Advance;
    MixLinear(alg, false, false);
    XorLaws(c, 0, 0, 0);
  }

  /** A run of zero bits never changes whether the register is zero. */
  lemma {:induction false} FoldZeros(alg: Algorithm, c: bv16, xs: Bits)
    requires Zeros(xs)
    ensures alg.FoldBits(c, xs) == 0 <==> c == 0
    decreases |xs|
  {
    hide Algorithm.Bit, Algorithm.Advance;
    if xs != [] {
      BitZero(alg, c);
      AdvanceInjective(alg, c);
      FoldZeros(alg, alg.Bit(c, false), xs[1..]);
    }
  }

  // ---------------------------------------------------------------- the checksum residue

  /** The byte of a word that the next eight turns leave alone. */
  function Far(alg: Algorithm, b: bv8): bv16
  {
    match alg case Xmodem => b as bv16 case Modbus => (b as bv16) << 8
  }

  lemma WordIsBytes(alg: Algorithm, c: bv16)
    ensures c == Xor(alg.Align(alg.WireBytes(c)[0]), Far(alg, alg.WireBytes(c)[1]))
  {
    match alg case Xmodem => case Modbus =>
  }

  lemma FarShift(alg: Algorithm, b: bv8)
    ensures
      var m0 := Far(alg, b);
      var m1 := alg.Shift(m0);
      var m2 := alg.Shift(m1);
      var m3 := alg.Shift(m2);
      var m4 := alg.Shift(m3);
      var m5 := alg.Shift(m4);
      var m6 := alg.Shift(m5);
      var m7 := alg.Shift(m6);
      && !alg.Leads(m0) && !alg.Leads(m1) && !alg.Leads(m2) && !alg.Leads(m3)
      && !alg.Leads(m4) && !alg.Leads(m5) && !alg.Leads(m6) && !alg.Leads(m7)
      && alg.Shift(m7) == alg.Align(b)
  {
    match alg case Xmodem => case Modbus =>
  }

  lemma FarMovesUp(alg: Algorithm, b: bv8)
    ensures alg.AdvanceN(Far(alg, b), 8) == alg.Align(b)
  {
    FarShift(alg, b);
    hide Far, Algorithm.Shift, Algorithm.Leads, Algorithm.Align, Algorithm.Poly;
    var m2 := alg.Shift(alg.Shift(Far(alg, b)));
    var m4 := alg.Shift(alg.Shift(m2));
    var m6 := alg.Shift(alg.Shift(m4));
    assert alg.AdvanceN(m6, 2) == alg.Align(b);
    assert alg.AdvanceN(m4, 4) == alg.AdvanceN(m6, 2);
    assert alg.AdvanceN(m2, 6) == alg.AdvanceN(m4, 4);
  }

  lemma FoldPair(alg: Algorithm, c: bv16, x: bv8, y: bv8)
    ensures alg.Fold(c, [x, y]) == alg.Byte(alg.Byte(c, x), y)
  {
    hide Algorithm.Byte;
    FoldSnoc(alg, c, [x], y);
    FoldSnoc(alg, c, [], x);
    assert [x] + [y] == [x, y] && [] + [x] == [x];
  }

  /** Feeding a register its own checksum bytes clears it. */
  lemma OwnChecksum(alg: Algorithm, c: bv16)
    ensures alg.Fold(c, alg.WireBytes(c)) == 0
  {
    hide Xor, Far, Algorithm.AdvanceN, Algorithm.Align, Algorithm.WireBytes;
    var x, y := alg.WireBytes(c)[0], alg.WireBytes(c)[1];
    FoldPair(alg, c, x, y);
    assert alg.WireBytes(c) == [x, y];
    WordIsBytes(alg, c);
    var ax, fy := alg.Align(x), Far(alg, y);
    XorLaws(ax, fy, ax, 0);
    XorLaws(fy, ax, ax, 0);
    XorLaws(ax, ax, fy, 0);
    XorLaws(fy, 0, 0, 0);
    assert Xor(c, ax) == fy;
    FarMovesUp(alg, y);
    XorLaws(alg.Align(y), alg.Align(y), 0, 0);
    AdvanceNLinear(alg, 0, 0, 8);
  }

  // ---------------------------------------------------------------- where the registers start

  /** A byte that meets a register of ones in its near half is complemented. */
  lemma OnesComplement(b: bv8)
    ensures Xor(Modbus.Align(0xFF), Modbus.Align(b)) == Modbus.Align(b ^ 0xFF)
    ensures Xor(Modbus.Align(0xFF), Far(Modbus, 0xFF)) == 0xFFFF
  {
  }

  lemma ComplementedByte(c: bv16, b: bv8)
    ensures Modbus.Byte(Xor(c, Modbus.Align(0xFF)), b) == Modbus.Byte(c, b ^ 0xFF)
  {
    OnesComplement(b);
    XorLaws(c, Modbus.Align(0xFF), Modbus.Align(b), 0);
    hide Xor, Algorithm.Align, Algorithm.AdvanceN;
  }

  lemma FarOnesMoveUp(c: bv16, b: bv8)
    ensures Modbus.Byte(Xor(c, Far(Modbus, 0xFF)), b) == Xor(Modbus.Byte(c, b), Modbus.Align(0xFF))
  {
    var far := Far(Modbus, 0xFF);
    FarMovesUp(Modbus, 0xFF);
    XorLaws(c, far, Modbus.Align(b), 0);
    XorLaws(far, Modbus.Align(b), 0, 0);
    XorLaws(c, Modbus.Align(b), far, 0);
    AdvanceNLinear(Modbus, Xor(c, Modbus.Align(b)), far, 8);
    hide Xor, Far, Algorithm.Align, Algorithm.AdvanceN;
  }

  lemma FoldAfterTwo(alg: Algorithm, c: bv16, x: bv8, y: bv8, rest: Bytes)
    ensures alg.Fold(c, [x, y] + rest) == alg.Fold(alg.Byte(alg.Byte(c, x), y), rest)
  {
    hide Algorithm.Byte, Algorithm.Fold;
    FoldAppend(alg, c, [x, y], rest);
    FoldPair(alg, c, x, y);
  }

  /** The Modbus checksum of two bytes or more is that of a register that starts at zero,
      with the first two bytes complemented; the XMODEM register does start at zero. */
  lemma StartsComplemented(data: Bytes)
    requires |data| >= 2
    ensures Modbus.Checksum(data) == Modbus.Fold(0, [data[0] ^ 0xFF, data[1] ^ 0xFF] + data[2..])
    ensures Xmodem.Checksum(data) == Xmodem.Fold(0, data)
  {
    var x, y := data[0], data[1];
    assert data == [x, y] + data[2..];
    FoldAfterTwo(Modbus, 0xFFFF, x, y, data[2..]);
    FoldAfterTwo(Modbus, 0, x ^ 0xFF, y ^ 0xFF, data[2..]);
    OnesComplement(x);
    hide Algorithm.Byte, Algorithm.Fold, Xor;
    var near, far := Modbus.Align(0xFF), Far(Modbus, 0xFF);
    FarOnesMoveUp(near, x);
    XorLaws(0, near, 0, 0);
    ComplementedByte(0, x);
    ComplementedByte(Modbus.Byte(0, x ^ 0xFF), y);
  }

  /** No two registers come together on a message. */
  lemma FoldInjective(alg: Algorithm, a: bv16, b: bv16, data: Bytes)
    ensures alg.Fold(a, data) == alg.Fold(b, data) <==> a == b
  {
    hide Xor, Algorithm.Fold, Algorithm.FoldBits, Algorithm.Wire;
    var xs := alg.Wire(data);
    FoldIsFoldBits(alg, a, data);
    FoldIsFoldBits(alg, b, data);
    FoldBitsLinear(alg, a, b, xs, xs);
    FoldZeros(alg, Xor(a, b), Diff(xs, xs));
    XorLaws(a, b, 0, 0);
    XorLaws(alg.FoldBits(a, xs), alg.FoldBits(b, xs), 0, 0);
  }

  /** A zero byte before a message is noticed by the Modbus checksum, whatever the message,
      and never by XMODEM. */
  lemma LeadingZeroIsNoticed(data: Bytes)
    ensures Modbus.Checksum([0] + data) != Modbus.Checksum(data)
    ensures Xmodem.Checksum([0] + data) == Xmodem.Checksum(data)
    ensures Clears(Modbus, data) ==> !Clears(Modbus, [0] + data)
  {
    CheckByte(Modbus, 0xFFFF, 0, 0x40BF);
    CheckByte(Xmodem, 0, 0, 0);
    hide Algorithm.Byte;
    assert ([0] + data)[1..] == data;
    FoldInjective(Modbus, 0x40BF, 0xFFFF, data);
  }

  // ---------------------------------------------------------------- reference values

  lemma CheckByte(alg: Algorithm, c: bv16, b: bv8, r: bv16)
    requires r == EightTurned(alg, c ^ alg.Align(b))
    ensures alg.Byte(c, b) == r
  {
    AdvanceEight(alg, c ^ alg.Align(b));
    hide EightTurned, Algorithm.AdvanceN;
  }

  lemma AlignInjective(alg: Algorithm, x: bv8, y: bv8)
    ensures alg.Align(x) == alg.Align(y) <==> x == y
  {
    match alg case Xmodem => case Modbus =>
  }

  /** Two checksum words that clear the same register are the same word. */
  lemma ClearsOnce(alg: Algorithm, c: bv16, w: Bytes, v: Bytes)
    requires |w| == 2 && |v| == 2
    requires alg.Fold(c, w) == 0 && alg.Fold(c, v) == 0
    ensures w == v
  {
    WireDiffZero(alg, c, w, v);
    WireInjective(alg, w, v);
  }

  lemma WireDiffZero(alg: Algorithm, c: bv16, w: Bytes, v: Bytes)
    requires |w| == |v| <= 2
    requires alg.Fold(c, w) == 0 && alg.Fold(c, v) == 0
    ensures alg.Wire(w) == alg.Wire(v)
  {
    hide Xor, Algorithm.Fold, Algorithm.Wire, Algorithm.FoldBits;
    var d := Diff(alg.Wire(w), alg.Wire(v));
    FoldIsFoldBits(alg, c, w);
    FoldIsFoldBits(alg, c, v);
    XorLaws(c, c, 0, 0);
    XorLaws(0, 0, 0, 0);
    FoldBitsLinear(alg, c, c, alg.Wire(w), alg.Wire(v));
    ShortBurst(alg, 0, d);
    assert forall i :: 0 <= i < |d| ==> !d[i];
  }

  // ---------------------------------------------------------------- a burst of at most sixteen bits

  predicate Trails(alg: Algorithm, c: bv16)
  {
    match alg case Xmodem => c & 0x0001 != 0 case Modbus => c & 0x8000 != 0
  }

  /** The polynomial sets the bit that a shift leaves clear. */
  lemma AdvanceTrails(alg: Algorithm, c: bv16)
    ensures Trails(alg, alg.Advance(c)) == alg.Leads(c)
  {
    match alg
    case Xmodem => XmodemTurn(c);
    case Modbus => ModbusTurn(c);
  }

  lemma {:induction false} ShiftNSplit(alg: Algorithm, c: bv16, m: nat, n: nat)
    ensures alg.ShiftN(c, m + n) == alg.ShiftN(alg.ShiftN(c, m), n)
    decreases m
  {
    hide Algorithm.Shift;
    if m > 0 {
      ShiftNSplit(alg, alg.Shift(c), m - 1, n);
    }
  }

  lemma {:induction false} ShiftNZero(alg: Algorithm, n: nat)
    ensures alg.ShiftN(0, n) == 0
    decreases n
  {
    hide Algorithm.Shift;
    ShiftLinear(alg, 0, 0);
    if n > 0 {
      ShiftNZero(alg, n - 1);
    }
  }

  lemma FifteenLeaf(alg: Algorithm, c: bv16, t: bv16)
    requires t == match alg case Xmodem => c << 8 case Modbus => c >> 8
    requires alg.Shift(alg.Shift(alg.Shift(alg.Shift(alg.Shift(alg.Shift(alg.Shift(t))))))) == 0
    ensures !Trails(alg, c)
  {
    match alg case Xmodem => case Modbus =>
  }

  /** A word that at most fifteen shifts clear has a clear trailing bit. */
  lemma ClearedByFifteen(alg: Algorithm, c: bv16, n: nat)
    requires n <= 15 && alg.ShiftN(c, n) == 0
    ensures !Trails(alg, c)
  {
    ShiftNSplit(alg, c, n, 15 - n);
    ShiftNZero(alg, 15 - n);
    ShiftNSplit(alg, c, 8, 7);
    ShiftEight(alg, c);
    hide Trails, Algorithm.Shift;
    var t := alg.ShiftN(c, 8);
    var t2 := alg.Shift(alg.Shift(t));
    var t4 := alg.Shift(alg.Shift(t2));
    assert alg.ShiftN(t4, 3) == alg.Shift(alg.Shift(alg.Shift(t4)));
    assert alg.ShiftN(t2, 5) == alg.ShiftN(t4, 3);
    FifteenLeaf(alg, c, t);
  }

  /** At most sixteen bits can only clear the register they spell out. */
  lemma {:induction false} ShortBurst(alg: Algorithm, c: bv16, xs: Bits)
    requires |xs| <= 16 && alg.FoldBits(c, xs) == 0
    ensures alg.ShiftN(c, |xs|) == 0 && xs == alg.WordBits(c, |xs|)
    ensures c == 0 ==> Zeros(xs)
    decreases |xs|
  {
    hide Xor, Trails, Algorithm.Leads, Algorithm.Shift, Algorithm.Poly;
    if xs != [] {
      var mixed := Xor(c, alg.Mix(xs[0]));
      var c' := alg.Bit(c, xs[0]);
      hide Algorithm.Mix;
      ShortBurst(alg, c', xs[1..]);
      ClearedByFifteen(alg, c', |xs| - 1);
      AdvanceTrails(alg, mixed);
      LeadsLinear(alg, c, alg.Mix(xs[0]));
      MixLinear(alg, xs[0], xs[0]);
      DropLead(alg, c);
      ShiftLinear(alg, 0, 0);
      assert alg.Leads(c) == xs[0];
      assert c' == alg.Shift(c);
      assert xs == [xs[0]] + xs[1..];
    }
  }

  lemma {:induction false} WireInjective(alg: Algorithm, m: Bytes, m': Bytes)
    requires |m| == |m'| && alg.Wire(m) == alg.Wire(m')
    ensures m == m'
    decreases |m|
  {
    hide Algorithm.WordBits, Algorithm.Align;
    if m != [] {
      var u, u' := alg.WordBits(alg.Align(m[0]), 8), alg.WordBits(alg.Align(m'[0]), 8);
      assert u == alg.Wire(m)[..8] && u' == alg.Wire(m')[..8];
      assert alg.Wire(m[1..]) == alg.Wire(m)[8..] && alg.Wire(m'[1..]) == alg.Wire(m')[8..];
      ByteFromBits(alg, m[0], m'[0]);
      WireInjective(alg, m[1..], m'[1..]);
      assert m == [m[0]] + m[1..] && m' == [m'[0]] + m'[1..];
    }
  }

  lemma ByteFromBits(alg: Algorithm, x: bv8, y: bv8)
    requires alg.WordBits(alg.Align(x), 8) == alg.WordBits(alg.Align(y), 8)
    ensures x == y
  {
    hide Xor, Algorithm.WordBits, Algorithm.Align, Algorithm.FoldBits, Algorithm.AdvanceN;
    var a, b := alg.Align(x), alg.Align(y);
    ByteIsBits(alg, 0, x);
    ByteIsBits(alg, 0, y);
    XorLaws(a, 0, 0, 0);
    XorLaws(b, 0, 0, 0);
    XorLaws(a, b, 0, 0);
    XorLaws(alg.AdvanceN(a, 8), alg.AdvanceN(b, 8), 0, 0);
    AdvanceNLinear(alg, a, b, 8);
    AdvanceNLinear(alg, Xor(a, b), 0, 8);
    AlignInjective(alg, x, y);
  }

  // ---------------------------------------------------------------- parity

  lemma {:induction false} OddNLinear(alg: Algorithm, a: bv16, b: bv16, n: nat)
    ensures alg.OddN(Xor(a, b), n) == (alg.OddN(a, n) != alg.OddN(b, n))
    decreases n
  {
    hide Xor, Algorithm.Leads, Algorithm.Shift;
    if n > 0 {
      LeadsLinear(alg, a, b);
      ShiftLinear(alg, a, b);
      OddNLinear(alg, alg.Shift(a), alg.Shift(b), n - 1);
    }
  }

  lemma {:induction false} OddNZero(alg: Algorithm, n: nat)
    ensures !alg.OddN(0, n)
    decreases n
  {
    hide Algorithm.Leads, Algorithm.Shift;
    LeadsLinear(alg, 0, 0);
    ShiftLinear(alg, 0, 0);
    if n > 0 {
      OddNZero(alg, n - 1);
    }
  }

  /** Bits beyond those that are shifted out do not count. */
  lemma {:induction false} OddNBeyond(alg: Algorithm, m: bv16, k: nat, j: nat)
    requires alg.ShiftN(m, k) == 0
    ensures alg.OddN(m, k + j) == alg.OddN(m, k)
    decreases k
  {
    hide Algorithm.Leads, Algorithm.Shift;
    if k > 0 {
      OddNBeyond(alg, alg.Shift(m), k - 1, j);
    } else {
      OddNZero(alg, j);
    }
  }

  lemma SixteenShifts(alg: Algorithm, c: bv16)
    ensures alg.ShiftN(c, 16) == 0
  {
    ShiftNSplit(alg, c, 8, 8);
    ShiftEight(alg, c);
    ShiftEight(alg, alg.ShiftN(c, 8));
    hide Algorithm.ShiftN;
  }

  lemma OddShift(alg: Algorithm, c: bv16)
    ensures alg.Odd(c) == (alg.Leads(c) != alg.Odd(alg.Shift(c)))
  {
    hide Algorithm.Leads, Algorithm.Shift;
    SixteenShifts(alg, c);
    OddNBeyond(alg, alg.Shift(c), 15, 1);
  }

  lemma OddPoly(alg: Algorithm)
    ensures alg.Odd(alg.Poly())
  {
    match alg
    case Xmodem =>
      assert Xmodem.OddN(0x4000, 2);
      assert Xmodem.OddN(0x1000, 4);
      assert !Xmodem.OddN(0x8400, 6);
      assert !Xmodem.OddN(0x2100, 8);
      assert !Xmodem.OddN(0x0840, 10);
      assert !Xmodem.OddN(0x0210, 12);
      assert Xmodem.OddN(0x4084, 14);
    case Modbus =>
      assert Modbus.OddN(0x0002, 2);
      assert !Modbus.OddN(0x000A, 4);
      assert !Modbus.OddN(0x0028, 6);
      assert !Modbus.OddN(0x00A0, 8);
      assert !Modbus.OddN(0x0280, 10);
      assert !Modbus.OddN(0x0A00, 12);
      assert !Modbus.OddN(0x2800, 14);
  }

  lemma OddAdvance(alg: Algorithm, c: bv16)
    ensures alg.Odd(alg.Advance(c)) == alg.Odd(c)
  {
    hide Xor, Algorithm.Leads, Algorithm.Shift, Algorithm.OddN, Algorithm.Poly;
    OddShift(alg, c);
    OddPoly(alg);
    OddNLinear(alg, alg.Shift(c), alg.Poly(), 16);
  }

  lemma OddBit(alg: Algorithm, c: bv16, x: bool)
    ensures alg.Odd(alg.Bit(c, x)) == (alg.Odd(c) != x)
  {
    hide Xor, Algorithm.Leads, Algorithm.Shift, Algorithm.OddN, Algorithm.Advance;
    MixLinear(alg, x, x);
    var e := alg.Mix(x);
    hide Algorithm.Mix;
    OddAdvance(alg, Xor(c, e));
    OddNLinear(alg, c, e, 16);
    OddShift(alg, e);
    EntryAlone(alg);
    OddNZero(alg, 16);
  }

  lemma EntryAlone(alg: Algorithm)
    ensures alg.Shift(alg.Mix(true)) == 0
  {
    match alg case Xmodem => case Modbus =>
  }

  /** The register keeps track of the parity of what it has consumed. */
  lemma {:induction false} FoldParity(alg: Algorithm, c: bv16, xs: Bits)
    ensures alg.Odd(alg.FoldBits(c, xs)) == (alg.Odd(c) != OddOnes(xs))
    decreases |xs|
  {
    hide Algorithm.Odd, Algorithm.Bit;
    if xs != [] {
      OddBit(alg, c, xs[0]);
      FoldParity(alg, alg.Bit(c, xs[0]), xs[1..]);
    }
  }

  // ---------------------------------------------------------------- main results

  /** A frame whose register ends at zero. */
  predicate Clears(alg: Algorithm, frame: Bytes) { alg.Checksum(frame) == 0 }

  /** The last two bytes are the checksum of the others exactly when the whole
      frame clears the register. */
  lemma SealedIffClears(alg: Algorithm, payload: Bytes, w: Bytes)
    requires |w| == 2
    ensures Clears(alg, payload + w) <==> w == alg.WireBytes(alg.Checksum(payload))
  {
    hide Algorithm.Fold, Algorithm.WireBytes;
    var c := alg.Checksum(payload);
    FoldAppend(alg, alg.Initial(), payload, w);
    OwnChecksum(alg, c);
    if alg.Fold(c, w) == 0 {
      ClearsOnce(alg, c, w, alg.WireBytes(c));
    }
  }

  /** Which corruptions of an accepted frame are accepted. */
  lemma AcceptedCorruptions(alg: Algorithm, m: Bytes, m': Bytes)
    requires |m| == |m'| && Clears(alg, m)
    ensures Clears(alg, m') <==> alg.FoldBits(0, Diff(alg.Wire(m), alg.Wire(m'))) == 0
  {
    hide Xor, Algorithm.Fold, Algorithm.FoldBits, Algorithm.Wire;
    var c := alg.Initial();
    FoldIsFoldBits(alg, c, m);
    FoldIsFoldBits(alg, c, m');
    FoldBitsLinear(alg, c, c, alg.Wire(m), alg.Wire(m'));
    XorLaws(c, c, 0, 0);
    XorLaws(alg.Fold(c, m'), 0, 0, 0);
    XorLaws(0, alg.Fold(c, m'), 0, 0);
  }

  /** An odd number of flipped bits is always noticed. */
  lemma RejectsOddCorruption(alg: Algorithm, m: Bytes, m': Bytes)
    requires |m| == |m'| && Clears(alg, m)
    requires OddOnes(Diff(alg.Wire(m), alg.Wire(m')))
    ensures !Clears(alg, m')
  {
    hide Clears, Algorithm.Wire;
    AcceptedCorruptions(alg, m, m');
    FoldParity(alg, 0, Diff(alg.Wire(m), alg.Wire(m')));
    OddNZero(alg, 16);
  }

  predicate ConfinedTo(xs: Bits, ys: Bits, at: nat, n: nat)
    requires |xs| == |ys|
  {
    forall j :: 0 <= j < |xs| && !(at <= j < at + n) ==> xs[j] == ys[j]
  }

  /** A difference confined to sixteen bits that clears the register is no difference. */
  lemma OnlyZerosClear(alg: Algorithm, d: Bits, lo: nat, hi: nat)
    requires lo <= hi <= |d| && hi - lo <= 16 && alg.FoldBits(0, d) == 0
    requires Zeros(d[..lo]) && Zeros(d[hi..])
    ensures Zeros(d)
  {
    hide Algorithm.FoldBits;
    var head, burst, tail := d[..lo], d[lo..hi], d[hi..];
    assert d == head + (burst + tail);
    FoldBitsAppend(alg, 0, head, burst + tail);
    FoldZeros(alg, 0, head);
    FoldBitsAppend(alg, 0, burst, tail);
    FoldZeros(alg, alg.FoldBits(0, burst), tail);
    ShortBurst(alg, 0, burst);
    assert forall j :: 0 <= j < |d| ==> d[j] == (head + (burst + tail))[j];
  }

  /** A change within any sixteen consecutive bits of the wire is always noticed. */
  lemma RejectsBurst(alg: Algorithm, m: Bytes, m': Bytes, at: nat)
    requires |m| == |m'| && Clears(alg, m) && m != m'
    requires ConfinedTo(alg.Wire(m), alg.Wire(m'), at, 16)
    ensures !Clears(alg, m')
  {
    hide Clears, Algorithm.Wire, Algorithm.FoldBits;
    AcceptedCorruptions(alg, m, m');
    var d := Diff(alg.Wire(m), alg.Wire(m'));
    if alg.FoldBits(0, d) == 0 {
      var lo := if at <= |d| then at else |d|;
      var hi := if at + 16 <= |d| then at + 16 else |d|;
      OnlyZerosClear(alg, d, lo, hi);
      assert alg.Wire(m) == alg.Wire(m');
      WireInjective(alg, m, m');
    }
  }

  lemma {:induction false} WireAppend(alg: Algorithm, xs: Bytes, ys: Bytes)
    ensures alg.Wire(xs + ys) == alg.Wire(xs) + alg.Wire(ys)
    decreases |xs|
  {
    hide Algorithm.WordBits, Algorithm.Align;
    if xs == [] {
      assert xs + ys == ys;
    } else {
      assert (xs + ys)[1..] == xs[1..] + ys;
      WireAppend(alg, xs[1..], ys);
    }
  }

  /** In particular a change within two adjacent bytes. */
  lemma RejectsTwoBytes(alg: Algorithm, m: Bytes, m': Bytes, k: nat)
    requires |m| == |m'| && Clears(alg, m) && m != m'
    requires k + 2 <= |m| && m[..k] == m'[..k] && m[k + 2..] == m'[k + 2..]
    ensures !Clears(alg, m')
  {
    hide Clears, Algorithm.Wire;
    var head, tail := m[..k], m[k + 2..];
    assert m == head + (m[k..k + 2] + tail);
    assert m' == head + (m'[k..k + 2] + tail);
    WireAppend(alg, head, m[k..k + 2] + tail);
    WireAppend(alg, head, m'[k..k + 2] + tail);
    WireAppend(alg, m[k..k + 2], tail);
    WireAppend(alg, m'[k..k + 2], tail);
    assert |alg.Wire(m[k..k + 2])| == 16;
    RejectsBurst(alg, m, m', 8 * k);
  }
}

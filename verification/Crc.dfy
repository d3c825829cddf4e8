/** The two 16-bit CRCs of the inverter protocols, as folds over the bits of a
    message in the order the shift register consumes them.

    XMODEM shifts left with polynomial 0x1021 and takes the most significant bit
    of a byte first; Modbus shifts right with the reflected polynomial 0xA001 and
    takes the least significant bit first.  Shifting a `bv16` drops the bits that
    the program masks away with `& 0xFFFF`.

    Only a handful of leaf lemmas look inside a bit vector.  Every other proof
    hides the bit-vector operations and works from their laws.
 */
module Crc {

  type Bytes = seq<bv8>

  type Bits = seq<bool>

  datatype Algorithm = Xmodem | Modbus {

    /** The register bit into which a message bit is mixed. */
    function Entry(): bv16 { match this case Xmodem => 0x8000 case Modbus => 0x0001 }

    /** Whether the bit that is shifted out next is set. */
    predicate Leads(c: bv16) { And(c, Entry()) != 0 }

    function Poly(): bv16 { match this case Xmodem => 0x1021 case Modbus => 0xA001 }

    function Initial(): bv16 { match this case Xmodem => 0x0000 case Modbus => 0xFFFF }

    function Shift(c: bv16): bv16 { match this case Xmodem => c << 1 case Modbus => c >> 1 }

    /** One turn of the inner loop. */
    function Advance(c: bv16): bv16
    {
      if Leads(c) then Xor(Shift(c), Poly()) else Shift(c)
    }

    function AdvanceN(c: bv16, n: nat): bv16
      decreases n
    {
      if n == 0 then c else AdvanceN(Advance(c), n - 1)
    }

    function ShiftN(c: bv16, n: nat): bv16
      decreases n
    {
      if n == 0 then c else ShiftN(Shift(c), n - 1)
    }

    /** A message byte, placed where it is mixed into the register. */
    function Align(b: bv8): bv16
    {
      match this case Xmodem => (b as bv16) << 8 case Modbus => b as bv16
    }

    function Byte(c: bv16, b: bv8): bv16 { AdvanceN(Xor(c, Align(b)), 8) }

    function Fold(c: bv16, data: Bytes): bv16
      decreases |data|
    {
      if data == [] then c else Fold(Byte(c, data[0]), data[1..])
    }

    function Checksum(data: Bytes): bv16 { Fold(Initial(), data) }

    /** The two checksum bytes in wire order: XMODEM sends the high byte first,
        Modbus the low byte. */
    function WireBytes(c: bv16): (r: Bytes)
      ensures |r| == 2
    {
      match this case Xmodem => [High(c), Low(c)] case Modbus => [Low(c), High(c)]
    }

    // ------------------------------------------------------------ bit view

    function Mix(x: bool): bv16 { if x then Entry() else 0 }

    function Bit(c: bv16, x: bool): bv16 { Advance(Xor(c, Mix(x))) }

    function FoldBits(c: bv16, xs: Bits): bv16
      decreases |xs|
    {
      if xs == [] then c else FoldBits(Bit(c, xs[0]), xs[1..])
    }

    /** The `n` leading bits of a word, in the order the register takes them. */
    function WordBits(m: bv16, n: nat): (xs: Bits)
      ensures |xs| == n
      decreases n
    {
      if n == 0 then [] else [Leads(m)] + WordBits(Shift(m), n - 1)
    }

    /** A message as the sequence of bits the register consumes. */
    function Wire(data: Bytes): (xs: Bits)
      ensures |xs| == 8 * |data|
      decreases |data|
    {
      if data == [] then [] else WordBits(Align(data[0]), 8) + Wire(data[1..])
    }

    /** Whether an odd number of the `n` leading bits of `m` is set. */
    predicate OddN(m: bv16, n: nat)
      decreases n
    {
      if n == 0 then false else Leads(m) != OddN(Shift(m), n - 1)
    }

    predicate Odd(m: bv16) { OddN(m, 16) }
  }

  function Xor(a: bv16, b: bv16): bv16 { a ^ b }

  function And(a: bv16, b: bv16): bv16 { a & b }

  function High(c: bv16): bv8 { (c >> 8) as bv8 }

  function Low(c: bv16): bv8 { (c & 0xFF) as bv8 }

  // ---------------------------------------------------------------- folds

  lemma {:induction false} FoldAppend(alg: Algorithm, c: bv16, xs: Bytes, ys: Bytes)
    ensures alg.Fold(c, xs + ys) == alg.Fold(alg.Fold(c, xs), ys)
    decreases |xs|
  {
    hide Algorithm.Byte;
    if xs == [] {
      assert xs + ys == ys;
    } else {
      assert (xs + ys)[1..] == xs[1..] + ys;
      FoldAppend(alg, alg.Byte(c, xs[0]), xs[1..], ys);
    }
  }

  lemma FoldSnoc(alg: Algorithm, c: bv16, xs: Bytes, y: bv8)
    ensures alg.Fold(c, xs + [y]) == alg.Byte(alg.Fold(c, xs), y)
  {
    hide Algorithm.Byte;
    FoldAppend(alg, c, xs, [y]);
    assert [y][1..] == [];
  }

  lemma {:induction false} FoldBitsAppend(alg: Algorithm, c: bv16, xs: Bits, ys: Bits)
    ensures alg.FoldBits(c, xs + ys) == alg.FoldBits(alg.FoldBits(c, xs), ys)
    decreases |xs|
  {
    hide Algorithm.Bit;
    if xs == [] {
      assert xs + ys == ys;
    } else {
      assert (xs + ys)[1..] == xs[1..] + ys;
      FoldBitsAppend(alg, alg.Bit(c, xs[0]), xs[1..], ys);
    }
  }

  lemma {:induction false} AdvanceNSnoc(alg: Algorithm, c: bv16, n: nat)
    ensures alg.AdvanceN(c, n + 1) == alg.Advance(alg.AdvanceN(c, n))
    decreases n
  {
    hide Algorithm.Advance;
    if n > 0 {
      AdvanceNSnoc(alg, alg.Advance(c), n - 1);
    }
  }

  // ---------------------------------------------------------------- the loops of the program

  lemma ByteDone(alg: Algorithm, data: Bytes, i: nat, before: bv16)
    requires i < |data| && before == alg.Fold(alg.Initial(), data[..i])
    ensures alg.AdvanceN(Xor(before, alg.Align(data[i])), 8) == alg.Fold(alg.Initial(), data[..i + 1])
  {
    hide Algorithm.AdvanceN, Algorithm.Align, Xor, Algorithm.Fold;
    FoldSnoc(alg, alg.Initial(), data[..i], data[i]);
    assert data[..i + 1] == data[..i] + [data[i]];
  }

  lemma TurnDone(alg: Algorithm, mixed: bv16, j: nat, after: bv16)
    requires after == alg.Advance(alg.AdvanceN(mixed, j))
    ensures after == alg.AdvanceN(mixed, j + 1)
  {
    AdvanceNSnoc(alg, mixed, j);
    hide *;
  }

  /** One turn, spelt out. */
  function Turned(alg: Algorithm, c: bv16): bv16
  {
    match alg
    case Xmodem => if c & 0x8000 != 0 then (c << 1) ^ 0x1021 else c << 1
    case Modbus => if c & 1 != 0 then (c >> 1) ^ 0xA001 else c >> 1
  }

  lemma AdvanceIsTurned(alg: Algorithm, c: bv16)
    ensures alg.Advance(c) == Turned(alg, c)
  {
    XmodemTurn(c);
    ModbusTurn(c);
    hide Algorithm.Advance;
  }

  function EightTurned(alg: Algorithm, c: bv16): bv16
  {
    var c4 := Turned(alg, Turned(alg, Turned(alg, Turned(alg, c))));
    Turned(alg, Turned(alg, Turned(alg, Turned(alg, c4))))
  }

  lemma AdvanceEight(alg: Algorithm, c: bv16)
    ensures alg.AdvanceN(c, 8) == EightTurned(alg, c)
  {
    AlwaysTurned(alg);
    hide Turned, Algorithm.Advance;
    var c2 := Turned(alg, Turned(alg, c));
    var c4 := Turned(alg, Turned(alg, c2));
    var c6 := Turned(alg, Turned(alg, c4));
    assert alg.AdvanceN(c6, 2) == Turned(alg, Turned(alg, c6));
    assert alg.AdvanceN(c4, 4) == alg.AdvanceN(c6, 2);
    assert alg.AdvanceN(c2, 6) == alg.AdvanceN(c4, 4);
  }

  lemma AlwaysTurned(alg: Algorithm)
    ensures forall c :: alg.Advance(c) == Turned(alg, c)
  {
    forall c ensures alg.Advance(c) == Turned(alg, c) {
      AdvanceIsTurned(alg, c);
    }
  }

  lemma XmodemTurn(c: bv16)
    ensures Xmodem.Advance(c) == if c & 0x8000 != 0 then (c << 1) ^ 0x1021 else c << 1
  {
  }

  lemma ModbusTurn(c: bv16)
    ensures Modbus.Advance(c) == if c & 1 != 0 then (c >> 1) ^ 0xA001 else c >> 1
  {
  }

  lemma MixedIn(c: bv16, b: bv8)
    ensures c ^ ((b as bv16) << 8) == Xmodem.AdvanceN(Xor(c, Xmodem.Align(b)), 0)
    ensures c ^ (b as bv16) == Modbus.AdvanceN(Xor(c, Modbus.Align(b)), 0)
  {
  }

  method Crc16Xmodem(data: Bytes) returns (crc: bv16)
    ensures crc == Xmodem.Checksum(data)
  {
    crc := 0;
    assert crc == Xmodem.Fold(Xmodem.Initial(), data[..0]);
    for i := 0 to |data|
      invariant crc == Xmodem.Fold(Xmodem.Initial(), data[..i])
    {
      hide *;
      ghost var before := crc;
      MixedIn(crc, data[i]);
      crc := crc ^ ((data[i] as bv16) << 8);
      for j := 0 to 8
        invariant crc == Xmodem.AdvanceN(Xor(before, Xmodem.Align(data[i])), j)
      {
        XmodemTurn(crc);
        if crc & 0x8000 != 0 {
          crc := (crc << 1) ^ 0x1021;
        } else {
          crc := crc << 1;
        }
        TurnDone(Xmodem, Xor(before, Xmodem.Align(data[i])), j, crc);
      }
      ByteDone(Xmodem, data, i, before);
    }
    assert data[..|data|] == data;
  }

  method Crc16Modbus(data: Bytes) returns (crc: bv16)
    ensures crc == Modbus.Checksum(data)
  {
    crc := 0xFFFF;
    assert crc == Modbus.Fold(Modbus.Initial(), data[..0]);
    for i := 0 to |data|
      invariant crc == Modbus.Fold(Modbus.Initial(), data[..i])
    {
      hide *;
      ghost var before := crc;
      MixedIn(crc, data[i]);
      crc := crc ^ (data[i] as bv16);
      for j := 0 to 8
        invariant crc == Modbus.AdvanceN(Xor(before, Modbus.Align(data[i])), j)
      {
        ModbusTurn(crc);
        if crc & 1 != 0 {
          crc := (crc >> 1) ^ 0xA001;
        } else {
          crc := crc >> 1;
        }
        TurnDone(Modbus, Xor(before, Modbus.Align(data[i])), j, crc);
      }
      ByteDone(Modbus, data, i, before);
    }
    assert data[..|data|] == data;
  }

  // ---------------------------------------------------------------- laws of the register

  lemma XorCancel(a: bv16, b: bv16)
    ensures Xor(a, b) == Xor(b, a)
    ensures Xor(a, 0) == a && Xor(0, a) == a && Xor(a, a) == 0
  {
  }

  lemma XorAssociative(a: bv16, b: bv16, c: bv16)
    ensures Xor(Xor(a, b), c) == Xor(a, Xor(b, c))
  {
  }

  lemma XorLaws(a: bv16, b: bv16, c: bv16, d: bv16)
    ensures Xor(Xor(a, b), Xor(c, d)) == Xor(Xor(a, c), Xor(b, d))
    ensures Xor(Xor(a, b), c) == Xor(a, Xor(b, c))
    ensures Xor(a, b) == Xor(b, a)
    ensures Xor(a, 0) == a && Xor(0, a) == a && Xor(a, a) == 0
    ensures Xor(a, b) == 0 <==> a == b
  {
    hide Xor;
    XorCancel(a, b);
    XorCancel(b, a);
    XorCancel(b, c);
    XorAssociative(a, b, b);
    XorAssociative(a, b, c);
    XorAssociative(a, b, Xor(c, d));
    XorAssociative(b, c, d);
    XorAssociative(c, b, d);
    XorAssociative(a, c, Xor(b, d));
  }

  lemma ShiftLinear(alg: Algorithm, a: bv16, b: bv16)
    ensures alg.Shift(Xor(a, b)) == Xor(alg.Shift(a), alg.Shift(b))
    ensures alg.Shift(0) == 0
  {
    match alg case Xmodem => case Modbus =>
  }

  lemma LeadsLinear(alg: Algorithm, a: bv16, b: bv16)
    ensures alg.Leads(Xor(a, b)) == (alg.Leads(a) != alg.Leads(b))
    ensures !alg.Leads(0) && alg.Leads(alg.Entry())
  {
    match alg case Xmodem => case Modbus =>
  }

  lemma AdvanceLinear(alg: Algorithm, a: bv16, b: bv16)
    ensures alg.Advance(Xor(a, b)) == Xor(alg.Advance(a), alg.Advance(b))
    ensures alg.Advance(0) == 0
  {
    hide Xor, Algorithm.Leads, Algorithm.Shift, Algorithm.Poly;
    ShiftLinear(alg, a, b);
    LeadsLinear(alg, a, b);
    var p := alg.Poly();
    XorLaws(alg.Shift(a), p, alg.Shift(b), p);
    XorLaws(alg.Shift(a), alg.Shift(b), p, 0);
    XorLaws(alg.Shift(b), alg.Shift(a), p, 0);
    XorLaws(p, p, 0, 0);
    XorLaws(Xor(alg.Shift(a), alg.Shift(b)), 0, 0, 0);
    XorLaws(Xor(alg.Shift(a), p), alg.Shift(b), 0, 0);
  }

  lemma AdvanceInjective(alg: Algorithm, c: bv16)
    ensures alg.Advance(c) == 0 <==> c == 0
  {
    match alg
    case Xmodem => XmodemTurn(c);
    case Modbus => ModbusTurn(c);
  }

  lemma {:induction false} AdvanceNLinear(alg: Algorithm, a: bv16, b: bv16, n: nat)
    ensures alg.AdvanceN(Xor(a, b), n) == Xor(alg.AdvanceN(a, n), alg.AdvanceN(b, n))
    ensures alg.AdvanceN(a, n) == 0 <==> a == 0
    decreases n
  {
    hide Xor, Algorithm.Advance;
    if n > 0 {
      AdvanceLinear(alg, a, b);
      AdvanceInjective(alg, a);
      AdvanceNLinear(alg, alg.Advance(a), alg.Advance(b), n - 1);
    }
  }

  lemma MixLinear(alg: Algorithm, x: bool, y: bool)
    ensures alg.Mix(x != y) == Xor(alg.Mix(x), alg.Mix(y))
    ensures alg.Mix(false) == 0 && alg.Leads(alg.Mix(true))
  {
  }

  lemma BitLinear(alg: Algorithm, a: bv16, b: bv16, x: bool, y: bool)
    ensures alg.Bit(Xor(a, b), x != y) == Xor(alg.Bit(a, x), alg.Bit(b, y))
  {
    hide Xor, Algorithm.Mix, Algorithm.Advance;
    MixLinear(alg, x, y);
    XorLaws(a, b, alg.Mix(x), alg.Mix(y));
    AdvanceLinear(alg, Xor(a, alg.Mix(x)), Xor(b, alg.Mix(y)));
  }

  // ---------------------------------------------------------------- the bit view computes the same register

  /** Shifting drops the leading bit. */
  lemma DropLead(alg: Algorithm, m: bv16)
    ensures alg.Shift(Xor(m, alg.Mix(alg.Leads(m)))) == alg.Shift(m)
    ensures !alg.Leads(Xor(m, alg.Mix(alg.Leads(m))))
  {
    match alg case Xmodem => case Modbus =>
  }

  /** Mixing a whole word first and then advancing is the same as feeding its
      leading bit, with the rest of the word moved along. */
  lemma PeelBit(alg: Algorithm, c: bv16, m: bv16)
    ensures alg.Advance(Xor(c, m)) == Xor(alg.Bit(c, alg.Leads(m)), alg.Shift(m))
  {
    hide Xor, Algorithm.Mix, Algorithm.Shift, Algorithm.Leads, Algorithm.Poly;
    var lead := alg.Mix(alg.Leads(m));
    var rest := Xor(m, lead);
    DropLead(alg, m);
    XorLaws(m, lead, lead, 0);
    XorLaws(lead, rest, 0, 0);
    XorLaws(c, lead, rest, 0);
    XorLaws(m, 0, 0, 0);
    assert Xor(c, m) == Xor(Xor(c, lead), rest);
    AdvanceLinear(alg, Xor(c, lead), rest);
  }

  lemma {:induction false} FeedWord(alg: Algorithm, c: bv16, m: bv16, n: nat)
    ensures alg.AdvanceN(Xor(c, m), n) == Xor(alg.FoldBits(c, alg.WordBits(m, n)), alg.ShiftN(m, n))
    decreases n
  {
    hide Xor, Algorithm.Advance, Algorithm.Bit, Algorithm.Shift, Algorithm.Leads;
    if n > 0 {
      PeelBit(alg, c, m);
      FeedWord(alg, alg.Bit(c, alg.Leads(m)), alg.Shift(m), n - 1);
      assert alg.WordBits(m, n)[1..] == alg.WordBits(alg.Shift(m), n - 1);
    }
  }

  lemma ShiftEightTimes(alg: Algorithm, c: bv16)
    ensures alg.Shift(alg.Shift(alg.Shift(alg.Shift(alg.Shift(alg.Shift(alg.Shift(alg.Shift(c)))))))) ==
            match alg case Xmodem => c << 8 case Modbus => c >> 8
  {
  }

  lemma ShiftEight(alg: Algorithm, c: bv16)
    ensures alg.ShiftN(c, 8) == match alg case Xmodem => c << 8 case Modbus => c >> 8
  {
    ShiftEightTimes(alg, c);
    hide Algorithm.Shift;
    var c2 := alg.Shift(alg.Shift(c));
    var c4 := alg.Shift(alg.Shift(c2));
    var c6 := alg.Shift(alg.Shift(c4));
    assert alg.ShiftN(c6, 2) == alg.Shift(alg.Shift(c6));
    assert alg.ShiftN(c4, 4) == alg.ShiftN(c6, 2);
    assert alg.ShiftN(c2, 6) == alg.ShiftN(c4, 4);
  }

  lemma AlignedIsOneByte(alg: Algorithm, b: bv8)
    ensures alg.ShiftN(alg.Align(b), 8) == 0
  {
    ShiftEight(alg, alg.Align(b));
    hide Algorithm.ShiftN;
  }

  lemma ByteIsBits(alg: Algorithm, c: bv16, b: bv8)
    ensures alg.Byte(c, b) == alg.FoldBits(c, alg.WordBits(alg.Align(b), 8))
  {
    hide Xor, Algorithm.AdvanceN, Algorithm.Align, Algorithm.WordBits, Algorithm.ShiftN, Algorithm.FoldBits;
    FeedWord(alg, c, alg.Align(b), 8);
    AlignedIsOneByte(alg, b);
    XorLaws(alg.FoldBits(c, alg.WordBits(alg.Align(b), 8)), 0, 0, 0);
  }

  lemma {:induction false} FoldIsFoldBits(alg: Algorithm, c: bv16, data: Bytes)
    ensures alg.Fold(c, data) == alg.FoldBits(c, alg.Wire(data))
    decreases |data|
  {
    hide Algorithm.Byte, Algorithm.WordBits, Algorithm.Align, Algorithm.Bit;
    if data != [] {
      ByteIsBits(alg, c, data[0]);
      FoldIsFoldBits(alg, alg.Byte(c, data[0]), data[1..]);
      FoldBitsAppend(alg, c, alg.WordBits(alg.Align(data[0]), 8), alg.Wire(data[1..]));
    }
  }
}

/** Two flipped bits.

    The register is a counter in disguise: turning it `n` times multiplies by the `n`-th
    power of its unit, and the powers come back to the unit after exactly 32767 turns.  So
    two flipped bits go unnoticed exactly if a multiple of 32767 bits lies between them.
 */
module TwoBitErrors {
  import opened Crc
  import opened ErrorDetection

  const ORDER := 32767

  // ---------------------------------------------------------------- products of registers

  /** The register bit that fifteen shifts move to where message bits enter. */
  function One(alg: Algorithm): bv16 { match alg case Xmodem => 0x0001 case Modbus => 0x8000 }

  /** The register after `n` turns from the unit. */
  function Power(alg: Algorithm, n: nat): bv16 { alg.AdvanceN(One(alg), n) }

  /** The bit that is lost in a turn, spelt out as Turned is: powers are computed faster so. */
  predicate Top(alg: Algorithm, p: bv16) { match alg case Xmodem => p & 0x8000 != 0 case Modbus => p & 1 != 0 }

  /** One step of a multiplication: `p` gives up its leading coefficient. */
  function Turn(alg: Algorithm, p: bv16, u: bv16, a: bv16): bv16
  {
    Xor(Turned(alg, a), if Top(alg, p) then u else 0)
  }

  function Times(alg: Algorithm, p: bv16, u: bv16, a: bv16, n: nat): bv16
    decreases n
  {
    if n == 0 then a else Times(alg, alg.Shift(p), u, Turn(alg, p, u, a), n - 1)
  }

  function Four(alg: Algorithm, p: bv16, u: bv16, a: bv16): bv16
  {
    var p1 := alg.Shift(p);
    var p2 := alg.Shift(p1);
    var p3 := alg.Shift(p2);
    Turn(alg, p3, u, Turn(alg, p2, u, Turn(alg, p1, u, Turn(alg, p, u, a))))
  }

  function Skip(alg: Algorithm, p: bv16): bv16 { match alg case Xmodem => p << 4 case Modbus => p >> 4 }

  /** The sum of the turned registers `u` that the coefficients of `p` select. */
  function Product(alg: Algorithm, p: bv16, u: bv16): bv16
  {
    var p1 := Skip(alg, p);
    var p2 := Skip(alg, p1);
    var p3 := Skip(alg, p2);
    Four(alg, p3, u, Four(alg, p2, u, Four(alg, p1, u, Four(alg, p, u, 0))))
  }

  lemma SkipIsFour(alg: Algorithm, p: bv16)
    ensures Skip(alg, p) == alg.Shift(alg.Shift(alg.Shift(alg.Shift(p))))
  {
    match alg
    case Xmodem => LeftFour(p);
    case Modbus => RightFour(p);
  }

  lemma LeftFour(p: bv16)
    ensures p << 4 == (((p << 1) << 1) << 1) << 1
  {
  }

  lemma RightFour(p: bv16)
    ensures p >> 4 == (((p >> 1) >> 1) >> 1) >> 1
  {
  }

  lemma TimesFour(alg: Algorithm, p: bv16, u: bv16, a: bv16, n: nat)
    ensures Times(alg, p, u, a, n + 4) == Times(alg, Skip(alg, p), u, Four(alg, p, u, a), n)
  {
    SkipIsFour(alg, p);
    hide Turn, Skip, Algorithm.Shift;
    var p1 := alg.Shift(p);
    var p2 := alg.Shift(p1);
    var p3 := alg.Shift(p2);
    var a1 := Turn(alg, p, u, a);
    var a2 := Turn(alg, p1, u, a1);
    var a3 := Turn(alg, p2, u, a2);
    assert Times(alg, p, u, a, n + 4) == Times(alg, p1, u, a1, n + 3);
    assert Times(alg, p1, u, a1, n + 3) == Times(alg, p2, u, a2, n + 2);
    assert Times(alg, p2, u, a2, n + 2) == Times(alg, p3, u, a3, n + 1);
  }

  lemma ProductIsTimes(alg: Algorithm, p: bv16, u: bv16)
    ensures Product(alg, p, u) == Times(alg, p, u, 0, 16)
  {
    hide Four, Skip;
    var p1 := Skip(alg, p);
    var p2 := Skip(alg, p1);
    var p3 := Skip(alg, p2);
    var a1 := Four(alg, p, u, 0);
    var a2 := Four(alg, p1, u, a1);
    var a3 := Four(alg, p2, u, a2);
    TimesFour(alg, p, u, 0, 12);
    TimesFour(alg, p1, u, a1, 8);
    TimesFour(alg, p2, u, a2, 4);
    TimesFour(alg, p3, u, a3, 0);
    hide Times;
    assert Times(alg, p3, u, a3, 4) == Times(alg, Skip(alg, p3), u, Four(alg, p3, u, a3), 0);
    TimesNone(alg, Skip(alg, p3), u, Four(alg, p3, u, a3));
  }

  lemma TimesNone(alg: Algorithm, p: bv16, u: bv16, a: bv16)
    ensures Times(alg, p, u, a, 0) == a
  {
  }

  lemma TurnIs(alg: Algorithm, p: bv16, u: bv16, a: bv16)
    ensures Turn(alg, p, u, a) == Xor(alg.Advance(a), if alg.Leads(p) then u else 0)
  {
    AdvanceIsTurned(alg, a);
    TopIsLeads(alg, p);
    hide Algorithm.Leads, Algorithm.Advance, Turned, Top, Xor;
  }

  lemma TopIsLeads(alg: Algorithm, p: bv16)
    ensures Top(alg, p) <==> alg.Leads(p)
  {
  }

  lemma TurnCommutes(alg: Algorithm, p: bv16, u: bv16, a: bv16)
    ensures Turn(alg, p, alg.Advance(u), alg.Advance(a)) == alg.Advance(Turn(alg, p, u, a))
  {
    TurnIs(alg, p, u, a);
    TurnIs(alg, p, alg.Advance(u), alg.Advance(a));
    AdvanceLinear(alg, alg.Advance(a), if alg.Leads(p) then u else 0);
    hide Turn, Xor, Algorithm.Advance, Algorithm.Leads;
  }

  lemma {:induction false} TimesCommutes(alg: Algorithm, p: bv16, u: bv16, a: bv16, n: nat)
    ensures Times(alg, p, alg.Advance(u), alg.Advance(a), n) == alg.Advance(Times(alg, p, u, a, n))
    decreases n
  {
    hide Turn, Algorithm.Advance, Algorithm.Shift;
    if n > 0 {
      TurnCommutes(alg, p, u, a);
      TimesCommutes(alg, alg.Shift(p), u, Turn(alg, p, u, a), n - 1);
    }
  }

  lemma {:induction false} ProductCommutes(alg: Algorithm, p: bv16, u: bv16, n: nat)
    ensures Product(alg, p, alg.AdvanceN(u, n)) == alg.AdvanceN(Product(alg, p, u), n)
    decreases n
  {
    hide Product, Times, Algorithm.Advance;
    if n > 0 {
      ProductIsTimes(alg, p, u);
      ProductIsTimes(alg, p, alg.Advance(u));
      TimesCommutes(alg, p, u, 0, 16);
      AdvanceLinear(alg, 0, 0);
      ProductCommutes(alg, p, alg.Advance(u), n - 1);
    }
  }

  lemma ProductWithOne(alg: Algorithm, p: bv16)
    ensures Product(alg, p, One(alg)) == p
  {
    var p1 := Skip(alg, p);
    var p2 := Skip(alg, p1);
    var p3 := Skip(alg, p2);
    var a1, a2, a3 := Push(alg, 0, p), Push(alg, Push(alg, 0, p), p1), Push(alg, Push(alg, Push(alg, 0, p), p1), p2);
    Pushed(alg, p);
    FourOfOne(alg, p, 0);
    FourOfOne(alg, p1, a1);
    FourOfOne(alg, p2, a2);
    FourOfOne(alg, p3, a3);
    hide Four, Skip, Push, One, Room;
  }

  /** The top four bits of `a` are free. */
  predicate Room(alg: Algorithm, a: bv16)
  {
    match alg case Xmodem => a & 0xF000 == 0 case Modbus => a & 0x000F == 0
  }

  /** The four leading coefficients of `p` follow those in `a`. */
  function Push(alg: Algorithm, a: bv16, p: bv16): bv16
  {
    match alg case Xmodem => (a << 4) ^ (p >> 12) case Modbus => (a >> 4) ^ (p << 12)
  }

  lemma FourOfOne(alg: Algorithm, p: bv16, a: bv16)
    requires Room(alg, a)
    ensures Four(alg, p, One(alg), a) == Push(alg, a, p)
  {
    assert Pushes(alg, p, a) by {
      match alg
      case Xmodem => FourLeftPushes(p, a);
      case Modbus => FourRightPushes(p, a);
    }
    hide PushOne, Push, Room, Top, Turned, Turn, One, Algorithm.Shift;
    var p1 := alg.Shift(p);
    var p2 := alg.Shift(p1);
    var p3 := alg.Shift(p2);
    var a1 := PushOne(alg, a, p);
    var a2 := PushOne(alg, a1, p1);
    var a3 := PushOne(alg, a2, p2);
    OneTurn(alg, p, a);
    OneTurn(alg, p1, a1);
    OneTurn(alg, p2, a2);
    OneTurn(alg, p3, a3);
  }

  /** The leading coefficient of `p` follows those in `a`. */
  function PushOne(alg: Algorithm, a: bv16, p: bv16): bv16
  {
    match alg case Xmodem => (a << 1) ^ (p >> 15) case Modbus => (a >> 1) ^ (p << 15)
  }

  lemma OneTurn(alg: Algorithm, p: bv16, a: bv16)
    requires !Top(alg, a)
    ensures Turn(alg, p, One(alg), a) == PushOne(alg, a, p)
  {
    match alg case Xmodem => case Modbus =>
  }

  /** Four coefficients in turn follow those in `a`, and none is turned over. */
  predicate Pushes(alg: Algorithm, p: bv16, a: bv16)
  {
    var p1 := alg.Shift(p);
    var p2 := alg.Shift(p1);
    var p3 := alg.Shift(p2);
    var a1 := PushOne(alg, a, p);
    var a2 := PushOne(alg, a1, p1);
    var a3 := PushOne(alg, a2, p2);
    && !Top(alg, a) && !Top(alg, a1) && !Top(alg, a2) && !Top(alg, a3)
    && PushOne(alg, a3, p3) == Push(alg, a, p)
  }

  lemma FourLeftPushes(p: bv16, a: bv16)
    requires Room(Xmodem, a)
    ensures Pushes(Xmodem, p, a)
  {
    FourLeft(p, a);
  }

  lemma FourRightPushes(p: bv16, a: bv16)
    requires Room(Modbus, a)
    ensures Pushes(Modbus, p, a)
  {
    FourRight(p, a);
  }

  lemma FourLeft(p: bv16, a: bv16)
    requires a & 0xF000 == 0
    ensures
      var p1 := p << 1;
      var p2 := p1 << 1;
      var p3 := p2 << 1;
      var a1 := (a << 1) ^ (p >> 15);
      var a2 := (a1 << 1) ^ (p1 >> 15);
      var a3 := (a2 << 1) ^ (p2 >> 15);
      && a & 0x8000 == 0 && a1 & 0x8000 == 0 && a2 & 0x8000 == 0 && a3 & 0x8000 == 0
      && (a3 << 1) ^ (p3 >> 15) == (a << 4) ^ (p >> 12)
  {
  }

  lemma FourRight(p: bv16, a: bv16)
    requires a & 0x000F == 0
    ensures
      var p1 := p >> 1;
      var p2 := p1 >> 1;
      var p3 := p2 >> 1;
      var a1 := (a >> 1) ^ (p << 15);
      var a2 := (a1 >> 1) ^ (p1 << 15);
      var a3 := (a2 >> 1) ^ (p2 << 15);
      && a & 1 == 0 && a1 & 1 == 0 && a2 & 1 == 0 && a3 & 1 == 0
      && (a3 >> 1) ^ (p3 << 15) == (a >> 4) ^ (p << 12)
  {
  }

  lemma Pushed(alg: Algorithm, p: bv16)
    ensures
      var p1 := Skip(alg, p);
      var p2 := Skip(alg, p1);
      var p3 := Skip(alg, p2);
      var a1 := Push(alg, 0, p);
      var a2 := Push(alg, a1, p1);
      var a3 := Push(alg, a2, p2);
      Room(alg, 0) && Room(alg, a1) && Room(alg, a2) && Room(alg, a3) && Push(alg, a3, p3) == p
  {
    match alg case Xmodem => case Modbus =>
  }

  lemma {:induction false} AdvanceSum(alg: Algorithm, c: bv16, m: nat, n: nat)
    ensures alg.AdvanceN(c, m + n) == alg.AdvanceN(alg.AdvanceN(c, m), n)
    decreases m
  {
    hide Algorithm.Advance;
    if m > 0 {
      AdvanceSum(alg, alg.Advance(c), m - 1, n);
    }
  }

  lemma PowerSum(alg: Algorithm, m: nat, n: nat)
    ensures Power(alg, m + n) == Product(alg, Power(alg, m), Power(alg, n))
  {
    hide Product, Algorithm.AdvanceN, One;
    AdvanceSum(alg, One(alg), m, n);
    ProductWithOne(alg, Power(alg, m));
    ProductCommutes(alg, Power(alg, m), One(alg), n);
  }

  // ---------------------------------------------------------------- some powers

  /** One value for each algorithm. */
  function Pick(alg: Algorithm, xmodem: bv16, modbus: bv16): bv16
  {
    match alg case Xmodem => xmodem case Modbus => modbus
  }

  lemma FirstPower(alg: Algorithm)
    ensures Power(alg, 1) == Pick(alg, 0x0002, 0x4000)
  {
    match alg
    case Xmodem => XmodemTurn(0x0001);
    case Modbus => ModbusTurn(0x8000);
  }

  lemma PowersTo4(alg: Algorithm)
    requires Power(alg, 1) == Pick(alg, 0x0002, 0x4000)
    ensures Power(alg, 2) == Pick(alg, 0x0004, 0x2000) && Power(alg, 4) == Pick(alg, 0x0010, 0x0800)
  {
    hide Power;
    PowerSum(alg, 1, 1);
    PowerSum(alg, 2, 2);
    match alg
    case Xmodem =>
      assert Product(Xmodem, 0x0002, 0x0002) == 0x0004;
      assert Product(Xmodem, 0x0004, 0x0004) == 0x0010;
    case Modbus =>
      assert Product(Modbus, 0x4000, 0x4000) == 0x2000;
      assert Product(Modbus, 0x2000, 0x2000) == 0x0800;
  }

  lemma PowersTo16(alg: Algorithm)
    requires Power(alg, 4) == Pick(alg, 0x0010, 0x0800)
    ensures Power(alg, 8) == Pick(alg, 0x0100, 0x0080) && Power(alg, 16) == Pick(alg, 0x1021, 0xA001)
  {
    hide Power;
    PowerSum(alg, 4, 4);
    PowerSum(alg, 8, 8);
    match alg
    case Xmodem =>
      assert Product(Xmodem, 0x0010, 0x0010) == 0x0100;
      assert Product(Xmodem, 0x0100, 0x0100) == 0x1021;
    case Modbus =>
      assert Product(Modbus, 0x0800, 0x0800) == 0x0080;
      assert Product(Modbus, 0x0080, 0x0080) == 0xA001;
  }

  lemma PowersTo128(alg: Algorithm)
    requires Power(alg, 16) == Pick(alg, 0x1021, 0xA001)
    ensures Power(alg, 32) == Pick(alg, 0x3730, 0xE801)
    ensures Power(alg, 64) == Pick(alg, 0xB861, 0xC881)
    ensures Power(alg, 128) == Pick(alg, 0xAEFC, 0x6080)
  {
    hide Power;
    PowerSum(alg, 16, 16);
    PowerSum(alg, 32, 32);
    PowerSum(alg, 64, 64);
    match alg
    case Xmodem =>
      assert Product(Xmodem, 0x1021, 0x1021) == 0x3730;
      assert Product(Xmodem, 0x3730, 0x3730) == 0xB861;
      assert Product(Xmodem, 0xB861, 0xB861) == 0xAEFC;
    case Modbus =>
      assert Product(Modbus, 0xA001, 0xA001) == 0xE801;
      assert Product(Modbus, 0xE801, 0xE801) == 0xC881;
      assert Product(Modbus, 0xC881, 0xC881) == 0x6080;
  }

  lemma PowersTo1024(alg: Algorithm)
    requires Power(alg, 128) == Pick(alg, 0xAEFC, 0x6080)
    ensures Power(alg, 256) == Pick(alg, 0x8E29, 0x8801)
    ensures Power(alg, 512) == Pick(alg, 0x13FC, 0xE081)
    ensures Power(alg, 1024) == Pick(alg, 0x36C4, 0x6800)
  {
    hide Power;
    PowerSum(alg, 128, 128);
    PowerSum(alg, 256, 256);
    PowerSum(alg, 512, 512);
    match alg
    case Xmodem =>
      assert Product(Xmodem, 0xAEFC, 0xAEFC) == 0x8E29;
      assert Product(Xmodem, 0x8E29, 0x8E29) == 0x13FC;
      assert Product(Xmodem, 0x13FC, 0x13FC) == 0x36C4;
    case Modbus =>
      assert Product(Modbus, 0x6080, 0x6080) == 0x8801;
      assert Product(Modbus, 0x8801, 0x8801) == 0xE081;
      assert Product(Modbus, 0xE081, 0xE081) == 0x6800;
  }

  lemma PowersTo8192(alg: Algorithm)
    requires Power(alg, 1024) == Pick(alg, 0x36C4, 0x6800)
    ensures Power(alg, 2048) == Pick(alg, 0xFD50, 0x2880)
    ensures Power(alg, 4096) == Pick(alg, 0xAA9E, 0xA881)
    ensures Power(alg, 8192) == Pick(alg, 0x881C, 0x4880)
  {
    hide Power;
    PowerSum(alg, 1024, 1024);
    PowerSum(alg, 2048, 2048);
    PowerSum(alg, 4096, 4096);
    match alg
    case Xmodem =>
      assert Product(Xmodem, 0x36C4, 0x36C4) == 0xFD50;
      assert Product(Xmodem, 0xFD50, 0xFD50) == 0xAA9E;
      assert Product(Xmodem, 0xAA9E, 0xAA9E) == 0x881C;
    case Modbus =>
      assert Product(Modbus, 0x6800, 0x6800) == 0x2880;
      assert Product(Modbus, 0x2880, 0x2880) == 0xA881;
      assert Product(Modbus, 0xA881, 0xA881) == 0x4880;
  }

  lemma PowersTo32768(alg: Algorithm)
    requires Power(alg, 8192) == Pick(alg, 0x881C, 0x4880)
    ensures Power(alg, 16384) == Pick(alg, 0x4458, 0x8081) && Power(alg, 32768) == Pick(alg, 0x0002, 0x4000)
  {
    hide Power;
    PowerSum(alg, 8192, 8192);
    PowerSum(alg, 16384, 16384);
    match alg
    case Xmodem =>
      assert Product(Xmodem, 0x881C, 0x881C) == 0x4458;
      assert Product(Xmodem, 0x4458, 0x4458) == 0x0002;
    case Modbus =>
      assert Product(Modbus, 0x4880, 0x4880) == 0x8081;
      assert Product(Modbus, 0x8081, 0x8081) == 0x4000;
  }

  lemma Power217(alg: Algorithm)
    requires Power(alg, 1) == Pick(alg, 0x0002, 0x4000)
    requires Power(alg, 8) == Pick(alg, 0x0100, 0x0080)
    requires Power(alg, 16) == Pick(alg, 0x1021, 0xA001)
    requires Power(alg, 64) == Pick(alg, 0xB861, 0xC881)
    requires Power(alg, 128) == Pick(alg, 0xAEFC, 0x6080)
    ensures Power(alg, 217) == Pick(alg, 0x48E3, 0x3E55)
  {
    hide Power;
    PowerSum(alg, 128, 64);
    PowerSum(alg, 192, 16);
    PowerSum(alg, 208, 8);
    PowerSum(alg, 216, 1);
    match alg
    case Xmodem =>
      assert Product(Xmodem, 0xAEFC, 0xB861) == 0x650B;
      assert Product(Xmodem, 0x650B, 0x1021) == 0x45B4;
      assert Product(Xmodem, 0x45B4, 0x0100) == 0xAC61;
      assert Product(Xmodem, 0xAC61, 0x0002) == 0x48E3;
    case Modbus =>
      assert Product(Modbus, 0x6080, 0xC881) == 0x6668;
      assert Product(Modbus, 0x6668, 0xA001) == 0xEAAF;
      assert Product(Modbus, 0xEAAF, 0x0080) == 0x7CAA;
      assert Product(Modbus, 0x7CAA, 0x4000) == 0x3E55;
  }

  lemma Power1057(alg: Algorithm)
    requires Power(alg, 1) == Pick(alg, 0x0002, 0x4000)
    requires Power(alg, 32) == Pick(alg, 0x3730, 0xE801)
    requires Power(alg, 1024) == Pick(alg, 0x36C4, 0x6800)
    ensures Power(alg, 1057) == Pick(alg, 0xF2AF, 0xCE41)
  {
    hide Power;
    PowerSum(alg, 1024, 32);
    PowerSum(alg, 1056, 1);
    match alg
    case Xmodem =>
      assert Product(Xmodem, 0x36C4, 0x3730) == 0xF147;
      assert Product(Xmodem, 0xF147, 0x0002) == 0xF2AF;
    case Modbus =>
      assert Product(Modbus, 0x6800, 0xE801) == 0xDC81;
      assert Product(Modbus, 0xDC81, 0x4000) == 0xCE41;
  }

  lemma Power4681(alg: Algorithm)
    requires Power(alg, 1) == Pick(alg, 0x0002, 0x4000)
    requires Power(alg, 8) == Pick(alg, 0x0100, 0x0080)
    requires Power(alg, 64) == Pick(alg, 0xB861, 0xC881)
    requires Power(alg, 512) == Pick(alg, 0x13FC, 0xE081)
    requires Power(alg, 4096) == Pick(alg, 0xAA9E, 0xA881)
    ensures Power(alg, 4681) == Pick(alg, 0x2C42, 0x8C69)
  {
    hide Power;
    PowerSum(alg, 4096, 512);
    PowerSum(alg, 4608, 64);
    PowerSum(alg, 4672, 8);
    PowerSum(alg, 4680, 1);
    match alg
    case Xmodem =>
      assert Product(Xmodem, 0xAA9E, 0x13FC) == 0x54A0;
      assert Product(Xmodem, 0x54A0, 0xB861) == 0x0106;
      assert Product(Xmodem, 0x0106, 0x0100) == 0x1621;
      assert Product(Xmodem, 0x1621, 0x0002) == 0x2C42;
    case Modbus =>
      assert Product(Modbus, 0xA881, 0xE081) == 0x7A48;
      assert Product(Modbus, 0x7A48, 0xC881) == 0x51DE;
      assert Product(Modbus, 0x51DE, 0x0080) == 0x58D1;
      assert Product(Modbus, 0x58D1, 0x4000) == 0x8C69;
  }

  // ---------------------------------------------------------------- the order of the register

  /** `n` turns come back to the start. */
  predicate Returns(alg: Algorithm, n: nat) { Power(alg, n) == One(alg) }

  lemma AdvanceNInjective(alg: Algorithm, a: bv16, b: bv16, n: nat)
    ensures alg.AdvanceN(a, n) == alg.AdvanceN(b, n) <==> a == b
  {
    hide Xor, Algorithm.AdvanceN;
    AdvanceNLinear(alg, a, b, n);
    AdvanceNLinear(alg, Xor(a, b), 0, n);
    XorZero(a, b);
    XorZero(alg.AdvanceN(a, n), alg.AdvanceN(b, n));
  }

  lemma XorZero(a: bv16, b: bv16)
    ensures Xor(a, b) == 0 <==> a == b
  {
    if Xor(a, b) == 0 {
      assert a == Xor(Xor(a, b), b);
    }
  }

  lemma ReturnsSum(alg: Algorithm, m: nat, n: nat)
    requires Returns(alg, n)
    ensures Returns(alg, m + n) <==> Returns(alg, m)
  {
    hide One, Algorithm.AdvanceN;
    AdvanceSum(alg, One(alg), m, n);
    AdvanceNInjective(alg, Power(alg, m), One(alg), n);
  }

  lemma {:induction false} ReturnsMultiple(alg: Algorithm, n: nat, k: nat)
    requires Returns(alg, n)
    ensures Returns(alg, n * k)
    decreases k
  {
    hide Power, One;
    if k == 0 {
      ReturnsNone(alg);
    } else {
      ReturnsMultiple(alg, n, k - 1);
      ReturnsSum(alg, n * (k - 1), n);
      assert n * (k - 1) + n == n * k;
    }
  }

  lemma ReturnsNone(alg: Algorithm)
    ensures Returns(alg, 0)
  {
  }

  /** Two returns have a common divisor that is a return, by Euclid. */
  lemma {:induction false} CommonReturn(alg: Algorithm, m: nat, n: nat) returns (g: nat, s: nat, t: nat)
    requires m > 0 && n > 0 && Returns(alg, m) && Returns(alg, n)
    ensures g > 0 && Returns(alg, g) && m == g * s && n == g * t
    decreases m + n
  {
    hide Returns;
    if m == n {
      g, s, t := m, 1, 1;
    } else if m > n {
      ReturnsSum(alg, m - n, n);
      var r;
      g, r, t := CommonReturn(alg, m - n, n);
      s := r + t;
      assert g * s == g * r + g * t;
    } else {
      ReturnsSum(alg, n - m, m);
      var r;
      g, s, r := CommonReturn(alg, m, n - m);
      t := s + r;
      assert g * t == g * s + g * r;
    }
  }

  /** A common divisor that is a combination of the two. */
  lemma {:induction false} Bezout(a: nat, b: nat) returns (d: nat, x: int, y: int, s: nat, t: nat)
    requires a > 0 && b > 0
    ensures d > 0 && a == d * s && b == d * t && d == a * x + b * y
    decreases a + b
  {
    if a == b {
      d, x, y, s, t := a, 1, 0, 1, 1;
    } else if a > b {
      var r, z;
      d, x, z, r, t := Bezout(a - b, b);
      s, y := r + t, z - x;
      assert d * s == d * r + d * t;
      assert a * x + b * y == (a - b) * x + b * z;
    } else {
      var r, z;
      d, z, y, s, r := Bezout(a, b - a);
      t, x := s + r, z - y;
      assert d * t == d * s + d * r;
      assert a * x + b * y == a * z + (b - a) * y;
    }
  }

  predicate IsFactor(q: nat) { q == 7 || q == 31 || q == 151 }

  lemma SmallDivisor(q: nat, d: nat, e: nat)
    requires IsFactor(q) && d * e == q && d <= 12
    ensures d == 1 || d == q
  {
    assert d == 0 || q % d == 0 by {
      assert q == e * d;
    }
    assert 7 % 2 != 0 && 7 % 3 != 0 && 7 % 4 != 0 && 7 % 5 != 0 && 7 % 6 != 0;
  }

  lemma OnesMultiply(t: int, x: int, y: int, z: int, a: int, b: int, c: int)
    requires t * x + 7 * a == 1 && t * y + 31 * b == 1 && t * z + 151 * c == 1
    ensures exists w :: t * w + ORDER * (a * b * c) == 1
  {
    var u := x * (t * y + 31 * b) + 7 * a * y;
    assert t * u + 217 * (a * b) == 1;
    var w := u * (t * z + 151 * c) + 217 * (a * b) * z;
    assert t * w + ORDER * (a * b * c) == 1;
  }


  lemma FactorOfOrder(g: nat, t: nat)
    requires g * t == ORDER && t > 1
    ensures t % 7 == 0 || t % 31 == 0 || t % 151 == 0
  {
    var d7, x, a, s7, e7 := Bezout(t, 7);
    var d31, y, b, s31, e31 := Bezout(t, 31);
    var d151, z, c, s151, e151 := Bezout(t, 151);
    DivisorOfFactor(7, d7, e7, t, s7);
    DivisorOfFactor(31, d31, e31, t, s31);
    DivisorOfFactor(151, d151, e151, t, s151);
    if d7 == 1 && d31 == 1 && d151 == 1 {
      OnesMultiply(t, x, y, z, a, b, c);
      var w :| t * w + ORDER * (a * b * c) == 1;
      assert t * (w + g * (a * b * c)) == t * w + (g * t) * (a * b * c);
      OnlyOneDividesOne(t, w + g * (a * b * c));
    }
  }

  lemma OnlyOneDividesOne(t: nat, w: int)
    requires t * w == 1
    ensures t == 1
  {
  }

  lemma OnlyTrivialDivisors(q: nat, d: nat, e: nat)
    requires IsFactor(q) && d * e == q
    ensures d == 1 || d == q
  {
    if d <= 12 {
      SmallDivisor(q, d, e);
    } else if e <= 12 {
      SmallDivisor(q, e, d);
    } else {
      BothLarge(d, e);
    }
  }

  lemma DivisorOfFactor(q: nat, d: nat, e: nat, t: nat, s: nat)
    requires IsFactor(q) && d * e == q && t == d * s
    ensures d == 1 || t % q == 0
  {
    OnlyTrivialDivisors(q, d, e);
    if d == 7 {
      assert t == 7 * s;
    } else if d == 31 {
      assert t == 31 * s;
    } else if d == 151 {
      assert t == 151 * s;
    }
  }

  lemma BothLarge(d: nat, e: nat)
    requires d > 12 && e > 12
    ensures d * e > 151
  {
    assert d * e >= 13 * e;
  }

  /** A divisor of the order is a divisor of one of the three largest. */
  lemma QuotientOf(g: nat, t: nat)
    requires g * t == ORDER && t > 1
    ensures
      || (t % 7 == 0 && g * (t / 7) == 4681)
      || (t % 31 == 0 && g * (t / 31) == 1057)
      || (t % 151 == 0 && g * (t / 151) == 217)
  {
    FactorOfOrder(g, t);
    if t % 7 == 0 {
      assert g * t == 7 * (g * (t / 7));
    } else if t % 31 == 0 {
      assert g * t == 31 * (g * (t / 31));
    } else {
      assert g * t == 151 * (g * (t / 151));
    }
  }

  lemma OrderReturns(alg: Algorithm)
    ensures Returns(alg, ORDER)
    ensures !Returns(alg, 217) && !Returns(alg, 1057) && !Returns(alg, 4681)
  {
    FirstPower(alg);
    assert Power(alg, 1) != One(alg);
    hide Power;
    PowersTo4(alg);
    PowersTo16(alg);
    PowersTo128(alg);
    PowersTo1024(alg);
    PowersTo8192(alg);
    PowersTo32768(alg);
    Power217(alg);
    Power1057(alg);
    Power4681(alg);
    FullTurn(alg);
  }

  lemma FullTurn(alg: Algorithm)
    requires Power(alg, 32768) == Power(alg, 1)
    ensures Returns(alg, ORDER)
  {
    hide Algorithm.AdvanceN, One;
    AdvanceSum(alg, One(alg), ORDER, 1);
    AdvanceNInjective(alg, Power(alg, ORDER), One(alg), 1);
  }

  /** The register returns to its start exactly after every multiple of 32767 turns. */
  lemma ReturnsExactly(alg: Algorithm, n: nat)
    ensures Returns(alg, n) <==> n % ORDER == 0
  {
    OrderReturns(alg);
    hide Returns;
    if n % ORDER == 0 {
      ReturnsMultiple(alg, ORDER, n / ORDER);
    }
    if n > 0 && Returns(alg, n) {
      var g, s, t := CommonReturn(alg, n, ORDER);
      if t == 1 {
        assert n == ORDER * s;
      } else {
        QuotientOf(g, t);
        ReturnsMultiple(alg, g, t / 7);
        ReturnsMultiple(alg, g, t / 31);
        ReturnsMultiple(alg, g, t / 151);
      }
    }
  }

  // ---------------------------------------------------------------- two flipped bits

  lemma {:induction false} FoldZerosTurns(alg: Algorithm, c: bv16, xs: Bits)
    requires Zeros(xs)
    ensures alg.FoldBits(c, xs) == alg.AdvanceN(c, |xs|)
    decreases |xs|
  {
    hide Algorithm.Bit, Algorithm.Advance;
    if xs != [] {
      BitZero(alg, c);
      FoldZerosTurns(alg, alg.Bit(c, false), xs[1..]);
    }
  }

  /** Exactly the bits `i` and `j` differ. */
  predicate DifferAt(xs: Bits, ys: Bits, i: nat, j: nat)
    requires |xs| == |ys|
  {
    i < j < |xs| && forall k :: 0 <= k < |xs| ==> (xs[k] != ys[k] <==> k == i || k == j)
  }

  lemma EntryIsPower(alg: Algorithm)
    ensures alg.Entry() == Power(alg, 15)
  {
    hide Algorithm.Advance;
    var c := One(alg);
    FifteenTurns(alg);
    assert alg.AdvanceN(c, 15) == alg.AdvanceN(alg.Advance(alg.Advance(alg.Advance(c))), 12);
    var c3 := alg.Advance(alg.Advance(alg.Advance(c)));
    assert alg.AdvanceN(c3, 12) == alg.AdvanceN(alg.Advance(alg.Advance(alg.Advance(c3))), 9);
    var c6 := alg.Advance(alg.Advance(alg.Advance(c3)));
    assert alg.AdvanceN(c6, 9) == alg.AdvanceN(alg.Advance(alg.Advance(alg.Advance(c6))), 6);
    var c9 := alg.Advance(alg.Advance(alg.Advance(c6)));
    assert alg.AdvanceN(c9, 6) == alg.AdvanceN(alg.Advance(alg.Advance(alg.Advance(c9))), 3);
  }

  lemma FifteenTurns(alg: Algorithm)
    ensures
      var c3 := alg.Advance(alg.Advance(alg.Advance(One(alg))));
      var c6 := alg.Advance(alg.Advance(alg.Advance(c3)));
      var c9 := alg.Advance(alg.Advance(alg.Advance(c6)));
      var c12 := alg.Advance(alg.Advance(alg.Advance(c9)));
      alg.Advance(alg.Advance(alg.Advance(c12))) == alg.Entry()
  {
    match alg case Xmodem => case Modbus =>
  }

  lemma TwoOnes(alg: Algorithm, head: Bits, gap: Bits, tail: Bits)
    requires Zeros(head) && Zeros(gap) && Zeros(tail)
    ensures alg.FoldBits(0, head + ([true] + (gap + ([true] + tail)))) == 0 <==> (|gap| + 1) % ORDER == 0
  {
    hide Xor, Algorithm.FoldBits, Algorithm.AdvanceN, Algorithm.Entry, One, Power, Returns;
    var e := alg.Entry();
    var c := alg.AdvanceN(e, |gap| + 1);
    FoldBitsAppend(alg, 0, head, [true] + (gap + ([true] + tail)));
    FoldZerosTurns(alg, 0, head);
    AdvanceNLinear(alg, 0, 0, |head|);
    FoldBitsAppend(alg, 0, [true], gap + ([true] + tail));
    FirstOne(alg, 0);
    XorLaws(e, 0, 0, 0);
    XorLaws(0, e, 0, 0);
    FoldBitsAppend(alg, alg.Advance(e), gap, [true] + tail);
    FoldZerosTurns(alg, alg.Advance(e), gap);
    AdvanceFirst(alg, e, |gap|);
    FoldBitsAppend(alg, c, [true], tail);
    FirstOne(alg, c);
    FoldZeros(alg, alg.Advance(Xor(c, e)), tail);
    AdvanceInjective(alg, Xor(c, e));
    XorZero(c, e);
    ComesBack(alg, |gap| + 1);
  }

  lemma FirstOne(alg: Algorithm, c: bv16)
    ensures alg.FoldBits(c, [true]) == alg.Advance(Xor(c, alg.Entry()))
  {
    hide Xor, Algorithm.Advance, Algorithm.Entry;
    assert [true][1..] == [];
    assert alg.FoldBits(alg.Bit(c, true), []) == alg.Bit(c, true);
  }

  lemma AdvanceFirst(alg: Algorithm, c: bv16, n: nat)
    ensures alg.AdvanceN(alg.Advance(c), n) == alg.AdvanceN(c, n + 1)
  {
    hide Algorithm.Advance;
  }

  /** The entry bit comes back exactly when the unit does. */
  lemma ComesBack(alg: Algorithm, n: nat)
    ensures alg.AdvanceN(alg.Entry(), n) == alg.Entry() <==> n % ORDER == 0
  {
    ReturnsExactly(alg, n);
    EntryIsPower(alg);
    hide One, Algorithm.AdvanceN, Algorithm.Entry;
    AdvanceSum(alg, One(alg), 15, n);
    AdvanceSum(alg, One(alg), n, 15);
    AdvanceNInjective(alg, Power(alg, n), One(alg), 15);
  }

  lemma SplitAtTwo(d: Bits, i: nat, j: nat)
    requires i < j < |d| && forall k :: 0 <= k < |d| ==> (d[k] <==> k == i || k == j)
    ensures d == d[..i] + ([true] + (d[i + 1..j] + ([true] + d[j + 1..])))
    ensures Zeros(d[..i]) && Zeros(d[i + 1..j]) && Zeros(d[j + 1..])
  {
  }

  /** Flipping exactly two bits of an accepted frame goes unnoticed if and only if their
      distance is a multiple of 32767. */
  lemma TwoBitsPassExactly(alg: Algorithm, m: Bytes, m': Bytes, i: nat, j: nat)
    requires |m| == |m'| && Clears(alg, m) && DifferAt(alg.Wire(m), alg.Wire(m'), i, j)
    ensures Clears(alg, m') <==> (j - i) % ORDER == 0
  {
    hide Clears, Algorithm.Wire, Algorithm.FoldBits;
    AcceptedCorruptions(alg, m, m');
    var d := Diff(alg.Wire(m), alg.Wire(m'));
    SplitAtTwo(d, i, j);
    hide DifferAt, Zeros, Diff;
    TwoOnes(alg, d[..i], d[i + 1..j], d[j + 1..]);
  }

  // ---------------------------------------------------------------- the burst bound is tight

  /** The byte whose last bit on the wire is set. */
  function LastBit(alg: Algorithm): bv8 { match alg case Xmodem => 0x01 case Modbus => 0x80 }

  function Sealed(alg: Algorithm, x: bv8): Bytes { [x] + alg.WireBytes(alg.Checksum([x])) }

  lemma SealedStart(alg: Algorithm, j: nat)
    requires j < 7
    ensures |alg.Wire(Sealed(alg, 0))| == 24 && |alg.Wire(Sealed(alg, LastBit(alg)))| == 24
    ensures alg.Wire(Sealed(alg, 0))[j] == alg.Wire(Sealed(alg, LastBit(alg)))[j]
  {
    hide Algorithm.WireBytes, Algorithm.Checksum, Algorithm.WordBits;
    assert alg.Wire(Sealed(alg, 0))[..8] == alg.WordBits(alg.Align(0), 8);
    assert alg.Wire(Sealed(alg, LastBit(alg)))[..8] == alg.WordBits(alg.Align(LastBit(alg)), 8);
    LastBitIsLast(alg, j);
  }

  lemma LastBitIsLast(alg: Algorithm, j: nat)
    requires j < 7
    ensures alg.WordBits(alg.Align(0), 8)[j] == alg.WordBits(alg.Align(LastBit(alg)), 8)[j]
  {
    WordBitAt(alg, alg.Align(0), 8, j);
    WordBitAt(alg, alg.Align(LastBit(alg)), 8, j);
    assert alg.Align(0) == 0;
    hide Algorithm.WordBits, Algorithm.Shift, Algorithm.ShiftN, Algorithm.Leads, Algorithm.Align, LastBit;
    ShiftNZero(alg, j);
    LeadsLinear(alg, 0, 0);
    LeadsLast(alg, j);
  }

  lemma {:induction false} WordBitAt(alg: Algorithm, m: bv16, n: nat, j: nat)
    requires j < n
    ensures alg.WordBits(m, n)[j] == alg.Leads(alg.ShiftN(m, j))
    decreases n
  {
    hide Algorithm.Leads, Algorithm.Shift;
    if j > 0 {
      WordBitAt(alg, alg.Shift(m), n - 1, j - 1);
    }
  }

  lemma SevenShifts(alg: Algorithm)
    ensures
      var s0 := alg.Align(LastBit(alg));
      var s1 := alg.Shift(s0);
      var s2 := alg.Shift(s1);
      var s3 := alg.Shift(s2);
      var s4 := alg.Shift(s3);
      var s5 := alg.Shift(s4);
      var s6 := alg.Shift(s5);
      && !alg.Leads(s0) && !alg.Leads(s1) && !alg.Leads(s2) && !alg.Leads(s3)
      && !alg.Leads(s4) && !alg.Leads(s5) && !alg.Leads(s6)
  {
    match alg case Xmodem => case Modbus =>
  }

  lemma LeadsLast(alg: Algorithm, j: nat)
    requires j < 7
    ensures !alg.Leads(alg.ShiftN(alg.Align(LastBit(alg)), j))
  {
    SevenShifts(alg);
    var s0 := alg.Align(LastBit(alg));
    hide Algorithm.Leads, Algorithm.Shift, Algorithm.Align, LastBit;
    var s1 := alg.Shift(s0);
    var s2 := alg.Shift(s1);
    var s3 := alg.Shift(s2);
    var s4 := alg.Shift(s3);
    var s5 := alg.Shift(s4);
    assert j > 0 ==> alg.ShiftN(s0, j) == alg.ShiftN(s1, j - 1);
    assert j > 1 ==> alg.ShiftN(s1, j - 1) == alg.ShiftN(s2, j - 2);
    assert j > 2 ==> alg.ShiftN(s2, j - 2) == alg.ShiftN(s3, j - 3);
    assert j > 3 ==> alg.ShiftN(s3, j - 3) == alg.ShiftN(s4, j - 4);
    assert j > 4 ==> alg.ShiftN(s4, j - 4) == alg.ShiftN(s5, j - 5);
    assert j > 5 ==> alg.ShiftN(s5, j - 5) == alg.ShiftN(alg.Shift(s5), j - 6);
  }

  /** A burst of seventeen bits can go unnoticed: two accepted frames that differ only
      within seventeen consecutive bits of the wire. */
  lemma SeventeenBitsCanPass(alg: Algorithm)
    ensures
      var m, m' := Sealed(alg, 0), Sealed(alg, LastBit(alg));
      && |m| == |m'| && m != m' && Clears(alg, m) && Clears(alg, m')
      && ConfinedTo(alg.Wire(m), alg.Wire(m'), 7, 17)
  {
    hide Algorithm.WireBytes, Algorithm.Checksum, Algorithm.Wire, Clears;
    SealedIffClears(alg, [0], alg.WireBytes(alg.Checksum([0])));
    SealedIffClears(alg, [LastBit(alg)], alg.WireBytes(alg.Checksum([LastBit(alg)])));
    var m, m' := Sealed(alg, 0), Sealed(alg, LastBit(alg));
    assert m[0] == 0 && m'[0] == LastBit(alg) && LastBit(alg) != 0;
    hide Sealed, LastBit;
    forall j | 0 <= j < 24 && !(7 <= j < 24) ensures alg.Wire(m)[j] == alg.Wire(m')[j] {
      SealedStart(alg, j);
    }
    SealedStart(alg, 0);
  }

}

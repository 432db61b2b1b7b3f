/** The values that misc/flyd_crc32.cc computes: the checksum of nothing, of the text "123456789", and of a message with its
    own checksum behind it. Registers are computed with as eight hexadecimal digits. */
module CrcValue {
  import opened Words
  import opened Crc32

  datatype Hex = Hex(b0: bool, b1: bool, b2: bool, b3: bool)

  /** The lowest digit first. */
  datatype Register = Register(h0: Hex, h1: Hex, h2: Hex, h3: Hex, h4: Hex, h5: Hex, h6: Hex, h7: Hex)

  const X0 := Hex(false, false, false, false)
  const X1 := Hex(true, false, false, false)
  const X2 := Hex(false, true, false, false)
  const X3 := Hex(true, true, false, false)
  const X4 := Hex(false, false, true, false)
  const X5 := Hex(true, false, true, false)
  const X6 := Hex(false, true, true, false)
  const X7 := Hex(true, true, true, false)
  const X8 := Hex(false, false, false, true)
  const X9 := Hex(true, false, false, true)
  const XA := Hex(false, true, false, true)
  const XB := Hex(true, true, false, true)
  const XC := Hex(false, false, true, true)
  const XD := Hex(true, false, true, true)
  const XE := Hex(false, true, true, true)
  const XF := Hex(true, true, true, true)

  function Num(h: Hex): nat {
    (if h.b0 then 1 else 0) + (if h.b1 then 2 else 0) + (if h.b2 then 4 else 0) + (if h.b3 then 8 else 0)
  }

  function HexAt(c: uint32, k: nat): Hex
    requires k <= 28
  {
    Hex(c[k], c[k + 1], c[k + 2], c[k + 3])
  }

  function Of(c: uint32): Register {
    Register(HexAt(c, 0), HexAt(c, 4), HexAt(c, 8), HexAt(c, 12), HexAt(c, 16), HexAt(c, 20), HexAt(c, 24), HexAt(c, 28))
  }

  /** One digit of a register step: shifted, and mixed with a digit of the polynomial if the bit shifted out was set. */
  function Down(h: Hex, carry: bool, odd: bool, p: Hex): Hex {
    Hex(h.b1 != (odd && p.b0), h.b2 != (odd && p.b1), h.b3 != (odd && p.b2), carry != (odd && p.b3))
  }

  function StepHex(r: Register): Register {
    var odd := r.h0.b0;
    Register(Down(r.h0, r.h1.b0, odd, X0), Down(r.h1, r.h2.b0, odd, X2),
             Down(r.h2, r.h3.b0, odd, X3), Down(r.h3, r.h4.b0, odd, X8),
             Down(r.h4, r.h5.b0, odd, X8), Down(r.h5, r.h6.b0, odd, XB),
             Down(r.h6, r.h7.b0, odd, XD), Down(r.h7, false, odd, XE))
  }

  function StepsHex(r: Register, n: nat): Register
    decreases n
  {
    if n == 0 then r else StepsHex(StepHex(r), n - 1)
  }

  function Mix(a: Hex, b: Hex): Hex { Hex(a.b0 != b.b0, a.b1 != b.b1, a.b2 != b.b2, a.b3 != b.b3) }

  /** A byte of two digits is shifted in. */
  function FeedByte(r: Register, low: Hex, high: Hex): Register {
    StepsHex(r.(h0 := Mix(r.h0, low), h1 := Mix(r.h1, high)), 8)
  }

  // ---------- registers as digits ----------

  lemma DigitIs(c: uint32, k: nat, h: Hex)
    requires k <= 28
    ensures Digit(c, k) == Num(HexAt(c, k))
    ensures Digit(c, k) == Num(h) ==> HexAt(c, k) == h
  {}

  lemma PolynomialHex()
    ensures HexAt(REFLECTED_POLYNOMIAL, 0) == X0 && HexAt(REFLECTED_POLYNOMIAL, 4) == X2
    ensures HexAt(REFLECTED_POLYNOMIAL, 8) == X3 && HexAt(REFLECTED_POLYNOMIAL, 12) == X8
    ensures HexAt(REFLECTED_POLYNOMIAL, 16) == X8 && HexAt(REFLECTED_POLYNOMIAL, 20) == XB
    ensures HexAt(REFLECTED_POLYNOMIAL, 24) == XD && HexAt(REFLECTED_POLYNOMIAL, 28) == XE
  {
    ReflectedPolynomialLow();
    ReflectedPolynomialHigh();
    HexesOf(REFLECTED_POLYNOMIAL);
  }

  lemma HexesOf(p: uint32)
    requires LowDigits(p, 0, 2, 3, 8) && HighDigits(p, 8, 0xb, 0xd, 0xe)
    ensures HexAt(p, 0) == X0 && HexAt(p, 4) == X2 && HexAt(p, 8) == X3 && HexAt(p, 12) == X8
    ensures HexAt(p, 16) == X8 && HexAt(p, 20) == XB && HexAt(p, 24) == XD && HexAt(p, 28) == XE
  {
    DigitIs(p, 0, X0);
    DigitIs(p, 4, X2);
    DigitIs(p, 8, X3);
    DigitIs(p, 12, X8);
    DigitIs(p, 16, X8);
    DigitIs(p, 20, XB);
    DigitIs(p, 24, XD);
    DigitIs(p, 28, XE);
  }

  lemma StepAt(c: uint32, k: nat)
    requires k <= 28
    ensures HexAt(Step(c), k) == Down(HexAt(c, k), k < 28 && c[k + 4], c[0], HexAt(REFLECTED_POLYNOMIAL, k))
  {}

  lemma StepIs(c: uint32)
    ensures Of(Step(c)) == StepHex(Of(c))
  {
    PolynomialHex();
    StepAt(c, 0);
    StepAt(c, 4);
    StepAt(c, 8);
    StepAt(c, 12);
    StepAt(c, 16);
    StepAt(c, 20);
    StepAt(c, 24);
    StepAt(c, 28);
  }

  lemma {:induction false} StepsAre(c: uint32, n: nat)
    ensures Of(Steps(c, n)) == StepsHex(Of(c), n)
    decreases n
  {
    if n > 0 {
      StepIs(c);
      StepsAre(Step(c), n - 1);
    }
  }

  lemma MixedAt(c: uint32, bits: seq<bool>, k: nat)
    requires |bits| == 8 && k <= 28
    ensures k >= 8 ==> HexAt(Xor(c, Extend(bits)), k) == HexAt(c, k)
    ensures k <= 4 ==>
              HexAt(Xor(c, Extend(bits)), k) == Mix(HexAt(c, k), Hex(bits[k], bits[k + 1], bits[k + 2], bits[k + 3]))
  {}

  lemma MixedIs(c: uint32, bits: seq<bool>, low: Hex, high: Hex)
    requires |bits| == 8 && low == Hex(bits[0], bits[1], bits[2], bits[3]) && high == Hex(bits[4], bits[5], bits[6], bits[7])
    ensures Of(Xor(c, Extend(bits))) == Of(c).(h0 := Mix(HexAt(c, 0), low), h1 := Mix(HexAt(c, 4), high))
  {
    MixedAt(c, bits, 0);
    MixedAt(c, bits, 4);
    MixedAt(c, bits, 8);
    MixedAt(c, bits, 12);
    MixedAt(c, bits, 16);
    MixedAt(c, bits, 20);
    MixedAt(c, bits, 24);
    MixedAt(c, bits, 28);
  }

  lemma FourBits(bits: seq<bool>, k: nat)
    requires k + 4 <= |bits|
    ensures Value(bits[k..]) == Num(Hex(bits[k], bits[k + 1], bits[k + 2], bits[k + 3])) + 16 * Value(bits[k + 4..])
  {
    OneBit(bits, k);
    OneBit(bits, k + 1);
    OneBit(bits, k + 2);
    OneBit(bits, k + 3);
  }

  lemma OneBit(bits: seq<bool>, k: nat)
    requires k < |bits|
    ensures Value(bits[k..]) == (if bits[k] then 1 else 0) + 2 * Value(bits[k + 1..])
  {
    assert bits[k..] == [bits[k]] + bits[k + 1..];
    ValueOfBit(bits[k], bits[k + 1..]);
  }

  /** The two digits of a byte. */
  lemma ByteHexes(b: byte, bits: seq<bool>)
    requires bits == ByteBits(b)
    ensures b as nat == Num(Hex(bits[0], bits[1], bits[2], bits[3])) + 16 * Num(Hex(bits[4], bits[5], bits[6], bits[7]))
  {
    PowerOfEight();
    ValueBits(b as nat, 8);
    assert bits[0..] == bits && bits[8..] == [];
    FourBits(bits, 0);
    FourBits(bits, 4);
  }

  lemma SameDigits(a: Hex, b: Hex, c: Hex, d: Hex)
    requires Num(a) + 16 * Num(b) == Num(c) + 16 * Num(d)
    ensures a == c && b == d
  {
    assert Num(a) == Num(c) && Num(b) == Num(d);
  }

  lemma FeedByteIs(c: uint32, b: byte, low: Hex, high: Hex)
    requires b as nat == Num(low) + 16 * Num(high)
    ensures Of(Feed(c, ByteBits(b))) == FeedByte(Of(c), low, high)
  {
    var bits := ByteBits(b);
    ByteHexes(b, bits);
    SameDigits(low, high, Hex(bits[0], bits[1], bits[2], bits[3]), Hex(bits[4], bits[5], bits[6], bits[7]));
    FeedIsSteps(c, bits);
    MixedIs(c, bits, low, high);
    StepsAre(Xor(c, Extend(bits)), 8);
  }

  lemma OfValue(c: uint32, r: Register)
    requires Of(c) == r
    ensures Value(c) == Num(r.h0) + 0x10 * Num(r.h1) + 0x100 * Num(r.h2) + 0x1000 * Num(r.h3)
                        + 0x10000 * Num(r.h4) + 0x100000 * Num(r.h5) + 0x1000000 * Num(r.h6) + 0x10000000 * Num(r.h7)
  {
    HexValue(c);
    DigitIs(c, 0, r.h0);
    DigitIs(c, 4, r.h1);
    DigitIs(c, 8, r.h2);
    DigitIs(c, 12, r.h3);
    DigitIs(c, 16, r.h4);
    DigitIs(c, 20, r.h5);
    DigitIs(c, 24, r.h6);
    DigitIs(c, 28, r.h7);
  }

  // ---------- the checksum of nothing ----------

  lemma CrcOfNothing()
    ensures Crc([]) == ZERO
  {
    assert Feed(ALL_ONES, MessageBits([])) == ALL_ONES;
    assert Xor(ALL_ONES, ALL_ONES) == ZERO;
  }

  // ---------- the checksum of the nine digits ----------

  /** "1", "12", and so on, in ASCII. */
  function Digits(k: nat): (text: seq<byte>)
    requires k <= 9
    ensures |text| == k && forall i :: 0 <= i < k ==> text[i] as int == 0x31 + i
  {
    if k == 0 then [] else Digits(k - 1) + [(0x30 + k) as byte]
  }

  lemma {:induction false} MessageBitsConcat(a: seq<byte>, b: seq<byte>)
    ensures MessageBits(a + b) == MessageBits(a) + MessageBits(b)
  {
    if a == [] {
      assert a + b == b;
    } else {
      assert (a + b)[1..] == a[1..] + b;
      MessageBitsConcat(a[1..], b);
    }
  }

  lemma FeedSnoc(c: uint32, m: seq<byte>, b: byte)
    ensures Feed(c, MessageBits(m + [b])) == Feed(Feed(c, MessageBits(m)), ByteBits(b))
  {
    MessageBitsConcat(m, [b]);
    assert [b][1..] == [];
    assert MessageBits([b]) == ByteBits(b) + [] == ByteBits(b);
    FeedConcat(c, MessageBits(m), ByteBits(b));
  }

  function Fed(k: nat): Register
    requires k <= 9
  {
    Of(Feed(ALL_ONES, MessageBits(Digits(k))))
  }

  lemma NextDigit(k: nat, low: Hex, before: Register)
    requires k < 9 && Num(low) == k + 1 && Fed(k) == before
    ensures Fed(k + 1) == FeedByte(before, low, X3)
  {
    var b: byte := (0x31 + k) as byte;
    assert Digits(k + 1) == Digits(k) + [b];
    FeedSnoc(ALL_ONES, Digits(k), b);
    FeedByteIs(Feed(ALL_ONES, MessageBits(Digits(k))), b, low, X3);
  }

  const AFTER_0: Register := Register(XF, XF, XF, XF, XF, XF, XF, XF)
  const AFTER_1: Register := Register(X8, X4, X0, X1, X3, X2, XC, X7)
  const AFTER_2: Register := Register(X2, X3, XB, XB, XC, XA, X0, XB)
  const AFTER_3: Register := Register(XD, X2, XC, X9, X7, XB, X7, X7)
  const AFTER_4: Register := Register(XC, X5, XF, X1, XC, X1, X4, X6)
  const AFTER_5: Register := Register(X3, XE, X5, XC, XA, X0, X4, X3)
  const AFTER_6: Register := Register(XE, X9, XC, X2, XD, X8, X6, XF)
  const AFTER_7: Register := Register(X0, X6, X6, X9, XC, XF, XF, XA)
  const AFTER_8: Register := Register(X0, X5, X5, X2, XF, X1, X5, X6)
  const AFTER_9: Register := Register(X9, XD, X6, XC, XB, X0, X4, X3)

  lemma FourAndFour(r: Register, middle: Register, end: Register)
    requires StepsHex(r, 4) == middle && StepsHex(middle, 4) == end
    ensures StepsHex(r, 8) == end
  {
    StepsHexConcat(r, 4, 4);
  }

  lemma {:induction false} StepsHexConcat(r: Register, m: nat, n: nat)
    ensures StepsHex(r, m + n) == StepsHex(StepsHex(r, m), n)
    decreases m
  {
    if m > 0 {
      StepsHexConcat(StepHex(r), m - 1, n);
    }
  }

  lemma Byte1()
    ensures FeedByte(AFTER_0, X1, X3) == AFTER_1
  {
    FourAndFour(Register(XE, XC, XF, XF, XF, XF, XF, XF), Register(X4, X8, XD, X1, X5, XF, XF, XA), AFTER_1);
  }

  lemma Byte2()
    ensures FeedByte(AFTER_1, X2, X3) == AFTER_2
  {
    FourAndFour(Register(XA, X7, X0, X1, X3, X2, XC, X7), Register(XF, XE, X2, X9, X4, X1, X1, XD), AFTER_2);
  }

  lemma Byte3()
    ensures FeedByte(AFTER_2, X3, X3) == AFTER_3
  {
    FourAndFour(Register(X1, X0, XB, XB, XC, XA, X0, XB), Register(X4, XD, XB, XD, XD, XB, X6, X1), AFTER_3);
  }

  lemma Byte4()
    ensures FeedByte(AFTER_3, X4, X3) == AFTER_4
  {
    FourAndFour(Register(X9, X1, XC, X9, X7, XB, X7, X7), Register(X5, X8, XA, XE, X4, X7, X7, XF), AFTER_4);
  }

  lemma Byte5()
    ensures FeedByte(AFTER_4, X5, X3) == AFTER_5
  {
    FourAndFour(Register(X9, X6, XF, X1, XC, X1, X4, X6), Register(X2, XB, X2, X5, XE, X4, X6, XF), AFTER_5);
  }

  lemma Byte6()
    ensures FeedByte(AFTER_5, X6, X3) == AFTER_6
  {
    FourAndFour(Register(X5, XD, X5, XC, XA, X0, X4, X3), Register(X9, XA, XD, XF, XB, X2, X8, X6), AFTER_6);
  }

  lemma Byte7()
    ensures FeedByte(AFTER_6, X7, X3) == AFTER_7
  {
    FourAndFour(Register(X9, XA, XC, X2, XD, X8, X6, XF), Register(XE, X8, X1, X4, X7, X6, XF, XF), AFTER_7);
  }

  lemma Byte8()
    ensures FeedByte(AFTER_7, X8, X3) == AFTER_8
  {
    FourAndFour(Register(X8, X5, X6, X9, XC, XF, XF, XA), Register(X5, X4, XA, X4, X7, X4, X7, XE), AFTER_8);
  }

  lemma Byte9()
    ensures FeedByte(AFTER_8, X9, X3) == AFTER_9
  {
    FourAndFour(Register(X9, X6, X5, X2, XF, X1, X5, X6), Register(X2, X1, X1, X6, XE, X5, X6, XF), AFTER_9);
  }

  lemma FirstThree()
    ensures Fed(3) == AFTER_3
  {
    assert Fed(0) == AFTER_0;
    Byte1();
    NextDigit(0, X1, AFTER_0);
    Byte2();
    NextDigit(1, X2, AFTER_1);
    Byte3();
    NextDigit(2, X3, AFTER_2);
  }

  lemma NextThree()
    ensures Fed(6) == AFTER_6
  {
    FirstThree();
    Byte4();
    NextDigit(3, X4, AFTER_3);
    Byte5();
    NextDigit(4, X5, AFTER_4);
    Byte6();
    NextDigit(5, X6, AFTER_5);
  }

  lemma LastThree()
    ensures Fed(9) == AFTER_9
  {
    NextThree();
    Byte7();
    NextDigit(6, X7, AFTER_6);
    Byte8();
    NextDigit(7, X8, AFTER_7);
    Byte9();
    NextDigit(8, X9, AFTER_8);
  }

  lemma InvertedAt(c: uint32, k: nat)
    requires k <= 28
    ensures HexAt(Xor(c, ALL_ONES), k) == Mix(HexAt(c, k), XF)
  {}

  lemma InvertedIs(c: uint32)
    ensures var r, s := Of(c), Of(Xor(c, ALL_ONES));
            && s.h0 == Mix(r.h0, XF) && s.h1 == Mix(r.h1, XF) && s.h2 == Mix(r.h2, XF) && s.h3 == Mix(r.h3, XF)
            && s.h4 == Mix(r.h4, XF) && s.h5 == Mix(r.h5, XF) && s.h6 == Mix(r.h6, XF) && s.h7 == Mix(r.h7, XF)
  {
    InvertedAt(c, 0);
    InvertedAt(c, 4);
    InvertedAt(c, 8);
    InvertedAt(c, 12);
    InvertedAt(c, 16);
    InvertedAt(c, 20);
    InvertedAt(c, 24);
    InvertedAt(c, 28);
  }

  /** The check value by which CRC-32 is known. */
  lemma CheckValue()
    ensures Value(Crc([0x31, 0x32, 0x33, 0x34, 0x35, 0x36, 0x37, 0x38, 0x39])) == 0xcbf43926
  {
    assert [0x31, 0x32, 0x33, 0x34, 0x35, 0x36, 0x37, 0x38, 0x39] == Digits(9);
    LastThree();
    InvertedIs(Feed(ALL_ONES, MessageBits(Digits(9))));
    OfValue(Crc(Digits(9)), Register(X6, X2, X9, X3, X4, XF, XB, XC));
  }

  // ---------- a message and its checksum ----------

  /** The four bytes of a word, the lowest first. */
  function LowFirst(w: uint32): seq<byte> {
    [ByteOf(w[..8]), ByteOf(w[8..16]), ByteOf(w[16..24]), ByteOf(w[24..])]
  }

  lemma FirstByte(b: byte, rest: seq<byte>)
    ensures MessageBits([b] + rest) == ByteBits(b) + MessageBits(rest)
  {
    assert ([b] + rest)[1..] == rest;
  }

  lemma FourBytes(a: byte, b: byte, c: byte, d: byte)
    ensures MessageBits([a, b, c, d]) == ByteBits(a) + (ByteBits(b) + (ByteBits(c) + ByteBits(d)))
  {
    FirstByte(a, [b, c, d]);
    FirstByte(b, [c, d]);
    FirstByte(c, [d]);
    FirstByte(d, []);
    assert [a, b, c, d] == [a] + [b, c, d] && [b, c, d] == [b] + [c, d] && [c, d] == [c] + [d] && [d] == [d] + [];
    assert ByteBits(d) + [] == ByteBits(d);
  }

  lemma FourParts(w: seq<bool>, a: seq<bool>, b: seq<bool>, c: seq<bool>, d: seq<bool>)
    requires |w| == 32 && a == w[..8] && b == w[8..16] && c == w[16..24] && d == w[24..]
    ensures a + (b + (c + d)) == w
  {}

  lemma LowFirstBits(w: uint32)
    ensures MessageBits(LowFirst(w)) == w
  {
    FourParts(w, w[..8], w[8..16], w[16..24], w[24..]);
    ByteOfBits(w[..8]);
    ByteOfBits(w[8..16]);
    ByteOfBits(w[16..24]);
    ByteOfBits(w[24..]);
    FourBytes(ByteOf(w[..8]), ByteOf(w[8..16]), ByteOf(w[16..24]), ByteOf(w[24..]));
  }

  lemma {:induction false} StepsConcat(c: uint32, m: nat, n: nat)
    ensures Steps(c, m + n) == Steps(Steps(c, m), n)
    decreases m
  {
    if m > 0 {
      StepsConcat(Step(c), m - 1, n);
    }
  }

  lemma Ones8()
    ensures StepsHex(Register(XF, XF, XF, XF, XF, XF, XF, XF), 8) == Register(X2, X7, X0, X1, XD, XF, XD, X2)
  {}

  lemma Ones16()
    ensures StepsHex(Register(X2, X7, X0, X1, XD, XF, XD, X2), 8) == Register(X0, X0, XD, XE, X6, X2, XE, XB)
  {}

  lemma Ones24()
    ensures StepsHex(Register(X0, X0, XD, XE, X6, X2, XE, XB), 8) == Register(XD, XE, X6, X2, XE, XB, X0, X0)
  {}

  lemma Ones32()
    ensures StepsHex(Register(XD, XE, X6, X2, XE, XB, X0, X0), 8) == Register(X3, XE, X0, X2, XB, XB, XE, XD)
  {}

  lemma EightMore(c: uint32, n: nat, r: Register)
    requires Of(Steps(c, n)) == r
    ensures Of(Steps(c, n + 8)) == StepsHex(r, 8)
  {
    StepsConcat(c, n, 8);
    StepsAre(Steps(c, n), 8);
  }

  lemma OnesStepped()
    ensures Of(Steps(ALL_ONES, 32)) == Register(X3, XE, X0, X2, XB, XB, XE, XD)
  {
    Ones8();
    EightMore(ALL_ONES, 0, Register(XF, XF, XF, XF, XF, XF, XF, XF));
    Ones16();
    EightMore(ALL_ONES, 8, Register(X2, X7, X0, X1, XD, XF, XD, X2));
    Ones24();
    EightMore(ALL_ONES, 16, Register(X0, X0, XD, XE, X6, X2, XE, XB));
    Ones32();
    EightMore(ALL_ONES, 24, Register(XD, XE, X6, X2, XE, XB, X0, X0));
  }

  lemma OnesValue()
    ensures Value(Steps(ALL_ONES, 32)) == 0xdebb20e3
  {
    OnesStepped();
    OfValue(Steps(ALL_ONES, 32), Register(X3, XE, X0, X2, XB, XB, XE, XD));
  }

  lemma Inverted(c: uint32)
    ensures Xor(c, Xor(c, ALL_ONES)) == ALL_ONES
  {}

  /** Whatever the message: with its checksum behind it, low byte first, it leaves the register at one and the same value,
      the residue of CRC-32. */
  lemma Residue(m: seq<byte>)
    ensures Value(Feed(ALL_ONES, MessageBits(m + LowFirst(Crc(m))))) == 0xdebb20e3
  {
    var c, crc := Feed(ALL_ONES, MessageBits(m)), Crc(m);
    MessageBitsConcat(m, LowFirst(crc));
    LowFirstBits(crc);
    FeedConcat(ALL_ONES, MessageBits(m), crc);
    FeedIsSteps(c, crc);
    assert Extend(crc) == crc;
    Inverted(c);
    OnesValue();
  }
}

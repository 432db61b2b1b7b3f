/** The CRC-32 calculator of misc/flyd_crc32.cc, against the bit-serial definition of RFC 1952, section 8. */
module Crc32 {
  import opened Words

  /** The word with these bits set. */
  function WithBits(places: set<int>): uint32 { seq(32, i requires 0 <= i < 32 => i in places) }

  /** 0x04c11db7: its bits are the exponents of the polynomial below 32. */
  const POLYNOMIAL: uint32 := WithBits({0, 1, 2, 4, 5, 7, 8, 10, 11, 12, 16, 22, 23, 26})

  /** 0xedb88320 */
  const REFLECTED_POLYNOMIAL: uint32 := WithBits({31, 30, 29, 27, 26, 24, 23, 21, 20, 19, 15, 9, 8, 5})

  // ---------- the definition: one register step for each message bit ----------

  function Step(c: uint32): uint32 {
    if c[0] then Xor(REFLECTED_POLYNOMIAL, Shr(c, 1)) else Shr(c, 1)
  }

  function Iterate(f: uint32 -> uint32, c: uint32, n: nat): uint32
    decreases n
  {
    if n == 0 then c else Iterate(f, f(c), n - 1)
  }

  function Steps(c: uint32, n: nat): uint32 { Iterate(Step, c, n) }

  /** The register after shifting in `bits`, first bit first. */
  function Feed(c: uint32, bits: seq<bool>): uint32
    decreases bits
  {
    if bits == [] then c else Feed(Step(Xor(c, Extend(bits[..1]))), bits[1..])
  }

  function MessageBits(message: seq<byte>): (bits: seq<bool>)
    ensures |bits| == 8 * |message|
  {
    if message == [] then [] else ByteBits(message[0]) + MessageBits(message[1..])
  }

  function Crc(message: seq<byte>): uint32 {
    Xor(Feed(ALL_ONES, MessageBits(message)), ALL_ONES)
  }

  // ---------- the constants ----------

  lemma BitAt(p: uint32, k: nat)
    requires k < 32
    ensures Value(p[k..]) == (if p[k] then 1 else 0) + 2 * Value(p[k + 1..])
  {
    assert p[k..] == [p[k]] + p[k + 1..];
    ValueOfBit(p[k], p[k + 1..]);
  }

  function Digit(p: uint32, k: nat): nat
    requires k <= 28
  {
    (if p[k] then 1 else 0) + (if p[k + 1] then 2 else 0) + (if p[k + 2] then 4 else 0) + (if p[k + 3] then 8 else 0)
  }

  lemma DigitAt(p: uint32, k: nat)
    requires k <= 28
    ensures Value(p[k..]) == Digit(p, k) + 16 * Value(p[k + 4..])
  {
    BitAt(p, k);
    BitAt(p, k + 1);
    BitAt(p, k + 2);
    BitAt(p, k + 3);
  }

  /** The value of a word, from its eight hexadecimal digits. */
  lemma HexValue(p: uint32)
    ensures Value(p) == Digit(p, 0) + 0x10 * Digit(p, 4) + 0x100 * Digit(p, 8) + 0x1000 * Digit(p, 12)
                        + 0x10000 * Digit(p, 16) + 0x100000 * Digit(p, 20) + 0x1000000 * Digit(p, 24) + 0x10000000 * Digit(p, 28)
  {
    DigitAt(p, 0);
    DigitAt(p, 4);
    DigitAt(p, 8);
    DigitAt(p, 12);
    DigitAt(p, 16);
    DigitAt(p, 20);
    DigitAt(p, 24);
    DigitAt(p, 28);
    assert p[0..] == p;
  }

  predicate LowDigits(p: uint32, d0: nat, d4: nat, d8: nat, d12: nat) {
    Digit(p, 0) == d0 && Digit(p, 4) == d4 && Digit(p, 8) == d8 && Digit(p, 12) == d12
  }

  predicate HighDigits(p: uint32, d16: nat, d20: nat, d24: nat, d28: nat) {
    Digit(p, 16) == d16 && Digit(p, 20) == d20 && Digit(p, 24) == d24 && Digit(p, 28) == d28
  }

  lemma KnownDigits(p: uint32, q: uint32)
    requires LowDigits(p, 7, 0xb, 0xd, 1) && HighDigits(p, 1, 0xc, 4, 0)
    requires LowDigits(q, 0, 2, 3, 8) && HighDigits(q, 8, 0xb, 0xd, 0xe)
    ensures Value(p) == 0x04c11db7 && Value(q) == 0xedb88320
  {
    HexValue(p);
    HexValue(q);
  }

  lemma PolynomialLow()
    ensures LowDigits(POLYNOMIAL, 7, 0xb, 0xd, 1)
  {}

  lemma PolynomialHigh()
    ensures HighDigits(POLYNOMIAL, 1, 0xc, 4, 0)
  {}

  lemma ReflectedPolynomialLow()
    ensures LowDigits(REFLECTED_POLYNOMIAL, 0, 2, 3, 8)
  {}

  lemma ReflectedPolynomialHigh()
    ensures HighDigits(REFLECTED_POLYNOMIAL, 8, 0xb, 0xd, 0xe)
  {}

  /** The two words are the constants of the source and of RFC 1952. */
  lemma Constants()
    ensures Value(POLYNOMIAL) == 0x04c11db7 && Value(REFLECTED_POLYNOMIAL) == 0xedb88320
  {
    PolynomialLow();
    PolynomialHigh();
    ReflectedPolynomialLow();
    ReflectedPolynomialHigh();
    KnownDigits(POLYNOMIAL, REFLECTED_POLYNOMIAL);
  }

  lemma PolynomialReflects()
    ensures Mirror(POLYNOMIAL, 32) == REFLECTED_POLYNOMIAL
    ensures REFLECTED_POLYNOMIAL[31]
  {}

  // ---------- reflection ----------

  /** The `ch` low bits of `x` in the opposite order. */
  function Mirror(x: uint32, ch: nat): uint32
    requires ch <= 32
  {
    seq(32, i requires 0 <= i < 32 => i < ch && x[ch - 1 - i])
  }

  predicate Fits(x: uint32, ch: nat) {
    forall i :: ch <= i < 32 ==> !x[i]
  }

  /** Reflecting twice gives the value back exactly when it fits in `ch` bits. */
  lemma MirrorInvolution(x: uint32, ch: nat)
    requires ch <= 32
    ensures Mirror(Mirror(x, ch), ch) == x <==> Fits(x, ch)
  {
    var y := Mirror(Mirror(x, ch), ch);
    forall i | 0 <= i < ch ensures y[i] == x[i] {}
    if y == x {
      forall i | ch <= i < 32 ensures !x[i] { assert !y[i]; }
    }
  }

  /** The table is built by left-shift steps on the unreflected polynomial. */
  function LeftStep(x: uint32): uint32 {
    Xor(Shl(x, 1), if x[31] then POLYNOMIAL else ZERO)
  }

  /** A left-shift step is a right-shift step seen in the mirror. */
  lemma LeftStepMirrored(x: uint32)
    ensures Mirror(LeftStep(x), 32) == Step(Mirror(x, 32))
  {
    PolynomialReflects();
    var l, r := Mirror(LeftStep(x), 32), Step(Mirror(x, 32));
    forall i | 0 <= i < 32 ensures l[i] == r[i] {
      assert Mirror(POLYNOMIAL, 32)[i] == POLYNOMIAL[31 - i];
    }
  }

  lemma InnerStep(x: uint32, n: nat, target: uint32)
    requires n > 0 && Steps(Mirror(x, 32), n) == target
    ensures Steps(Mirror(LeftStep(x), 32), n - 1) == target
  {
    LeftStepMirrored(x);
  }

  // ---------- the table class ----------

  class CCRC32 {
    const crc32_table: array<uint32>

    ghost predicate Valid()
      reads this, crc32_table
    {
      crc32_table.Length == 256 &&
      forall i :: 0 <= i < 256 ==> crc32_table[i] == Steps(Word(i), 8)
    }

    constructor ()
      ensures Valid() && fresh(crc32_table)
    {
      crc32_table := new uint32[256](_ => ZERO);
      new;
      Init_CRC32_Table();
    }

    method Reflect(ref: uint32, ch: nat) returns (value: uint32)
      requires ch <= 32
      ensures value == Mirror(ref, ch)
    {
      value := ZERO;
      var r := ref;
      for i := 1 to ch + 1
        invariant r == Shr(ref, i - 1)
        invariant forall j :: 0 <= j < 32 ==> value[j] == (ch - i < j < ch && ref[ch - 1 - j])
      {
        if r[0] {
          value := Or(value, Shl(LowOnes(1), ch - i));
        }
        r := Shr(r, 1);
      }
    }

    method Init_CRC32_Table()
      requires crc32_table.Length == 256
      modifies crc32_table
      ensures Valid()
    {
      for i := 0 to 256
        invariant forall k :: 0 <= k < i ==> crc32_table[k] == Steps(Word(k), 8)
      {
        FillEntry(i, 8);
      }
    }

    /** The inner loop of the table construction, for one entry. */
    method FillEntry(i: nat, rounds: nat)
      requires crc32_table.Length == 256 && i < 256
      modifies crc32_table
      ensures forall k :: 0 <= k < 256 && k != i ==> crc32_table[k] == old(crc32_table[k])
      ensures crc32_table[i] == Steps(Word(i), rounds)
    {
      var r := Reflect(Word(i), 8);
      crc32_table[i] := Shl(r, 24);
      ByteWord(i);
      for j := 0 to rounds
        invariant Steps(Mirror(crc32_table[i], 32), rounds - j) == Steps(Word(i), rounds)
        invariant forall k :: 0 <= k < 256 && k != i ==> crc32_table[k] == old(crc32_table[k])
      {
        InnerStep(crc32_table[i], rounds - j, Steps(Word(i), rounds));
        crc32_table[i] := LeftStep(crc32_table[i]);
      }
      r := Reflect(crc32_table[i], 32);
      crc32_table[i] := r;
    }

    method Get_CRC(buffer: seq<byte>) returns (value: uint32)
      requires Valid()
      requires |buffer| < 0x8000_0000
      ensures value == Crc(buffer)
    {
      var crc := ALL_ONES;
      var len := |buffer|;
      while len != 0
        invariant 0 <= len <= |buffer|
        invariant Feed(crc, MessageBits(buffer[|buffer| - len..])) == Feed(ALL_ONES, MessageBits(buffer))
      {
        var rest := buffer[|buffer| - len..];
        var b := rest[0];
        var index := Xor(And(crc, LowOnes(8)), Extend(ByteBits(b)));
        TableIndex(crc, b);
        TableStep(crc, b, MessageBits(rest[1..]));
        len := len - 1;
        assert rest[1..] == buffer[|buffer| - len..];
        crc := Xor(Shr(crc, 8), crc32_table[Value(index)]);
      }
      assert buffer[|buffer| - 0..] == [];
      value := Xor(crc, ALL_ONES);
    }
  }

  lemma {:induction false} ZeroBits(width: nat)
    ensures forall i :: 0 <= i < width ==> !Bits(0, width)[i]
  {
    if width > 0 {
      ZeroBits(width - 1);
    }
  }

  lemma {:induction false} SmallBits(n: nat, k: nat, width: nat)
    requires k <= width && n < Pow2(k)
    ensures forall i :: k <= i < width ==> !Bits(n, width)[i]
  {
    if k == 0 {
      ZeroBits(width);
    } else {
      SmallBits(n / 2, k - 1, width - 1);
    }
  }

  lemma ByteWord(i: nat)
    requires i < 256
    ensures Mirror(Shl(Mirror(Word(i), 8), 24), 32) == Word(i)
  {
    PowerOfEight();
    SmallBits(i, 8, 32);
    var l := Mirror(Shl(Mirror(Word(i), 8), 24), 32);
    forall j | 0 <= j < 32 ensures l[j] == Word(i)[j] {}
  }

  // ---------- the table-driven step ----------

  lemma XorSteps(a: uint32, b: uint32)
    ensures Step(Xor(a, b)) == Xor(Step(a), Step(b))
  {}

  lemma {:induction false} IterateXor(f: uint32 -> uint32, a: uint32, b: uint32, n: nat)
    requires forall x, y :: f(Xor(x, y)) == Xor(f(x), f(y))
    ensures Iterate(f, Xor(a, b), n) == Xor(Iterate(f, a, n), Iterate(f, b, n))
    decreases n
  {
    if n > 0 {
      IterateXor(f, f(a), f(b), n - 1);
      assert f(Xor(a, b)) == Xor(f(a), f(b));
    }
  }

  lemma StepsXor(a: uint32, b: uint32, n: nat)
    ensures Steps(Xor(a, b), n) == Xor(Steps(a, n), Steps(b, n))
  {
    forall x: uint32, y: uint32 ensures Step(Xor(x, y)) == Xor(Step(x), Step(y)) { XorSteps(x, y); }
    IterateXor(Step, a, b, n);
  }

  /** As long as only zeros leave the register, stepping is plain shifting. */
  lemma {:induction false} StepsShift(c: uint32, n: nat)
    requires n <= 32 && forall i :: 0 <= i < n ==> !c[i]
    ensures Steps(c, n) == Shr(c, n)
    decreases n
  {
    if n > 0 {
      StepsShift(Step(c), n - 1);
      assert Shr(Shr(c, 1), n - 1) == Shr(c, n);
    } else {
      assert Shr(c, 0) == c;
    }
  }

  /** Shifting in up to 32 bits is adding them all first and then stepping. */
  lemma {:induction false} FeedIsSteps(c: uint32, bits: seq<bool>)
    requires |bits| <= 32
    ensures Feed(c, bits) == Steps(Xor(c, Extend(bits)), |bits|)
    decreases bits
  {
    if bits == [] {
      assert Xor(c, Extend(bits)) == c;
    } else {
      var first, rest := Extend(bits[..1]), bits[1..];
      var later := Shl(Extend(rest), 1);
      assert Step(later) == Extend(rest);
      assert Xor(c, Extend(bits)) == Xor(Xor(c, first), later);
      XorSteps(Xor(c, first), later);
      FeedIsSteps(Step(Xor(c, first)), rest);
    }
  }

  lemma {:induction false} FeedConcat(c: uint32, a: seq<bool>, b: seq<bool>)
    ensures Feed(c, a + b) == Feed(Feed(c, a), b)
    decreases a
  {
    if a == [] {
      assert a + b == b;
    } else {
      assert (a + b)[..1] == a[..1] && (a + b)[1..] == a[1..] + b;
      FeedConcat(Step(Xor(c, Extend(a[..1]))), a[1..], b);
    }
  }

  function LowByte(crc: uint32, b: byte): (bits: seq<bool>)
    ensures |bits| == 8
  {
    seq(8, i requires 0 <= i < 8 => crc[i] != ByteBits(b)[i])
  }

  lemma TableIndex(crc: uint32, b: byte)
    ensures Xor(And(crc, LowOnes(8)), Extend(ByteBits(b))) == Extend(LowByte(crc, b))
    ensures Value(Extend(LowByte(crc, b))) < 256
    ensures Word(Value(Extend(LowByte(crc, b)))) == Extend(LowByte(crc, b))
  {
    var low := Extend(LowByte(crc, b));
    ValueOfLow(low, 8);
    PowerOfEight();
    BitsValue(low);
  }

  /** One table lookup shifts in a whole byte. */
  lemma TableStep(crc: uint32, b: byte, rest: seq<bool>)
    ensures Feed(crc, ByteBits(b) + rest) == Feed(Xor(Shr(crc, 8), Steps(Extend(LowByte(crc, b)), 8)), rest)
  {
    FeedConcat(crc, ByteBits(b), rest);
    FeedIsSteps(crc, ByteBits(b));
    var high: uint32 := seq(32, i requires 0 <= i < 32 => i >= 8 && crc[i]);
    var low := Extend(LowByte(crc, b));
    assert Xor(crc, Extend(ByteBits(b))) == Xor(high, low);
    StepsXor(high, low, 8);
    StepsShift(high, 8);
    assert Shr(high, 8) == Shr(crc, 8);
  }

  // ---------- error detection ----------

  /** No two registers step to the same value. */
  lemma StepInjective(a: uint32, b: uint32)
    requires Step(a) == Step(b)
    ensures a == b
  {
    PolynomialReflects();
    assert Step(a)[31] == a[0] && Step(b)[31] == b[0];
    forall i | 0 <= i < 32 ensures a[i] == b[i] {
      if i > 0 { assert Step(a)[i - 1] == Step(b)[i - 1]; }
    }
  }

  lemma {:induction false} IterateInjective(f: uint32 -> uint32, a: uint32, b: uint32, n: nat)
    requires forall x, y :: f(x) == f(y) ==> x == y
    requires Iterate(f, a, n) == Iterate(f, b, n)
    ensures a == b
    decreases n
  {
    if n > 0 {
      IterateInjective(f, f(a), f(b), n - 1);
    }
  }

  lemma StepsInjective(a: uint32, b: uint32, n: nat)
    requires Steps(a, n) == Steps(b, n)
    ensures a == b
  {
    forall x: uint32, y: uint32 | Step(x) == Step(y) ensures x == y { StepInjective(x, y); }
    IterateInjective(Step, a, b, n);
  }

  lemma XorCancel(a: uint32, b: uint32, x: uint32)
    requires Xor(a, x) == Xor(b, x)
    ensures a == b
  {
    forall i | 0 <= i < 32 ensures a[i] == b[i] {
      assert Xor(a, x)[i] == Xor(b, x)[i];
    }
  }

  /** Different registers stay different whatever is shifted in afterwards. */
  lemma {:induction false} FeedInjective(a: uint32, b: uint32, bits: seq<bool>)
    requires Feed(a, bits) == Feed(b, bits)
    ensures a == b
    decreases bits
  {
    if bits != [] {
      var x := Extend(bits[..1]);
      FeedInjective(Step(Xor(a, x)), Step(Xor(b, x)), bits[1..]);
      StepInjective(Xor(a, x), Xor(b, x));
      XorCancel(a, b, x);
    }
  }

  /** Two different windows of at most 32 bits leave different registers. */
  lemma WindowDetected(c: uint32, a: seq<bool>, b: seq<bool>)
    requires |a| == |b| <= 32 && Feed(c, a) == Feed(c, b)
    ensures a == b
  {
    FeedIsSteps(c, a);
    FeedIsSteps(c, b);
    StepsInjective(Xor(c, Extend(a)), Xor(c, Extend(b)), |a|);
    forall i | 0 <= i < |a| ensures a[i] == b[i] {
      assert Xor(c, Extend(a))[i] == Xor(c, Extend(b))[i];
    }
  }

  lemma {:induction false} MessageBitsInjective(a: seq<byte>, b: seq<byte>)
    requires |a| == |b| && MessageBits(a) == MessageBits(b)
    ensures a == b
  {
    if a != [] {
      var x, y := MessageBits(a), MessageBits(b);
      assert ByteBits(a[0]) == x[..8] == y[..8] == ByteBits(b[0]);
      assert MessageBits(a[1..]) == x[8..] == y[8..] == MessageBits(b[1..]);
      ByteBitsInjective(a[0], b[0]);
      MessageBitsInjective(a[1..], b[1..]);
    }
  }

  /** The bits of `a` and `b` differ at most inside the 32 positions from `k` on. */
  predicate BurstAt(a: seq<bool>, b: seq<bool>, k: nat)
    requires |a| == |b|
  {
    forall i :: 0 <= i < |a| && !(k <= i < k + 32) ==> a[i] == b[i]
  }

  lemma SplitSame(x: seq<bool>, y: seq<bool>, lo: nat, hi: nat)
    requires lo <= hi <= |x| == |y|
    requires forall i :: 0 <= i < |x| && !(lo <= i < hi) ==> x[i] == y[i]
    ensures x[..lo] == y[..lo] && x[hi..] == y[hi..]
    ensures x[lo..hi] == y[lo..hi] ==> x == y
  {
    assert x == x[..lo] + x[lo..hi] + x[hi..];
    assert y == y[..lo] + y[lo..hi] + y[hi..];
  }

  /** Bit strings that differ only inside a window of at most 32 bits leave different registers. */
  lemma BurstChangesRegister(c: uint32, x: seq<bool>, y: seq<bool>, lo: nat, hi: nat)
    requires lo <= hi <= |x| == |y| && hi <= lo + 32
    requires forall i :: 0 <= i < |x| && !(lo <= i < hi) ==> x[i] == y[i]
    requires Feed(c, x) == Feed(c, y)
    ensures x == y
  {
    SplitSame(x, y, lo, hi);
    SplitFeed(c, x, lo, hi);
    SplitFeed(c, y, lo, hi);
    var d := Feed(c, x[..lo]);
    FeedInjective(Feed(d, x[lo..hi]), Feed(d, y[lo..hi]), x[hi..]);
    WindowDetected(d, x[lo..hi], y[lo..hi]);
  }

  /** Every error burst of at most 32 bits changes the CRC, in a message of any length. */
  lemma BurstDetected(a: seq<byte>, b: seq<byte>, k: nat)
    requires |a| == |b| && a != b
    requires BurstAt(MessageBits(a), MessageBits(b), k)
    ensures Crc(a) != Crc(b)
  {
    if Crc(a) == Crc(b) {
      var x, y := MessageBits(a), MessageBits(b);
      var lo := if k < |x| then k else |x|;
      var hi := if k + 32 < |x| then k + 32 else |x|;
      XorCancel(Feed(ALL_ONES, x), Feed(ALL_ONES, y), ALL_ONES);
      BurstChangesRegister(ALL_ONES, x, y, lo, hi);
      MessageBitsInjective(a, b);
    }
  }

  lemma SplitFeed(c: uint32, x: seq<bool>, lo: nat, hi: nat)
    requires lo <= hi <= |x|
    ensures Feed(c, x) == Feed(Feed(Feed(c, x[..lo]), x[lo..hi]), x[hi..])
  {
    assert x == x[..lo] + (x[lo..hi] + x[hi..]);
    FeedConcat(c, x[..lo], x[lo..hi] + x[hi..]);
    FeedConcat(Feed(c, x[..lo]), x[lo..hi], x[hi..]);
  }

  function Difference(a: seq<bool>, b: seq<bool>): seq<bool>
    requires |a| == |b|
  {
    seq(|a|, i requires 0 <= i < |a| => a[i] != b[i])
  }

  lemma {:induction false} FeedLinear(c: uint32, d: uint32, a: seq<bool>, b: seq<bool>)
    requires |a| == |b|
    ensures Xor(Feed(c, a), Feed(d, b)) == Feed(Xor(c, d), Difference(a, b))
    decreases a
  {
    if a != [] {
      var x, y := Extend(a[..1]), Extend(b[..1]);
      var diff := Difference(a, b);
      assert diff[1..] == Difference(a[1..], b[1..]);
      assert Xor(Xor(c, x), Xor(d, y)) == Xor(Xor(c, d), Extend(diff[..1]));
      XorSteps(Xor(c, x), Xor(d, y));
      FeedLinear(Step(Xor(c, x)), Step(Xor(d, y)), a[1..], b[1..]);
    }
  }

  /** An error goes unnoticed exactly when its pattern drives a zero register to zero,
      whatever the message is. */
  lemma UndetectedErrors(a: seq<byte>, b: seq<byte>)
    requires |a| == |b|
    ensures Crc(a) == Crc(b) <==> Feed(ZERO, Difference(MessageBits(a), MessageBits(b))) == ZERO
  {
    var x, y := Feed(ALL_ONES, MessageBits(a)), Feed(ALL_ONES, MessageBits(b));
    FeedLinear(ALL_ONES, ALL_ONES, MessageBits(a), MessageBits(b));
    assert Xor(ALL_ONES, ALL_ONES) == ZERO;
    if Crc(a) == Crc(b) {
      XorCancel(x, y, ALL_ONES);
      assert Xor(x, y) == ZERO;
    }
    if Xor(x, y) == ZERO {
      forall i | 0 <= i < 32 ensures x[i] == y[i] { assert !Xor(x, y)[i]; }
      assert x == y;
    }
  }
}

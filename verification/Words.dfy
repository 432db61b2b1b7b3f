/** Machine words as explicit bit vectors, least significant bit first. */
module Words {

  newtype byte = x: int | 0 <= x < 256

  /** An `unsigned int`: exactly 32 bits. */
  type uint32 = w: seq<bool> | |w| == 32 witness seq(32, _ => false)

  const ZERO: uint32 := Filled(false)
  const ALL_ONES: uint32 := Filled(true)

  function Filled(b: bool): uint32 { seq(32, i requires 0 <= i < 32 => b) }

  function Xor(a: uint32, b: uint32): uint32 { seq(32, i requires 0 <= i < 32 => a[i] != b[i]) }

  function Or(a: uint32, b: uint32): uint32 { seq(32, i requires 0 <= i < 32 => a[i] || b[i]) }

  function And(a: uint32, b: uint32): uint32 { seq(32, i requires 0 <= i < 32 => a[i] && b[i]) }

  function Shr(a: uint32, k: nat): uint32 { seq(32, i requires 0 <= i < 32 => i + k < 32 && a[i + k]) }

  function Shl(a: uint32, k: nat): uint32 { seq(32, i requires 0 <= i < 32 => k <= i && a[i - k]) }

  /** `bits` in the low positions, zeros above. */
  function Extend(bits: seq<bool>): uint32
    requires |bits| <= 32
  {
    seq(32, i requires 0 <= i < 32 => i < |bits| && bits[i])
  }

  function Reverse(bits: seq<bool>): (r: seq<bool>)
    ensures |r| == |bits|
  {
    seq(|bits|, i requires 0 <= i < |bits| => bits[|bits| - 1 - i])
  }

  function Pow2(n: nat): nat { if n == 0 then 1 else 2 * Pow2(n - 1) }

  /** The low `width` bits of `n`. */
  function Bits(n: nat, width: nat): (bits: seq<bool>)
    ensures |bits| == width
  {
    if width == 0 then [] else [n % 2 == 1] + Bits(n / 2, width - 1)
  }

  function Value(bits: seq<bool>): (n: nat)
    ensures n < Pow2(|bits|)
  {
    if bits == [] then 0 else (if bits[0] then 1 else 0) + 2 * Value(bits[1..])
  }

  function Word(n: nat): uint32 { Bits(n, 32) }

  function ByteBits(b: byte): (bits: seq<bool>)
    ensures |bits| == 8
  {
    Bits(b as nat, 8)
  }

  lemma {:induction false} BitsValue(bits: seq<bool>)
    ensures Bits(Value(bits), |bits|) == bits
  {
    if bits != [] {
      BitsValue(bits[1..]);
    }
  }

  lemma {:induction false} ValueBits(n: nat, width: nat)
    requires n < Pow2(width)
    ensures Value(Bits(n, width)) == n
  {
    if width > 0 {
      ValueBits(n / 2, width - 1);
      assert Bits(n, width)[1..] == Bits(n / 2, width - 1);
    }
  }

  lemma PowerOfEight()
    ensures Pow2(8) == 256
  {
    assert Pow2(4) == 16;
  }

  function ByteOf(bits: seq<bool>): byte
    requires |bits| == 8
  {
    PowerOfEight();
    Value(bits) as byte
  }

  lemma ByteOfBits(bits: seq<bool>)
    requires |bits| == 8
    ensures ByteBits(ByteOf(bits)) == bits
  {
    BitsValue(bits);
  }

  lemma BitsOfByte(b: byte)
    ensures ByteOf(ByteBits(b)) == b
  {
    PowerOfEight();
    ValueBits(b as nat, 8);
  }

  lemma ByteBitsInjective(a: byte, b: byte)
    requires ByteBits(a) == ByteBits(b)
    ensures a == b
  {
    PowerOfEight();
    ValueBits(a as nat, 8);
    ValueBits(b as nat, 8);
  }

  /** Zeros above position `k` do not change the value. */
  lemma {:induction false} ValueOfLow(bits: seq<bool>, k: nat)
    requires k <= |bits| && forall i :: k <= i < |bits| ==> !bits[i]
    ensures Value(bits) == Value(bits[..k])
  {
    if k == 0 {
      if bits != [] {
        ValueOfLow(bits[1..], 0);
        assert bits[1..][..0] == [] == bits[..0];
      }
    } else {
      ValueOfLow(bits[1..], k - 1);
      assert bits[1..][..k - 1] == bits[..k][1..];
    }
  }

  /** Only the `k` lowest bits are set. */
  function LowOnes(k: nat): uint32 { seq(32, i requires 0 <= i < 32 => i < k) }

  lemma ValueOfBit(b: bool, rest: seq<bool>)
    ensures Value([b] + rest) == (if b then 1 else 0) + 2 * Value(rest)
  {
    assert ([b] + rest)[1..] == rest;
  }
}

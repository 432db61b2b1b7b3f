/** Printing integers into a fixed buffer: logging/LogStream.cc and logging/LogStream.h. */
module LogStream {
  import opened Integers

  const MAX_NUMERIC_SIZE := 32
  const DIGITS := "9876543210123456789"
  const DIGITS_HEX := "0123456789ABCDEF"

  // What the digits of a number are.

  predicate Base(base: int) { base == 10 || base == 16 }

  function DigitChar(d: int): char
    requires 0 <= d < 16
  {
    DIGITS_HEX[d]
  }

  function DigitValue(c: char): int {
    if '0' <= c <= '9' then c as int - '0' as int
    else if 'A' <= c <= 'F' then c as int - 'A' as int + 10
    else -1
  }

  /** Least significant digit first, as the conversions produce them. */
  function LowFirst(n: nat, base: int): (s: string)
    requires Base(base)
    ensures |s| >= 1
  {
    if n < base then [DigitChar(n)] else [DigitChar(n % base)] + LowFirst(n / base, base)
  }

  function Reversed<T>(s: seq<T>): (r: seq<T>)
    ensures |r| == |s|
    ensures forall i :: 0 <= i < |s| ==> r[i] == s[|s| - 1 - i]
  {
    if s == [] then [] else Reversed(s[1..]) + [s[0]]
  }

  /** As one writes it. */
  function Digits(n: nat, base: int): (s: string)
    requires Base(base)
    ensures |s| >= 1
  {
    if n < base then [DigitChar(n)] else Digits(n / base, base) + [DigitChar(n % base)]
  }

  function Abs(value: int): nat { if value < 0 then -value else value }

  function Decimal(value: int): string {
    if value < 0 then ['-'] + Digits(Abs(value), 10) else Digits(value, 10)
  }

  // Reading numbers back.

  predicate AllDigits(s: string, base: int) {
    forall i :: 0 <= i < |s| ==> 0 <= DigitValue(s[i]) < base
  }

  function ParseDigits(s: string, base: int): int {
    if s == [] then 0 else ParseDigits(s[..|s| - 1], base) * base + DigitValue(s[|s| - 1])
  }

  function ParseDecimal(s: string): int {
    if s != [] && s[0] == '-' then -ParseDigits(s[1..], 10) else ParseDigits(s, 10)
  }

  /** Digits only, at least one, and a zero in front only alone. */
  predicate Plain(s: string, base: int) {
    s != [] && AllDigits(s, base) && (|s| > 1 ==> s[0] != '0')
  }

  /** A sign only on what is not zero. */
  predicate PlainDecimal(s: string) {
    if s != [] && s[0] == '-' then Plain(s[1..], 10) && s != "-0" else Plain(s, 10)
  }

  lemma DigitsStep(n: nat, base: int)
    requires Base(base)
    ensures n < base ==> Digits(n, base) == [DigitChar(n)]
    ensures n >= base ==> Digits(n, base) == Digits(n / base, base) + [DigitChar(n % base)]
  {}

  lemma ParseSnoc(front: string, c: char, base: int)
    ensures ParseDigits(front + [c], base) == ParseDigits(front, base) * base + DigitValue(c)
  {
    assert (front + [c])[..|front|] == front;
  }

  lemma Recombine(n: nat, base: int)
    requires Base(base)
    ensures n / base * base + n % base == n && 0 <= n % base < base
  {}

  lemma DigitCharValue(d: int)
    requires 0 <= d < 16
    ensures DigitValue(DigitChar(d)) == d && (DigitChar(d) == '0' <==> d == 0)
  {}

  lemma PlainSnoc(front: string, c: char, base: int)
    requires Base(base) && Plain(front, base) && front[0] != '0' && 0 <= DigitValue(c) < base
    ensures Plain(front + [c], base) && (front + [c])[0] != '0'
  {}

  lemma ParseAppended(n: nat, front: string, c: char, base: int)
    requires Base(base) && ParseDigits(front, base) == n / base && DigitValue(c) == n % base
    ensures ParseDigits(front + [c], base) == n
  {
    ParseSnoc(front, c, base);
    Recombine(n, base);
  }

  lemma ParseOne(c: char, base: int)
    ensures ParseDigits([c], base) == DigitValue(c)
  {
    ParseSnoc([], c, base);
  }

  lemma {:induction false} DigitsAreParsed(n: nat, base: int)
    requires Base(base)
    ensures ParseDigits(Digits(n, base), base) == n
    decreases n
  {
    DigitsStep(n, base);
    Recombine(n, base);
    if n >= base {
      DigitCharValue(n % base);
      DigitsAreParsed(n / base, base);
      ParseAppended(n, Digits(n / base, base), DigitChar(n % base), base);
    } else {
      DigitCharValue(n);
      ParseOne(DigitChar(n), base);
    }
  }

  lemma {:induction false} DigitsArePlain(n: nat, base: int)
    requires Base(base)
    ensures Plain(Digits(n, base), base) && (n > 0 ==> Digits(n, base)[0] != '0')
    decreases n
  {
    DigitsStep(n, base);
    if n >= base {
      DigitCharValue(n % base);
      DigitsArePlain(n / base, base);
      PlainSnoc(Digits(n / base, base), DigitChar(n % base), base);
    } else {
      DigitCharValue(n);
    }
  }

  /** Decimal digits with a minus in front, and capital letters in hexadecimal. */
  lemma Examples()
    ensures Decimal(0) == "0" && Decimal(-42) == "-42" && Digits(0xAF, 16) == "AF"
  {
    DigitsStep(0, 10);
    DigitsStep(42, 10);
    DigitsStep(4, 10);
    DigitsStep(0xAF, 16);
    DigitsStep(0xA, 16);
  }

  lemma {:induction false} ParseNonNegative(s: string, base: int)
    requires Base(base) && AllDigits(s, base)
    ensures ParseDigits(s, base) >= 0
  {
    if s != [] {
      ParseNonNegative(s[..|s| - 1], base);
    }
  }

  lemma {:induction false} ParsePositive(s: string, base: int)
    requires Base(base) && s != [] && AllDigits(s, base) && s[0] != '0'
    ensures ParseDigits(s, base) > 0
  {
    if |s| > 1 {
      ParsePositive(s[..|s| - 1], base);
    } else {
      assert ParseDigits(s[..0], base) == 0;
    }
  }

  lemma DigitOf(c: char)
    requires 0 <= DigitValue(c) < 16
    ensures DigitChar(DigitValue(c)) == c
  {}

  lemma DigitsSnoc(n: int, high: int, front: string, c: char, base: int)
    requires Base(base) && high > 0 && Digits(high, base) == front && 0 <= DigitValue(c) < base
    requires n == high * base + DigitValue(c)
    ensures n >= 0 && Digits(n, base) == front + [c]
  {
    DigitOf(c);
    DivideDigit(high, DigitValue(c), base);
    AppendDigit(n, high, DigitValue(c), base);
  }

  lemma AppendDigit(n: nat, high: nat, d: int, base: int)
    requires Base(base) && n >= base && n / base == high && n % base == d
    ensures Digits(n, base) == Digits(high, base) + [DigitChar(d)]
  {
    DigitsStep(n, base);
  }

  lemma OneDigit(c: char, base: int)
    requires Base(base) && 0 <= DigitValue(c) < base
    ensures ParseDigits([c], base) == DigitValue(c) && Digits(DigitValue(c), base) == [c]
  {
    ParseSnoc([], c, base);
    DigitOf(c);
    DigitsStep(DigitValue(c), base);
  }

  lemma PlainFront(s: string, base: int) returns (front: string, c: char)
    requires Base(base) && Plain(s, base) && |s| > 1
    ensures s == front + [c] && |front| == |s| - 1 && Plain(front, base) && front[0] != '0' && 0 <= DigitValue(c) < base
  {
    front, c := s[..|s| - 1], s[|s| - 1];
  }

  /** There is no other plain form. */
  lemma {:induction false} PlainIsDigits(s: string, base: int)
    requires Base(base) && Plain(s, base)
    ensures ParseDigits(s, base) >= 0 && Digits(ParseDigits(s, base), base) == s
    decreases |s|
  {
    if |s| == 1 {
      OneDigit(s[0], base);
      assert s == [s[0]];
    } else {
      var front, c := PlainFront(s, base);
      ParsePositive(front, base);
      PlainIsDigits(front, base);
      ParseSnoc(front, c, base);
      DigitsSnoc(ParseDigits(s, base), ParseDigits(front, base), front, c, base);
    }
  }

  lemma DivideDigit(high: int, d: int, base: int)
    requires Base(base) && 0 <= d < base
    ensures (high * base + d) / base == high && (high * base + d) % base == d
    ensures high > 0 ==> high * base + d >= base
  {}

  /** Printed and read back, every integer is itself; and it is printed in plain form. */
  lemma DecimalReadsBack(value: int)
    ensures ParseDecimal(Decimal(value)) == value && PlainDecimal(Decimal(value))
  {
    DigitsAreParsed(Abs(value), 10);
    DigitsArePlain(Abs(value), 10);
    var s := Decimal(value);
    if value < 0 {
      assert s[1..] == Digits(Abs(value), 10);
    } else {
      assert DigitValue(s[0]) >= 0;
    }
  }

  /** And whatever is in plain form is how its value is printed. */
  lemma PlainIsDecimal(s: string)
    requires PlainDecimal(s)
    ensures Decimal(ParseDecimal(s)) == s
  {
    if s[0] == '-' {
      PlainIsDigits(s[1..], 10);
      assert s == ['-'] + s[1..];
      if |s| > 2 {
        ParsePositive(s[1..], 10);
      } else {
        assert s[1..] == [s[1]] && ParseDigits(s[1..][..0], 10) == 0;
        assert s == ['-', s[1]];
      }
    } else {
      PlainIsDigits(s, 10);
    }
  }

  function Power(base: int, n: nat): int {
    if n == 0 then 1 else base * Power(base, n - 1)
  }

  lemma DivideBelow(m: nat, base: int, p: int)
    requires Base(base) && m < base * p
    ensures m / base < p
  {
    if base == 10 {
    } else {
      assert base == 16;
    }
  }

  /** A number below base to the n-th has at most n digits. */
  lemma {:induction false} FewDigits(m: nat, base: int, n: nat)
    requires Base(base) && n >= 1 && m < Power(base, n)
    ensures |Digits(m, base)| <= n
    decreases n
  {
    DigitsStep(m, base);
    if m >= base {
      if n > 1 {
        FewerDigits(m, base, n);
        FewDigits(m / base, base, n - 1);
      }
    }
  }

  lemma FewerDigits(m: nat, base: int, n: nat)
    requires Base(base) && n >= 1 && m < Power(base, n)
    ensures m / base < Power(base, n - 1)
  {
    DivideBelow(m, base, Power(base, n - 1));
  }

  lemma {:induction false} PowerAdd(base: int, a: nat, b: nat)
    ensures Power(base, a + b) == Power(base, a) * Power(base, b)
  {
    if a > 0 {
      PowerAdd(base, a - 1, b);
      Regroup(base, Power(base, a - 1), Power(base, b));
    }
  }

  lemma Regroup(a: int, b: int, c: int)
    ensures a * (b * c) == a * b * c
  {}

  lemma Powers()
    ensures Power(10, 20) == 100_000_000_000_000_000_000
    ensures Power(10, 19) == 10_000_000_000_000_000_000
    ensures Power(16, 16) == 0x1_0000_0000_0000_0000
  {
    PowerAdd(10, 5, 5);
    PowerAdd(10, 10, 10);
    PowerAdd(10, 1, 19);
    PowerAdd(16, 4, 4);
    PowerAdd(16, 8, 8);
    assert Power(10, 5) == 100_000 && Power(10, 1) == 10 && Power(16, 4) == 0x1_0000;
  }

  /** Whatever 64 bits can hold, signed or unsigned, takes at most twenty characters. */
  lemma TwentyCharacters(value: int)
    requires -0x8000_0000_0000_0000 <= value < 0x1_0000_0000_0000_0000
    ensures |Decimal(value)| <= 20
  {
    Powers();
    if value < 0 {
      FewDigits(-value, 10, 19);
    } else {
      FewDigits(value, 10, 20);
    }
  }

  lemma SixteenHexDigits(value: int)
    requires 0 <= value < 0x1_0000_0000_0000_0000
    ensures |Digits(value, 16)| <= 16
  {
    Powers();
    FewDigits(value, 16, 16);
  }

  // The conversions, in place.

  /** std::reverse on buf[first..last]. */
  method Reverse(buf: array<char>, first: nat, last: nat)
    requires first <= last <= buf.Length
    modifies buf
    ensures buf[first..last] == Reversed(old(buf[first..last]))
    ensures forall k :: 0 <= k < first || last <= k < buf.Length ==> buf[k] == old(buf[k])
  {
    var lo, hi := first, last;
    while lo + 1 < hi
      invariant first <= lo <= hi <= last && lo - first == last - hi
      invariant forall k :: 0 <= k < first || last <= k < buf.Length ==> buf[k] == old(buf[k])
      invariant forall k :: first <= k < lo || hi <= k < last ==> buf[k] == old(buf[first + last - 1 - k])
      invariant forall k :: lo <= k < hi ==> buf[k] == old(buf[k])
    {
      hi := hi - 1;
      buf[lo], buf[hi] := buf[hi], buf[lo];
      lo := lo + 1;
    }
    ghost var was := old(buf[first..last]);
    forall k | 0 <= k < last - first ensures buf[first..last][k] == was[last - first - 1 - k] {
      assert buf[first + k] == old(buf[last - 1 - k]);
    }
  }

  /** How both conversions end; `result` is what is to come out. */
  method TerminateAndReverse(buf: array<char>, start: nat, p: nat, ghost result: string) returns (len: nat)
    requires start <= p < buf.Length && Reversed(buf[start..p]) == result
    modifies buf
    ensures len == |result| && buf[start..start + len] == result && buf[start + len] == '\0'
    ensures forall k :: 0 <= k < start || start + len < k < buf.Length ==> buf[k] == old(buf[k])
  {
    buf[p] := '\0';
    assert buf[start..p] == old(buf[start..p]);
    Reverse(buf, start, p);
    len := p - start;
  }

  /** zero[lsd]: the table runs from -9 to 9. */
  function ZeroAt(lsd: int): char
    requires -9 <= lsd <= 9
  {
    DIGITS[lsd + 9]
  }

  lemma LowDigit(i: int)
    ensures -9 <= Mod(i, 10) <= 9 && ZeroAt(Mod(i, 10)) == DigitChar(Abs(i) % 10)
    ensures Abs(Div(i, 10)) == Abs(i) / 10 && (Div(i, 10) == 0 <==> Abs(i) < 10)
  {}

  /** What convert has written before it reverses. */
  function Backwards(value: int): string {
    if value < 0 then LowFirst(Abs(value), 10) + ['-'] else LowFirst(Abs(value), 10)
  }

  lemma {:induction false} DigitsReversed(n: nat, base: int)
    requires Base(base)
    ensures Reversed(LowFirst(n, base)) == Digits(n, base) && |LowFirst(n, base)| == |Digits(n, base)|
    decreases n
  {
    if n < base {
      ReversedSnoc([], DigitChar(n));
      assert [] + [DigitChar(n)] == [DigitChar(n)];
    } else {
      DigitsReversed(n / base, base);
      ReversedFirst(DigitChar(n % base), LowFirst(n / base, base));
    }
  }

  lemma ReversedFirst<T>(x: T, rest: seq<T>)
    ensures Reversed([x] + rest) == Reversed(rest) + [x]
  {
    assert ([x] + rest)[1..] == rest;
  }

  lemma BackwardsReversed(value: int)
    ensures Reversed(Backwards(value)) == Decimal(value) && |Backwards(value)| == |Decimal(value)|
  {
    DigitsReversed(Abs(value), 10);
    ReversedSnoc(LowFirst(Abs(value), 10), '-');
  }

  lemma {:induction false} ReversedSnoc<T>(s: seq<T>, x: T)
    ensures Reversed(s + [x]) == [x] + Reversed(s)
  {
    if s != [] {
      ReversedSnoc(s[1..], x);
      assert (s + [x])[1..] == s[1..] + [x];
    }
  }

  lemma LowStep(i: int)
    ensures -9 <= Mod(i, 10) <= 9 && (Div(i, 10) != 0 ==> Abs(Div(i, 10)) < Abs(i))
    ensures LowFirst(Abs(i), 10) == [ZeroAt(Mod(i, 10))] + if Div(i, 10) == 0 then [] else LowFirst(Abs(Div(i, 10)), 10)
  {
    LowDigit(i);
  }

  lemma LowStepHex(i: nat)
    ensures LowFirst(i, 16) == [DIGITS_HEX[i % 16]] + if i / 16 == 0 then [] else LowFirst(i / 16, 16)
  {}

  lemma Extends<T>(written: seq<T>, x: T, rest: seq<T>, all: seq<T>)
    requires written + ([x] + rest) == all
    ensures written + [x] + rest == all && |written| < |all|
    ensures rest == [] ==> written + [x] == all
  {
    assert written + [x] + rest == written + ([x] + rest);
  }

  /** convert: the digits of any value, negative ones without ever negating it, and the length. */
  method Convert(buf: array<char>, start: nat, value: int) returns (len: nat)
    requires start + |Decimal(value)| < buf.Length
    modifies buf
    ensures len == |Decimal(value)| && buf[start..start + len] == Decimal(value) && buf[start + len] == '\0'
    ensures forall k :: 0 <= k < start || start + len < k < buf.Length ==> buf[k] == old(buf[k])
  {
    var p := PutBackwards(buf, start, value);
    len := TerminateAndReverse(buf, start, p, Decimal(value));
  }

  method PutBackwards(buf: array<char>, start: nat, value: int) returns (p: nat)
    requires start + |Decimal(value)| < buf.Length
    modifies buf
    ensures p == start + |Decimal(value)| && Reversed(buf[start..p]) == Decimal(value)
    ensures forall k :: 0 <= k < start || p <= k < buf.Length ==> buf[k] == old(buf[k])
  {
    BackwardsReversed(value);
    p := PutLowFirst(buf, start, value);
    if value < 0 {
      buf[p] := '-';
      p := p + 1;
      assert buf[start..p] == buf[start..p - 1] + ['-'];
    }
    assert buf[start..p] == Backwards(value);
  }

  /** The loop of convert. */
  method PutLowFirst(buf: array<char>, start: nat, value: int) returns (p: nat)
    requires start + |LowFirst(Abs(value), 10)| <= buf.Length
    modifies buf
    ensures p == start + |LowFirst(Abs(value), 10)| && buf[start..p] == LowFirst(Abs(value), 10)
    ensures forall k :: 0 <= k < start || p <= k < buf.Length ==> buf[k] == old(buf[k])
  {
    ghost var low := LowFirst(Abs(value), 10);
    var i := value;
    p := start;
    var more := true;
    while more
      invariant start <= p <= start + |low|
      invariant more ==> buf[start..p] + LowFirst(Abs(i), 10) == low
      invariant !more ==> buf[start..p] == low
      invariant forall k :: 0 <= k < start || p <= k < buf.Length ==> buf[k] == old(buf[k])
      decreases more, Abs(i)
    {
      LowStep(i);
      ghost var before := buf[start..p];
      var lsd := Mod(i, 10);
      i := Div(i, 10);
      Extends(before, ZeroAt(lsd), if i == 0 then [] else LowFirst(Abs(i), 10), low);
      buf[p] := ZeroAt(lsd);
      p := p + 1;
      assert buf[start..p] == before + [ZeroAt(lsd)];
      more := i != 0;
    }
  }

  /** The loop of convertHex. */
  method PutLowFirstHex(buf: array<char>, start: nat, value: nat) returns (p: nat)
    requires start + |LowFirst(value, 16)| <= buf.Length
    modifies buf
    ensures p == start + |LowFirst(value, 16)| && buf[start..p] == LowFirst(value, 16)
    ensures forall k :: 0 <= k < start || p <= k < buf.Length ==> buf[k] == old(buf[k])
  {
    ghost var low := LowFirst(value, 16);
    var i := value;
    p := start;
    var more := true;
    while more
      invariant start <= p <= start + |low|
      invariant more ==> buf[start..p] + LowFirst(i, 16) == low
      invariant !more ==> buf[start..p] == low
      invariant forall k :: 0 <= k < start || p <= k < buf.Length ==> buf[k] == old(buf[k])
      decreases more, i
    {
      LowStepHex(i);
      ghost var before := buf[start..p];
      var lsd := i % 16;
      i := i / 16;
      Extends(before, DIGITS_HEX[lsd], if i == 0 then [] else LowFirst(i, 16), low);
      buf[p] := DIGITS_HEX[lsd];
      p := p + 1;
      assert buf[start..p] == before + [DIGITS_HEX[lsd]];
      more := i != 0;
    }
  }

  method ConvertHex(buf: array<char>, start: nat, value: nat) returns (len: nat)
    requires start + |Digits(value, 16)| < buf.Length
    modifies buf
    ensures len == |Digits(value, 16)| && buf[start..start + len] == Digits(value, 16) && buf[start + len] == '\0'
    ensures forall k :: 0 <= k < start || start + len < k < buf.Length ==> buf[k] == old(buf[k])
  {
    DigitsReversed(value, 16);
    var p := PutLowFirstHex(buf, start, value);
    len := TerminateAndReverse(buf, start, p, Digits(value, 16));
  }

  lemma Joined<T>(s: seq<T>, a: seq<T>, b: seq<T>)
    requires |s| == |a| + |b| && s[..|a|] == a && s[|a|..] == b
    ensures s == a + b
  {}

  /** What FixedBuffer::append leaves in a buffer of this size: all of the text behind the contents or, without a word,
      none of it. */
  function Fitted(contents: string, size: nat, text: string): string {
    if size - |contents| > |text| then contents + text else contents
  }

  /** FixedBuffer<SIZE>: data_[..cur_] is what was put in. One cell is always left over. */
  class FixedBuffer {
    const data_: array<char>
    var cur_: nat

    ghost predicate Valid()
      reads this
    {
      cur_ < data_.Length
    }

    function Contents(): string
      requires Valid()
      reads this, data_
    {
      data_[..cur_]
    }

    constructor (size: nat)
      requires size > 0
      ensures Valid() && fresh(data_) && data_.Length == size && Contents() == ""
    {
      data_ := new char[size];
      cur_ := 0;
    }

    function Avail(): int
      reads this
    {
      data_.Length - cur_
    }

    method Append(buf: string)
      requires Valid()
      modifies this`cur_, data_
      ensures Valid() && Contents() == Fitted(old(Contents()), data_.Length, buf)
      ensures Contents() == old(Contents()) + if |old(Contents())| + |buf| < data_.Length then buf else ""
    {
      if Avail() > |buf| {
        var i := 0;
        while i < |buf|
          invariant 0 <= i <= |buf| && cur_ == old(cur_)
          invariant data_[..cur_ + i] == old(Contents()) + buf[..i]
        {
          data_[cur_ + i] := buf[i];
          i := i + 1;
        }
        cur_ := cur_ + |buf|;
      }
    }

    /** `text` is what has been written behind the contents. */
    method Add(len: nat, ghost text: string)
      requires Valid() && cur_ + len < data_.Length && data_[cur_..cur_ + len] == text
      modifies this`cur_
      ensures Valid() && Contents() == old(Contents()) + text
    {
      Joined(data_[..cur_ + len], data_[..cur_], text);
      cur_ := cur_ + len;
    }

    method Reset()
      requires Valid()
      modifies this`cur_
      ensures Valid() && Contents() == ""
    {
      cur_ := 0;
    }
  }

  class LogStream {
    const buffer_: FixedBuffer

    constructor (size: nat)
      requires size > 0
      ensures buffer_.Valid() && buffer_.Contents() == "" && fresh(buffer_) && fresh(buffer_.data_)
    {
      buffer_ := new FixedBuffer(size);
    }

    /** operator<< for every integer type: the number in full where there is room for any, else nothing. */
    method FormatInteger(v: int)
      requires buffer_.Valid() && -0x8000_0000_0000_0000 <= v < 0x1_0000_0000_0000_0000
      modifies buffer_`cur_, buffer_.data_
      ensures buffer_.Valid()
      ensures buffer_.Contents()
              == old(buffer_.Contents()) + if old(buffer_.Avail()) >= 32 then Decimal(v) else ""
    {
      if buffer_.Avail() >= MAX_NUMERIC_SIZE {
        AppendInteger(v);
      }
    }

    method AppendInteger(v: int)
      requires buffer_.Valid() && -0x8000_0000_0000_0000 <= v < 0x1_0000_0000_0000_0000 && buffer_.Avail() >= 32
      modifies buffer_`cur_, buffer_.data_
      ensures buffer_.Valid() && buffer_.Contents() == old(buffer_.Contents()) + Decimal(v)
    {
      TwentyCharacters(v);
      var len := ConvertBehind(v);
      buffer_.Add(len, Decimal(v));
    }

    method ConvertBehind(v: int) returns (len: nat)
      requires buffer_.Valid() && |Decimal(v)| < buffer_.Avail()
      modifies buffer_.data_
      ensures buffer_.cur_ + len < buffer_.data_.Length && buffer_.data_[buffer_.cur_..buffer_.cur_ + len] == Decimal(v)
      ensures buffer_.Contents() == old(buffer_.Contents())
    {
      len := Convert(buffer_.data_, buffer_.cur_, v);
    }

    method PutPrefix()
      requires buffer_.Valid() && buffer_.Avail() > 2
      modifies buffer_.data_
      ensures buffer_.data_[..buffer_.cur_ + 2] == old(buffer_.Contents()) + "0x"
      ensures buffer_.Contents() == old(buffer_.Contents())
    {
      buffer_.data_[buffer_.cur_] := '0';
      buffer_.data_[buffer_.cur_ + 1] := 'x';
    }

    /** operator<< for a pointer. */
    method FormatPointer(v: nat)
      requires buffer_.Valid() && v < 0x1_0000_0000_0000_0000
      modifies buffer_`cur_, buffer_.data_
      ensures buffer_.Valid()
      ensures buffer_.Contents()
              == old(buffer_.Contents()) + if old(buffer_.Avail()) >= 32 then "0x" + Digits(v, 16) else ""
    {
      if buffer_.Avail() >= MAX_NUMERIC_SIZE {
        AppendPointer(v);
      }
    }

    method AppendPointer(v: nat)
      requires buffer_.Valid() && v < 0x1_0000_0000_0000_0000 && buffer_.Avail() >= 32
      modifies buffer_`cur_, buffer_.data_
      ensures buffer_.Valid() && buffer_.Contents() == old(buffer_.Contents()) + ("0x" + Digits(v, 16))
    {
      SixteenHexDigits(v);
      PutPrefix();
      ghost var prefixed := buffer_.data_[..buffer_.cur_ + 2];
      var len := ConvertHex(buffer_.data_, buffer_.cur_ + 2, v);
      assert buffer_.data_[..buffer_.cur_ + 2] == prefixed;
      AddPrefixed(len, prefixed, Digits(v, 16));
    }

    /** Prefix and digits stand behind the contents. */
    method AddPrefixed(len: nat, ghost prefixed: string, ghost digits: string)
      requires buffer_.Valid() && buffer_.cur_ + 2 + len < buffer_.data_.Length
      requires buffer_.data_[..buffer_.cur_ + 2] == prefixed == buffer_.Contents() + "0x"
      requires buffer_.data_[buffer_.cur_ + 2..buffer_.cur_ + 2 + len] == digits
      modifies buffer_`cur_
      ensures buffer_.Valid() && buffer_.Contents() == old(buffer_.Contents()) + ("0x" + digits)
    {
      var at := buffer_.cur_;
      assert buffer_.data_[at..at + 2] == prefixed[at..] == "0x";
      assert buffer_.data_[at..at + 2 + len][..2] == buffer_.data_[at..at + 2];
      assert buffer_.data_[at..at + 2 + len][2..] == digits;
      Joined(buffer_.data_[at..at + 2 + len], "0x", digits);
      buffer_.Add(len + 2, "0x" + digits);
    }
  }
}

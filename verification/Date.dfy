/** Julian day numbers, as logging/Date.cc computes them: integer formulas against the Gregorian calendar. */
module Date {
  import opened Integers

  /** kJulianDayOf1970_01_01, in digits; EpochDay derives it. */
  const EPOCH_DAY := 2440588

  datatype YearMonthDay = YearMonthDay(year: int, month: int, day: int)

  function JulianDayNumber(year: int, month: int, day: int): int {
    var a := Div(14 - month, 12);
    var y := year + 4800 - a;
    var m := month + 12 * a - 3;
    day + Div(153 * m + 2, 5) + y * 365 + Div(y, 4) - Div(y, 100) + Div(y, 400) - 32045
  }

  /** getYearMonthDay: first the century and the day of it, */
  function GetYearMonthDay(julianDayNumber: int): YearMonthDay {
    var a := julianDayNumber + 32044;
    var b := Div(4 * a + 3, 146097);
    InCentury(b, a - Div(b * 146097, 4))
  }

  /** then the year and the day of it, */
  function InCentury(b: int, c: int): YearMonthDay {
    var d := Div(4 * c + 3, 1461);
    InYear(b, d, c - Div(1461 * d, 4))
  }

  /** then the month and the day of it. */
  function InYear(b: int, d: int, e: int): YearMonthDay {
    var m := Div(5 * e + 2, 153);
    YearMonthDay(b * 100 + d - 4800 + Div(m, 10), m + 3 - 12 * Div(m, 10), e - Div(153 * m + 2, 5) + 1)
  }

  // The calendar itself.

  predicate Leap(year: int) {
    year % 4 == 0 && (year % 100 != 0 || year % 400 == 0)
  }

  function DaysInMonth(year: int, month: int): int {
    if month == 2 then (if Leap(year) then 29 else 28)
    else if month in {4, 6, 9, 11} then 30
    else 31
  }

  predicate ValidDate(date: YearMonthDay) {
    1 <= date.month <= 12 && 1 <= date.day <= DaysInMonth(date.year, date.month)
  }

  function NextDay(date: YearMonthDay): YearMonthDay {
    if date.day < DaysInMonth(date.year, date.month) then date.(day := date.day + 1)
    else if date.month < 12 then YearMonthDay(date.year, date.month + 1, 1)
    else YearMonthDay(date.year + 1, 1, 1)
  }

  /** On or after 1 March -4800, where the formulas start to count. */
  predicate Counted(date: YearMonthDay) {
    date.year > -4800 || (date.year == -4800 && date.month >= 3)
  }

  const FIRST_COUNTED := -32044

  // Years that begin in March, numbered from -4800: `y` is a century and a year of it, `m` counts from March.

  /** The days before a century, before a year of its century, and before a month of its year. */
  function CenturyStart(b: int): int { 36524 * b + b / 4 }

  function YearStart(d: int): int { 365 * d + d / 4 }

  function MonthStart(m: int): int { (153 * m + 2) / 5 }

  function Month(m: int): int { if m < 10 then m + 3 else m - 9 }

  /** Year `d` of century `b` has a 366th day. */
  predicate LongYear(b: int, d: int) {
    (d + 1) % 4 == 0 && (d != 99 || (b + 1) % 4 == 0)
  }

  function MonthLength(b: int, d: int, m: int): int {
    if m == 11 then (if LongYear(b, d) then 29 else 28) else if m in {1, 3, 6, 8} then 30 else 31
  }

  /** A day counted from 1 March -4800: in century `b`, its year `d`, that year's month `m`, and `day` from 1. */
  predicate Digits(b: int, d: int, m: int, day: int) {
    0 <= b && 0 <= d < 100 && 0 <= m < 12 && 1 <= day <= MonthLength(b, d, m)
  }

  function Count(b: int, d: int, m: int, day: int): int {
    CenturyStart(b) + YearStart(d) + MonthStart(m) + day - 1
  }

  function Calendar(b: int, d: int, m: int, day: int): YearMonthDay {
    YearMonthDay(100 * b + d - 4800 + (if m < 10 then 0 else 1), Month(m), day)
  }

  lemma LeapIsLong(b: int, d: int)
    requires 0 <= d < 100
    ensures Leap(100 * b + d + 1 - 4800) <==> LongYear(b, d)
  {
    var y := 100 * b + d + 1 - 4800;
    if d < 99 {
      WithinCentury(y, b - 48, d + 1);
    } else {
      CenturyYear(y, b + 1);
    }
  }

  lemma WithinCentury(y: int, k: int, r: int)
    requires 0 < r < 100 && y == 100 * k + r
    ensures Leap(y) <==> r % 4 == 0
  {
    Fourth(y, 25 * k, r);
    Hundredth(y, k, r);
  }

  lemma CenturyYear(y: int, k: int)
    requires y == 100 * k - 4800
    ensures Leap(y) <==> k % 4 == 0
  {
    Fourth(y, 25 * k - 1200, 0);
    Hundredth(y, k - 48, 0);
    FourHundredth(y, k / 4 - 12, 100 * (k % 4));
  }

  lemma Fourth(y: int, k: int, r: int)
    requires y == 4 * k + r
    ensures y % 4 == r % 4
  {}

  lemma Hundredth(y: int, k: int, r: int)
    requires 0 <= r < 100 && y == 100 * k + r
    ensures y % 100 == r
  {}

  lemma FourHundredth(y: int, k: int, r: int)
    requires 0 <= r < 400 && y == 400 * k + r
    ensures y % 400 == r
  {}

  lemma CalendarValid(b: int, d: int, m: int, day: int)
    requires 0 <= d < 100 && 0 <= m < 12
    ensures DaysInMonth(Calendar(b, d, m, day).year, Month(m)) == MonthLength(b, d, m)
  {
    LeapIsLong(b, d);
  }

  lemma MonthsFollow(b: int, d: int, m: int, day: int)
    requires Digits(b, d, m, day)
    ensures MonthStart(m) + day - 1 < (if m == 11 then (if LongYear(b, d) then 366 else 365) else MonthStart(m + 1))
    ensures m < 11 ==> MonthStart(m) + MonthLength(b, d, m) == MonthStart(m + 1)
    ensures MonthStart(0) == 0 && MonthStart(11) == 337
  {
    if m == 0 || m == 1 || m == 2 || m == 3 || m == 4 || m == 5 {
    } else if m == 6 || m == 7 || m == 8 || m == 9 || m == 10 {
    }
  }

  lemma YearParts(b: int, d: int)
    requires 0 <= b && 0 <= d < 100
    ensures (100 * b + d) / 4 == 25 * b + d / 4
    ensures (100 * b + d) / 100 == b
    ensures (100 * b + d) / 400 == b / 4
  {}

  /** getJulianDayNumber counts the days from 1 March -4800. */
  lemma Encodes(b: int, d: int, m: int, day: int)
    requires 0 <= b && 0 <= d < 100 && 0 <= m < 12
    ensures var date := Calendar(b, d, m, day);
            JulianDayNumber(date.year, date.month, date.day) == Count(b, d, m, day) + FIRST_COUNTED
  {
    YearParts(b, d);
    assert Div(14 - Month(m), 12) == if m < 10 then 0 else 1;
  }

  lemma CenturyDigit(a: int, b: int)
    requires 0 <= b && CenturyStart(b) <= a < CenturyStart(b + 1)
    ensures Div(4 * a + 3, 146097) == b
    ensures Div(b * 146097, 4) == CenturyStart(b)
  {
    assert 146097 * b <= 4 * a + 3 < 146097 * (b + 1);
  }

  lemma YearDigit(c: int, d: int)
    requires 0 <= d && YearStart(d) <= c < YearStart(d + 1)
    ensures Div(4 * c + 3, 1461) == d
    ensures Div(1461 * d, 4) == YearStart(d)
  {
    assert 1461 * d <= 4 * c + 3 < 1461 * (d + 1);
  }

  lemma MonthDigit(e: int, m: int)
    requires 0 <= m && MonthStart(m) <= e < MonthStart(m + 1)
    ensures Div(5 * e + 2, 153) == m
    ensures Div(153 * m + 2, 5) == MonthStart(m)
  {
    assert 153 * m <= 5 * e + 2 < 153 * (m + 1);
  }

  lemma DayOfYearFits(b: int, d: int, m: int, day: int)
    requires Digits(b, d, m, day)
    ensures 0 <= MonthStart(m) <= MonthStart(m) + day - 1 < (if LongYear(b, d) then 366 else 365)
    ensures MonthStart(m) + day - 1 < MonthStart(m + 1)
  {
    MonthsFollow(b, d, m, day);
  }

  /** A day number in a year stays within its century. */
  lemma DayFits(b: int, d: int, e: int)
    requires 0 <= b && 0 <= d < 100 && 0 <= e < if LongYear(b, d) then 366 else 365
    ensures e < YearStart(d + 1) - YearStart(d)
    ensures 0 <= YearStart(d) + e < CenturyStart(b + 1) - CenturyStart(b)
  {}

  /** getYearMonthDay reads the digits of a day count back. */
  lemma Decodes(n: int, b: int, d: int, m: int, day: int)
    requires Digits(b, d, m, day) && n == Count(b, d, m, day)
    ensures GetYearMonthDay(n + FIRST_COUNTED) == Calendar(b, d, m, day)
  {
    var e := MonthStart(m) + day - 1;
    DigitsFit(b, d, m, day, e);
    DecodesDay(n, b, YearStart(d) + e, d, e, m);
  }

  lemma DigitsFit(b: int, d: int, m: int, day: int, e: int)
    requires Digits(b, d, m, day) && e == MonthStart(m) + day - 1
    ensures 0 <= MonthStart(m) <= e < MonthStart(m + 1)
    ensures 0 <= YearStart(d) <= YearStart(d) + e < YearStart(d + 1)
    ensures CenturyStart(b) + YearStart(d) + e < CenturyStart(b + 1)
  {
    DayOfYearFits(b, d, m, day);
    DayFits(b, d, e);
  }

  lemma DecodesDay(n: int, b: int, c: int, d: int, e: int, m: int)
    requires 0 <= b && 0 <= c && n == CenturyStart(b) + c && n < CenturyStart(b + 1)
    requires 0 <= d && 0 <= e && c == YearStart(d) + e && c < YearStart(d + 1)
    requires 0 <= m < 12 && MonthStart(m) <= e < MonthStart(m + 1)
    ensures GetYearMonthDay(n + FIRST_COUNTED) == Calendar(b, d, m, e - MonthStart(m) + 1)
  {
    DecodesCentury(n, b, c);
    DecodesYear(b, c, d, e);
    DecodesMonth(b, d, m, e);
  }

  lemma DecodesCentury(n: int, b: int, c: int)
    requires 0 <= b && 0 <= c && n == CenturyStart(b) + c && n < CenturyStart(b + 1)
    ensures GetYearMonthDay(n + FIRST_COUNTED) == InCentury(b, c)
  {
    CenturyDigit(n, b);
  }

  lemma DecodesYear(b: int, c: int, d: int, e: int)
    requires 0 <= d && 0 <= e && c == YearStart(d) + e && c < YearStart(d + 1)
    ensures InCentury(b, c) == InYear(b, d, e)
  {
    YearDigit(c, d);
  }

  lemma DecodesMonth(b: int, d: int, m: int, e: int)
    requires 0 <= m < 12 && MonthStart(m) <= e < MonthStart(m + 1)
    ensures InYear(b, d, e) == Calendar(b, d, m, e - MonthStart(m) + 1)
  {
    MonthDigit(e, m);
    assert Div(m, 10) == if m < 10 then 0 else 1;
  }

  /** Every day from 1 March -4800 has its digits. */
  lemma HasDigits(a: nat) returns (b: int, d: int, m: int, day: int)
    ensures Digits(b, d, m, day) && Count(b, d, m, day) == a
  {
    b := (4 * a + 3) / 146097;
    var c := a - CenturyStart(b);
    d := (4 * c + 3) / 1461;
    var e := c - YearStart(d);
    m := (5 * e + 2) / 153;
    day := e - MonthStart(m) + 1;
    MonthDays(b, d, e, m);
  }

  lemma MonthDays(b: int, d: int, e: int, m: int)
    requires 0 <= b && 0 <= d < 100 && 0 <= e < (if LongYear(b, d) then 366 else 365) && m == (5 * e + 2) / 153
    ensures 0 <= m < 12 && 0 <= e - MonthStart(m) < MonthLength(b, d, m)
  {
    assert MonthStart(m) <= e < MonthStart(m + 1);
    if m < 11 {
      MonthsFollow(b, d, m, 1);
    }
  }

  /** The calendar date of the digits, and every counted date has some. */
  lemma DateDigits(date: YearMonthDay) returns (b: int, d: int, m: int)
    requires ValidDate(date) && Counted(date)
    ensures Digits(b, d, m, date.day) && Calendar(b, d, m, date.day) == date
  {
    var y := date.year + 4800 - if date.month < 3 then 1 else 0;
    b, d, m := y / 100, y % 100, if date.month < 3 then date.month + 9 else date.month - 3;
    CalendarValid(b, d, m, date.day);
  }

  /** The digits of a counted date, and its number. */
  lemma NumberDigits(date: YearMonthDay) returns (b: int, d: int, m: int, n: int)
    requires ValidDate(date) && Counted(date)
    ensures Digits(b, d, m, date.day) && Calendar(b, d, m, date.day) == date && n == Count(b, d, m, date.day)
    ensures JulianDayNumber(date.year, date.month, date.day) == n + FIRST_COUNTED
  {
    b, d, m := DateDigits(date);
    n := Count(b, d, m, date.day);
    Encodes(b, d, m, date.day);
  }

  lemma CountedReadsBack(date: YearMonthDay, number: int)
    requires ValidDate(date) && Counted(date) && number == JulianDayNumber(date.year, date.month, date.day)
    ensures GetYearMonthDay(number) == date
  {
    var b, d, m, n := NumberDigits(date);
    assert number == n + FIRST_COUNTED;
    Decodes(n, b, d, m, date.day);
  }

  /** The number of a date reads back as that date, from 1 March -4800 on, and never before. */
  lemma DateRoundTrip(date: YearMonthDay)
    requires ValidDate(date)
    ensures GetYearMonthDay(JulianDayNumber(date.year, date.month, date.day)) == date <==> Counted(date)
  {
    if Counted(date) {
      CountedReadsBack(date, JulianDayNumber(date.year, date.month, date.day));
    } else {
      TooEarly(date);
    }
  }

  lemma NumberReadsBack(n: nat, number: int)
    requires number == n + FIRST_COUNTED
    ensures var date := GetYearMonthDay(number);
            ValidDate(date) && Counted(date) && JulianDayNumber(date.year, date.month, date.day) == number
  {
    var b, d, m, day := HasDigits(n);
    Decodes(n, b, d, m, day);
    NextNumber(b, d, m, day, Calendar(b, d, m, day), n);
  }

  /** A number is that of the date it reads as, and that date exists, from 1 March -4800 on; before, it does not. */
  lemma NumberRoundTrip(julianDayNumber: int)
    ensures var date := GetYearMonthDay(julianDayNumber);
            && (julianDayNumber >= FIRST_COUNTED <==> ValidDate(date))
            && (julianDayNumber >= FIRST_COUNTED ==>
                  Counted(date) && JulianDayNumber(date.year, date.month, date.day) == julianDayNumber)
  {
    if julianDayNumber >= FIRST_COUNTED {
      NumberReadsBack(julianDayNumber - FIRST_COUNTED, julianDayNumber);
    } else {
      NoSuchDay(julianDayNumber);
    }
  }

  // Below the first day, where C's division truncates the other way, every stage counts backwards.

  lemma CenturyBefore(a: int)
    requires a < 0
    ensures a - Div(Div(4 * a + 3, 146097) * 146097, 4) < 0
  {
    var k := -(4 * a + 3) / 146097;
    assert Div(4 * a + 3, 146097) * 146097 == -(k * 146097);
  }

  lemma YearBefore(c: int)
    requires c < 0
    ensures c - Div(1461 * Div(4 * c + 3, 1461), 4) < 0
  {
    var k := -(4 * c + 3) / 1461;
    assert 1461 * Div(4 * c + 3, 1461) == -(k * 1461);
  }

  lemma MonthBefore(e: int)
    requires e < 0
    ensures e - Div(153 * Div(5 * e + 2, 153) + 2, 5) + 1 <= 0
  {
    var k := -(5 * e + 2) / 153;
    assert 153 * Div(5 * e + 2, 153) + 2 == -(k * 153 - 2);
  }

  lemma NoSuchDay(julianDayNumber: int)
    requires julianDayNumber < FIRST_COUNTED
    ensures GetYearMonthDay(julianDayNumber).day <= 0
  {
    var a := julianDayNumber + 32044;
    CenturyBefore(a);
    var c := a - Div(Div(4 * a + 3, 146097) * 146097, 4);
    YearBefore(c);
    MonthBefore(c - Div(1461 * Div(4 * c + 3, 1461), 4));
  }

  lemma EarlyYear(y: int)
    requires y < 0
    ensures y * 365 + Div(y, 4) - Div(y, 100) + Div(y, 400) <= -365
  {}

  lemma EarlyDate(date: YearMonthDay)
    requires ValidDate(date) && !Counted(date)
    ensures JulianDayNumber(date.year, date.month, date.day) <= FIRST_COUNTED
  {
    var a := if date.month < 3 then 1 else 0;
    assert Div(14 - date.month, 12) == a;
    EarlyYear(date.year + 4800 - a);
    EarlyDay(date, date.month + 12 * a - 3);
  }

  lemma EarlyDay(date: YearMonthDay, m: int)
    requires ValidDate(date) && Month(m) == date.month && 0 <= m < 12
    ensures 0 <= MonthStart(m) + date.day - 1 <= 365 && Div(153 * m + 2, 5) == MonthStart(m)
  {}

  lemma NotBefore(n: int, date: YearMonthDay)
    requires n <= FIRST_COUNTED && ValidDate(date) && !Counted(date)
    ensures GetYearMonthDay(n) != date
  {
    if n < FIRST_COUNTED {
      NoSuchDay(n);
    } else {
      FirstDay(0);
    }
  }

  lemma FirstDay(zero: int)
    requires zero == 0
    ensures GetYearMonthDay(zero + FIRST_COUNTED) == YearMonthDay(-4800, 3, 1)
  {
    Decodes(zero, zero, zero, zero, 1);
  }

  lemma TooEarly(date: YearMonthDay)
    requires ValidDate(date) && !Counted(date)
    ensures GetYearMonthDay(JulianDayNumber(date.year, date.month, date.day)) != date
  {
    EarlyDate(date);
    NotBefore(JulianDayNumber(date.year, date.month, date.day), date);
  }

  /** A month before the first counted day a number reads as a day 0, and that as another number. */
  lemma DayZero(number: int, b: int, c: int)
    requires number == -32075 && b == 0 && c == -31
    ensures GetYearMonthDay(number) == YearMonthDay(-4800, 2, 0)
  {
    DayZeroOfAll(number, b, c);
    DayZeroOfCentury(b, c);
    DayZeroOfYear(b, b, c);
  }

  lemma DayZeroOfAll(number: int, b: int, c: int)
    requires number == -32075 && b == 0 && c == -31
    ensures GetYearMonthDay(number) == InCentury(b, c)
  {
    assert Div(4 * (number + 32044) + 3, 146097) == b;
  }

  lemma DayZeroOfCentury(b: int, c: int)
    requires b == 0 && c == -31
    ensures InCentury(b, c) == InYear(b, b, c)
  {
    assert Div(4 * c + 3, 1461) == b;
  }

  lemma DayZeroOfYear(b: int, d: int, e: int)
    requires b == d == 0 && e == -31
    ensures InYear(b, d, e) == YearMonthDay(-4800, 2, 0)
  {
    assert Div(5 * e + 2, 153) == -1;
  }

  lemma DayZeroNumber(year: int, month: int, day: int)
    requires year == -4800 && month == 2 && day == 0
    ensures JulianDayNumber(year, month, day) == -32073
  {
    assert Div(14 - month, 12) == 1;
  }

  lemma NextDigits(b: int, d: int, m: int, day: int) returns (b': int, d': int, m': int, day': int)
    requires Digits(b, d, m, day)
    ensures Digits(b', d', m', day') && Count(b', d', m', day') == Count(b, d, m, day) + 1
    ensures Calendar(b', d', m', day') == NextDay(Calendar(b, d, m, day))
  {
    CalendarValid(b, d, m, day);
    MonthsFollow(b, d, m, day);
    if day < MonthLength(b, d, m) {
      b', d', m', day' := b, d, m, day + 1;
    } else if m < 11 {
      b', d', m', day' := b, d, m + 1, 1;
    } else if d < 99 {
      b', d', m', day' := b, d + 1, 0, 1;
    } else {
      b', d', m', day' := b + 1, 0, 0, 1;
    }
  }

  /** Every next day of the calendar has the next number. */
  lemma NextDayNextNumber(date: YearMonthDay)
    requires ValidDate(date) && Counted(date)
    ensures ValidDate(NextDay(date)) && Counted(NextDay(date))
    ensures JulianDayNumber(NextDay(date).year, NextDay(date).month, NextDay(date).day)
            == JulianDayNumber(date.year, date.month, date.day) + 1
  {
    var b, d, m, n := NumberDigits(date);
    var b', d', m', day' := NextDigits(b, d, m, date.day);
    NextNumber(b', d', m', day', NextDay(date), n + 1);
  }

  lemma NextNumber(b: int, d: int, m: int, day: int, date: YearMonthDay, n: int)
    requires Digits(b, d, m, day) && Calendar(b, d, m, day) == date && Count(b, d, m, day) == n
    ensures ValidDate(date) && Counted(date)
    ensures JulianDayNumber(date.year, date.month, date.day) == n + FIRST_COUNTED
  {
    Encodes(b, d, m, day);
    CalendarValid(b, d, m, day);
  }

  /** weekDay, with Sunday 0. */
  function WeekDay(julianDayNumber: int): int { Mod(julianDayNumber + 1, 7) }

  /** The weekdays are 0 to 6 from the day before number 0 on; below it, C's remainder is negative on every day but a
      Sunday. */
  lemma WeekDayRange(n: int)
    ensures 0 <= WeekDay(n) < 7 <==> n >= -1 || (n + 1) % 7 == 0
  {
    if n + 1 < 0 {
      assert WeekDay(n) == -(-(n + 1) % 7);
    }
  }

  lemma WeekDayFollows(n: int)
    requires n >= -1
    ensures WeekDay(n + 1) == (WeekDay(n) + 1) % 7
  {
    assert WeekDay(n) == (n + 1) % 7;
    assert WeekDay(n + 1) == (n + 2) % 7;
  }

  /** 1 January 1970 was a Thursday. */
  lemma EpochDay()
    ensures JulianDayNumber(1970, 1, 1) == EPOCH_DAY && WeekDay(EPOCH_DAY) == 4
  {}
}

/** Seconds and calendar fields, in UTC and in a zone with daylight saving: logging/TimeZone.cc. */
module TimeZone {
  import opened Integers
  import D = Date

  const SECONDS_PER_DAY := 24 * 60 * 60

  datatype Tm = Tm(
    tm_year: int, tm_mon: int, tm_mday: int,
    tm_hour: int, tm_min: int, tm_sec: int,
    tm_wday: int, tm_yday: int, tm_isdst: bool, tm_gmtoff: int)

  /** The day number and the second of the day, both rounded down. */
  function DayOf(seconds: int): int { seconds / SECONDS_PER_DAY + D.EPOCH_DAY }

  function SecondOf(seconds: int): int { seconds % SECONDS_PER_DAY }

  /** From 1 March -4800, where day numbers and dates correspond. */
  predicate InRange(seconds: int) { DayOf(seconds) >= D.FIRST_COUNTED }

  function Number(date: D.YearMonthDay): int { D.JulianDayNumber(date.year, date.month, date.day) }

  /** What toUtcTime is to compute. */
  function Utc(seconds: int, yday: bool): Tm {
    var date := D.GetYearMonthDay(DayOf(seconds));
    var second := SecondOf(seconds);
    Tm(date.year - 1900, date.month - 1, date.day,
       second / 3600, second / 60 % 60, second % 60,
       D.WeekDay(DayOf(seconds)),
       if yday then DayOf(seconds) - D.JulianDayNumber(date.year, 1, 1) else 0, false, 0)
  }

  method FillHMS(seconds: nat, tm: Tm) returns (utc: Tm)
    ensures utc == tm.(tm_hour := seconds / 3600, tm_min := seconds / 60 % 60, tm_sec := seconds % 60)
  {
    utc := tm.(tm_sec := seconds % 60);
    var minutes := seconds / 60;
    utc := utc.(tm_min := minutes % 60);
    utc := utc.(tm_hour := minutes / 60);
  }

  lemma FloorFromTruncation(s: int)
    ensures var seconds, days := Mod(s, SECONDS_PER_DAY), Div(s, SECONDS_PER_DAY);
            if seconds < 0 then seconds + SECONDS_PER_DAY == SecondOf(s) && days - 1 + D.EPOCH_DAY == DayOf(s)
            else seconds == SecondOf(s) && days + D.EPOCH_DAY == DayOf(s)
  {}

  /** toUtcTime divides with truncation, and corrects. */
  method ToUtcTime(secondsSinceEpoch: int, yday: bool) returns (utc: Tm)
    ensures utc == Utc(secondsSinceEpoch, yday)
  {
    utc := Tm(0, 0, 0, 0, 0, 0, 0, 0, false, 0);
    FloorFromTruncation(secondsSinceEpoch);
    var seconds := Mod(secondsSinceEpoch, SECONDS_PER_DAY);
    var days := Div(secondsSinceEpoch, SECONDS_PER_DAY);
    if seconds < 0 {
      seconds := seconds + SECONDS_PER_DAY;
      days := days - 1;
    }
    utc := FillHMS(seconds, utc);
    utc := FillDate(days + D.EPOCH_DAY, yday, utc);
  }

  /** The second half of toUtcTime. */
  method FillDate(date: int, yday: bool, tm: Tm) returns (utc: Tm)
    ensures var ymd := D.GetYearMonthDay(date);
            utc == tm.(tm_year := ymd.year - 1900, tm_mon := ymd.month - 1, tm_mday := ymd.day,
                       tm_wday := D.WeekDay(date),
                       tm_yday := if yday then date - D.JulianDayNumber(ymd.year, 1, 1) else tm.tm_yday)
  {
    var ymd := D.GetYearMonthDay(date);
    utc := tm.(tm_year := ymd.year - 1900);
    utc := utc.(tm_mon := ymd.month - 1);
    utc := utc.(tm_mday := ymd.day);
    utc := utc.(tm_wday := D.WeekDay(date));
    if yday {
      var startOfYear := D.JulianDayNumber(ymd.year, 1, 1);
      utc := utc.(tm_yday := date - startOfYear);
    }
  }

  function FromUtcFields(year: int, month: int, day: int, hour: int, minute: int, seconds: int): int {
    (D.JulianDayNumber(year, month, day) - D.EPOCH_DAY) * SECONDS_PER_DAY + (hour * 3600 + minute * 60 + seconds)
  }

  function FromUtcTime(utc: Tm): int {
    FromUtcFields(utc.tm_year + 1900, utc.tm_mon + 1, utc.tm_mday, utc.tm_hour, utc.tm_min, utc.tm_sec)
  }

  lemma ClockParts(second: int)
    requires 0 <= second < SECONDS_PER_DAY
    ensures second / 3600 * 3600 + second / 60 % 60 * 60 + second % 60 == second
    ensures 0 <= second / 3600 < 24
  {}

  lemma DateOf(seconds: int, number: int)
    requires InRange(seconds) && number == DayOf(seconds)
    ensures Number(D.GetYearMonthDay(number)) == number
  {
    D.NumberReadsBack(number - D.FIRST_COUNTED, number);
  }

  lemma FieldsAt(date: D.YearMonthDay, number: int, hour: int, minute: int, second: int)
    requires Number(date) == number
    ensures FromUtcFields(date.year, date.month, date.day, hour, minute, second)
            == (number - D.EPOCH_DAY) * SECONDS_PER_DAY + (hour * 3600 + minute * 60 + second)
  {}

  lemma Reassembles(seconds: int, number: int, clock: int)
    requires number == DayOf(seconds) && clock == SecondOf(seconds)
    ensures (number - D.EPOCH_DAY) * SECONDS_PER_DAY + (clock / 3600 * 3600 + clock / 60 % 60 * 60 + clock % 60) == seconds
  {
    ClockParts(clock);
  }

  lemma UtcFields(seconds: int, yday: bool, date: D.YearMonthDay, clock: int)
    requires date == D.GetYearMonthDay(DayOf(seconds)) && clock == SecondOf(seconds)
    ensures FromUtcTime(Utc(seconds, yday))
            == FromUtcFields(date.year, date.month, date.day, clock / 3600, clock / 60 % 60, clock % 60)
  {}

  /** Every second from 1 March -4800, before 1970 and after, is read back. */
  lemma UtcRoundTrip(seconds: int, yday: bool)
    requires InRange(seconds)
    ensures FromUtcTime(Utc(seconds, yday)) == seconds
  {
    var number, clock := DayOf(seconds), SecondOf(seconds);
    var date := D.GetYearMonthDay(number);
    UtcFields(seconds, yday, date, clock);
    DateOf(seconds, number);
    FieldsAt(date, number, clock / 3600, clock / 60 % 60, clock % 60);
    Reassembles(seconds, number, clock);
  }

  /** Before that, what is read back is no date of the calendar: exactly from then on a second is read back from a date
      that exists. */
  lemma UtcExact(seconds: int, yday: bool)
    ensures FromUtcTime(Utc(seconds, yday)) == seconds && D.ValidDate(D.GetYearMonthDay(DayOf(seconds)))
            <==> InRange(seconds)
  {
    D.NumberRoundTrip(DayOf(seconds));
    if InRange(seconds) {
      UtcRoundTrip(seconds, yday);
    }
  }

  /** A month before, a second does not even come back as itself: its day reads as a day 0 of February. */
  lemma UtcFails(seconds: int, yday: bool)
    requires DayOf(seconds) == -32075 && SecondOf(seconds) == 0
    ensures FromUtcTime(Utc(seconds, yday)) != seconds
  {
    var date := D.GetYearMonthDay(DayOf(seconds));
    D.DayZero(DayOf(seconds), 0, -31);
    UtcFields(seconds, yday, date, 0);
    D.DayZeroNumber(date.year, date.month, date.day);
    FieldsAt(date, -32073, 0, 0, 0);
    EarlierDay(seconds, DayOf(seconds), -32073);
  }

  lemma EarlierDay(seconds: int, number: int, other: int)
    requires DayOf(seconds) == number && SecondOf(seconds) == 0 && other != number
    ensures (other - D.EPOCH_DAY) * SECONDS_PER_DAY != seconds
  {}

  lemma ClockRange(seconds: int, yday: bool)
    ensures 0 <= Utc(seconds, yday).tm_hour < 24
    ensures 0 <= Utc(seconds, yday).tm_min < 60 && 0 <= Utc(seconds, yday).tm_sec < 60
  {
    ClockParts(SecondOf(seconds));
  }

  /** The day of the week, counted from a Thursday, 1 January 1970; from the day before day number 0 on. */
  lemma WeekDayOf(seconds: int, yday: bool)
    requires DayOf(seconds) >= -1
    ensures Utc(seconds, yday).tm_wday == (seconds / 86400 + 4) % 7
  {
    WeekDayNumber(seconds / 86400, DayOf(seconds));
  }

  lemma WeekDayNumber(days: int, number: int)
    requires number == days + 2440588 && number >= -1
    ensures D.WeekDay(number) == (days + 4) % 7
  {}

  predicate ClockTime(hour: int, minute: int, second: int) {
    0 <= hour < 24 && 0 <= minute < 60 && 0 <= second < 60
  }

  lemma ClockReadsBack(day: int, hour: int, minute: int, second: int, seconds: int)
    requires ClockTime(hour, minute, second)
    requires seconds == (day - D.EPOCH_DAY) * SECONDS_PER_DAY + (hour * 3600 + minute * 60 + second)
    ensures DayOf(seconds) == day && SecondOf(seconds) == hour * 3600 + minute * 60 + second
  {}

  lemma ClockDigits(hour: int, minute: int, second: int)
    requires ClockTime(hour, minute, second)
    ensures var t := hour * 3600 + minute * 60 + second;
            t / 3600 == hour && t / 60 % 60 == minute && t % 60 == second
  {
    var t := hour * 3600 + minute * 60 + second;
    assert t / 60 == hour * 60 + minute;
  }

  lemma UtcOf(seconds: int, number: int, clock: int, date: D.YearMonthDay, yday: bool)
    requires DayOf(seconds) == number && SecondOf(seconds) == clock && D.GetYearMonthDay(number) == date
    ensures var utc := Utc(seconds, yday);
            && D.YearMonthDay(utc.tm_year + 1900, utc.tm_mon + 1, utc.tm_mday) == date
            && utc.tm_hour == clock / 3600 && utc.tm_min == clock / 60 % 60 && utc.tm_sec == clock % 60
  {}

  predicate Shows(utc: Tm, date: D.YearMonthDay, hour: int, minute: int, second: int) {
    && D.YearMonthDay(utc.tm_year + 1900, utc.tm_mon + 1, utc.tm_mday) == date
    && utc.tm_hour == hour && utc.tm_min == minute && utc.tm_sec == second
  }

  lemma FieldsOf(seconds: int, number: int, date: D.YearMonthDay, hour: int, minute: int, second: int, yday: bool)
    requires ClockTime(hour, minute, second) && D.GetYearMonthDay(number) == date
    requires seconds == (number - D.EPOCH_DAY) * SECONDS_PER_DAY + (hour * 3600 + minute * 60 + second)
    ensures Shows(Utc(seconds, yday), date, hour, minute, second)
  {
    ClockReadsBack(number, hour, minute, second, seconds);
    ClockDigits(hour, minute, second);
    UtcOf(seconds, number, hour * 3600 + minute * 60 + second, date, yday);
  }

  lemma TimeOfDayShows(date: D.YearMonthDay, hour: int, minute: int, second: int, yday: bool)
    requires D.ValidDate(date) && D.Counted(date) && ClockTime(hour, minute, second)
    ensures Shows(Utc(FromUtcFields(date.year, date.month, date.day, hour, minute, second), yday), date, hour, minute, second)
  {
    D.CountedReadsBack(date, Number(date));
    FieldsOf(FromUtcFields(date.year, date.month, date.day, hour, minute, second), Number(date), date,
             hour, minute, second, yday);
  }

  lemma ShownInRange(seconds: int, date: D.YearMonthDay, hour: int, minute: int, second: int, yday: bool)
    requires Shows(Utc(seconds, yday), date, hour, minute, second)
    ensures 0 <= hour < 24 && 0 <= minute < 60 && 0 <= second < 60
  {
    ClockRange(seconds, yday);
  }

  /** And every date from then on, with every time of day and no other. */
  lemma FieldsRoundTrip(date: D.YearMonthDay, hour: int, minute: int, second: int, yday: bool)
    requires D.ValidDate(date) && D.Counted(date)
    ensures Shows(Utc(FromUtcFields(date.year, date.month, date.day, hour, minute, second), yday), date, hour, minute, second)
            <==> 0 <= hour < 24 && 0 <= minute < 60 && 0 <= second < 60
  {
    var seconds := FromUtcFields(date.year, date.month, date.day, hour, minute, second);
    if ClockTime(hour, minute, second) {
      TimeOfDayShows(date, hour, minute, second, yday);
    } else if Shows(Utc(seconds, yday), date, hour, minute, second) {
      ShownInRange(seconds, date, hour, minute, second, yday);
    }
  }

  function DaysBefore(year: int, month: nat): int {
    if month <= 1 then 0 else DaysBefore(year, month - 1) + D.DaysInMonth(year, month - 1)
  }

  function DayOfYear(date: D.YearMonthDay): int
    requires 1 <= date.month
  {
    DaysBefore(date.year, date.month) + date.day - 1
  }

  lemma MonthLater(year: int, month: int)
    requires 1 <= month < 12 && D.Counted(D.YearMonthDay(year, month, 1))
    ensures D.JulianDayNumber(year, month + 1, 1) == D.JulianDayNumber(year, month, 1) + D.DaysInMonth(year, month)
  {
    var last := D.YearMonthDay(year, month, D.DaysInMonth(year, month));
    D.NextDayNextNumber(last);
    DayLater(year, month, last.day);
  }

  lemma DayLater(year: int, month: int, day: int)
    ensures D.JulianDayNumber(year, month, day) == D.JulianDayNumber(year, month, 1) + day - 1
  {}

  lemma {:induction false} MonthNumber(year: int, from: nat, month: nat)
    requires 1 <= from <= month <= 12 && D.Counted(D.YearMonthDay(year, from, 1))
    ensures D.JulianDayNumber(year, month, 1) - D.JulianDayNumber(year, from, 1)
            == DaysBefore(year, month) - DaysBefore(year, from)
  {
    if from < month {
      MonthNumber(year, from, month - 1);
      MonthLater(year, month - 1);
    }
  }

  /** tm_yday counts the days since 1 January, except that in the year -4800, whose January the formulas do not reach, it
      is one day short. */
  lemma YearDay(seconds: int)
    requires InRange(seconds)
    ensures var date := D.GetYearMonthDay(DayOf(seconds));
            date.month >= 1 && Utc(seconds, true).tm_yday == DayOfYear(date) - if date.year == -4800 then 1 else 0
  {
    D.NumberRoundTrip(DayOf(seconds));
    var date := D.GetYearMonthDay(DayOf(seconds));
    DayLater(date.year, date.month, date.day);
    if date.year > -4800 {
      MonthNumber(date.year, 1, date.month);
    } else {
      MonthNumber(date.year, 3, date.month);
      January(date.year);
    }
  }

  lemma January(year: int)
    requires year == -4800
    ensures D.JulianDayNumber(year, 3, 1) - D.JulianDayNumber(year, 1, 1) == DaysBefore(year, 3) - 1
  {}

  /** The day of the year runs from 0 to 365, and a date that reads back is a date of the calendar. */
  lemma YearDayRange(seconds: int)
    requires InRange(seconds)
    ensures 0 <= Utc(seconds, true).tm_yday <= 365
    ensures D.ValidDate(D.GetYearMonthDay(DayOf(seconds)))
  {
    YearDay(seconds);
    D.NumberRoundTrip(DayOf(seconds));
    var date := D.GetYearMonthDay(DayOf(seconds));
    MonthsBefore(date.year, date.month);
  }

  lemma MonthsBefore(year: int, month: nat)
    requires 1 <= month <= 12
    ensures 0 <= DaysBefore(year, month) <= 366 - D.DaysInMonth(year, month)
    ensures month >= 3 ==> DaysBefore(year, month) >= 59
  {
    if month > 1 {
      MonthsBeforeUpTo(year, month);
    }
  }

  lemma {:induction false} MonthsBeforeUpTo(year: int, month: nat)
    requires 1 <= month <= 12
    ensures 28 * (month - 1) <= DaysBefore(year, month)
    ensures month >= 3 ==> DaysBefore(year, month) == (if D.Leap(year) then 60 else 59) + D.MonthStart(month - 3)
  {
    if month > 1 {
      MonthsBeforeUpTo(year, month - 1);
    }
  }

  // Zones.

  datatype Transition = Transition(gmttime: int, localtime: int, localtimeIdx: nat)

  datatype Localtime = Localtime(gmtOffset: int, isDst: bool)

  datatype Data = Data(transitions: seq<Transition>, localtimes: seq<Localtime>)

  /** The field that Comp looks at. */
  function Key(t: Transition, compareGmt: bool): int {
    if compareGmt then t.gmttime else t.localtime
  }

  function Keys(ts: seq<Transition>, compareGmt: bool): (keys: seq<int>)
    ensures |keys| == |ts|
  {
    seq(|ts|, i requires 0 <= i < |ts| => Key(ts[i], compareGmt))
  }

  predicate Wellformed(data: Data) {
    data.localtimes != [] && forall i :: 0 <= i < |data.transitions| ==> data.transitions[i].localtimeIdx < |data.localtimes|
  }

  predicate Ascending(keys: seq<int>) {
    forall i, j :: 0 <= i < j < |keys| ==> keys[i] <= keys[j]
  }

  predicate Increasing(keys: seq<int>) {
    forall i, j :: 0 <= i < j < |keys| ==> keys[i] < keys[j]
  }

  /** The last key that is at most `x`, found by looking at all of them; -1 if there is none. */
  function LastAtMost(keys: seq<int>, x: int): (k: int)
    ensures -1 <= k < |keys|
    ensures k >= 0 ==> keys[k] <= x
    ensures forall i :: k < i < |keys| ==> keys[i] > x
  {
    if keys == [] then -1
    else if keys[|keys| - 1] <= x then |keys| - 1
    else LastAtMost(keys[..|keys| - 1], x)
  }

  function InForce(data: Data, k: int): Localtime
    requires Wellformed(data) && -1 <= k < |data.transitions|
  {
    if k == -1 then data.localtimes[0] else data.localtimes[data.transitions[k].localtimeIdx]
  }

  /** Where std::lower_bound ends when it halves the stretch of `len` keys from `first` on, whatever their order: between
      a key below `x` and one that is not. */
  function Halve(keys: seq<int>, x: int, first: nat, len: nat): (k: nat)
    requires first + len <= |keys|
    ensures first <= k <= first + len
    ensures first < k ==> keys[k - 1] < x
    ensures k < first + len ==> keys[k] >= x
    decreases len
  {
    if len == 0 then first
    else if keys[first + len / 2] < x then Halve(keys, x, first + len / 2 + 1, len - len / 2 - 1)
    else Halve(keys, x, first, len / 2)
  }

  /** The index that findLocaltime uses, whatever the keys. */
  function Found(keys: seq<int>, x: int): (k: int)
    ensures -1 <= k < |keys|
    ensures k >= 0 ==> keys[k] <= x
  {
    if keys == [] || x < keys[0] then -1 else
    var i := Halve(keys, x, 0, |keys|);
    if i == |keys| then |keys| - 1 else if keys[i] == x then i else i - 1
  }

  /** std::lower_bound */
  method LowerBound(ts: seq<Transition>, x: int, compareGmt: bool) returns (first: nat)
    ensures first == Halve(Keys(ts, compareGmt), x, 0, |ts|)
  {
    first := HalveDown(ts, x, compareGmt, Keys(ts, compareGmt));
  }

  method HalveDown(ts: seq<Transition>, x: int, compareGmt: bool, ghost keys: seq<int>) returns (first: nat)
    requires |keys| == |ts| && forall i :: 0 <= i < |ts| ==> keys[i] == Key(ts[i], compareGmt)
    ensures first == Halve(keys, x, 0, |ts|)
  {
    first := 0;
    var len := |ts|;
    while len > 0
      invariant 0 <= first <= first + len <= |ts|
      invariant Halve(keys, x, first, len) == Halve(keys, x, 0, |ts|)
    {
      var half := len / 2;
      var middle := first + half;
      HalveStep(keys, x, first, len, half);
      if Key(ts[middle], compareGmt) < x {
        first := middle + 1;
        len := len - half - 1;
      } else {
        len := half;
      }
    }
  }

  lemma HalveStep(keys: seq<int>, x: int, first: nat, len: nat, half: nat)
    requires first + len <= |keys| && len > 0 && half == len / 2
    ensures Halve(keys, x, first, len)
            == if keys[first + half] < x then Halve(keys, x, first + half + 1, len - half - 1)
               else Halve(keys, x, first, half)
  {}

  /** On ascending keys it parts those below `x` from the others. */
  lemma HalveParts(keys: seq<int>, x: int, i: nat)
    requires Ascending(keys) && i < |keys|
    ensures i < Halve(keys, x, 0, |keys|) <==> keys[i] < x
  {
    Parts(keys, x, Halve(keys, x, 0, |keys|), i);
  }

  lemma Parts(keys: seq<int>, x: int, k: nat, i: nat)
    requires Ascending(keys) && i < |keys| && k <= |keys|
    requires 0 < k ==> keys[k - 1] < x
    requires k < |keys| ==> keys[k] >= x
    ensures i < k <==> keys[i] < x
  {}

  /** findLocaltime; `sentry` is the key that it looks for. */
  method FindLocaltime(data: Data, sentry: int, compareGmt: bool) returns (local: Localtime)
    requires Wellformed(data)
    ensures local == if compareGmt then LocalAt(data, sentry) else LocalOf(data, sentry)
    ensures Increasing(Keys(data.transitions, compareGmt)) ==>
              local == InForce(data, LastAtMost(Keys(data.transitions, compareGmt), sentry))
  {
    var transI := FindTransition(data.transitions, sentry, compareGmt);
    if Increasing(Keys(data.transitions, compareGmt)) {
      FoundByScan(Keys(data.transitions, compareGmt), sentry);
    }
    local := if transI == -1 then data.localtimes[0] else data.localtimes[data.transitions[transI].localtimeIdx];
  }

  /** The branches of findLocaltime: -1 for the first local time. */
  method FindTransition(ts: seq<Transition>, sentry: int, compareGmt: bool) returns (transI: int)
    ensures transI == Found(Keys(ts, compareGmt), sentry)
  {
    if ts == [] || sentry < Key(ts[0], compareGmt) {
      return -1;
    }
    transI := LowerBound(ts, sentry, compareGmt);
    if transI != |ts| {
      if sentry != Key(ts[transI], compareGmt) {
        assert transI != 0;
        transI := transI - 1;
      }
    } else {
      transI := |ts| - 1;
    }
  }

  function LocalAt(data: Data, seconds: int): Localtime
    requires Wellformed(data)
  {
    InForce(data, Found(Keys(data.transitions, true), seconds))
  }

  function LocalOf(data: Data, localSeconds: int): Localtime
    requires Wellformed(data)
  {
    InForce(data, Found(Keys(data.transitions, false), localSeconds))
  }

  /** The zone as two functions, from UTC and from local seconds to what is in force. */
  function At(data: Data): int -> Localtime
    requires Wellformed(data)
  {
    s => LocalAt(data, s)
  }

  function Of(data: Data): int -> Localtime
    requires Wellformed(data)
  {
    s => LocalOf(data, s)
  }

  function Stamped(tm: Tm, local: Localtime): Tm { tm.(tm_isdst := local.isDst, tm_gmtoff := local.gmtOffset) }

  function Shown(utc: int -> Tm, at: int -> Localtime, seconds: int): Tm {
    Stamped(utc(seconds + at(seconds).gmtOffset), at(seconds))
  }

  predicate LooksLike(tryTm: Tm, tm: Tm) {
    !tryTm.tm_isdst && tryTm.tm_hour == tm.tm_hour && tryTm.tm_min == tm.tm_min
  }

  /** The hour that is taken off when the fields say daylight saving, and standard time shows the same clock. */
  function Hack(utc: int -> Tm, at: int -> Localtime, tm: Tm, seconds: int): int {
    if tm.tm_isdst && LooksLike(Shown(utc, at, seconds), tm) then 3600 else 0
  }

  function Resolved(utc: int -> Tm, at: int -> Localtime, tm: Tm, seconds: int): int {
    seconds - Hack(utc, at, tm, seconds)
  }

  function WithoutOffset(of: int -> Localtime, seconds: int): int { seconds - of(seconds).gmtOffset }

  function Read(utc: int -> Tm, number: Tm -> int, at: int -> Localtime, of: int -> Localtime, tm: Tm): int {
    Resolved(utc, at, tm, WithoutOffset(of, number(tm)))
  }

  function UtcTm(seconds: int): Tm { Utc(seconds, true) }

  /** What toLocalTime is to compute; gmtime and timegm are toUtcTime and fromUtcTime. */
  function Local(data: Data, seconds: int): Tm
    requires Wellformed(data)
  {
    Shown(UtcTm, At(data), seconds)
  }

  /** What fromLocalTime is to compute. */
  function FromLocal(data: Data, tm: Tm): int
    requires Wellformed(data)
  {
    Read(UtcTm, FromUtcTime, At(data), Of(data), tm)
  }

  method ToLocalTime(data: Data, seconds: int) returns (localTime: Tm)
    requires Wellformed(data)
    ensures localTime == Local(data, seconds)
  {
    var local := FindLocaltime(data, seconds, true);
    localTime := FillLocal(seconds, local, At(data));
  }

  method FillLocal(seconds: int, local: Localtime, ghost at: int -> Localtime) returns (localTime: Tm)
    requires local == at(seconds)
    ensures localTime == Shown(UtcTm, at, seconds)
  {
    var localSeconds := seconds + local.gmtOffset;
    localTime := ToUtcTime(localSeconds, true);
    localTime := localTime.(tm_isdst := local.isDst);
    localTime := localTime.(tm_gmtoff := local.gmtOffset);
  }

  method FromLocalTime(data: Data, localTm: Tm) returns (result: int)
    requires Wellformed(data)
    ensures result == FromLocal(data, localTm)
  {
    var seconds := TakeOffset(data, FromUtcTime(localTm));
    result := Resolve(data, localTm, seconds);
  }

  /** fromLocalTime behind its call of timegm, */
  method TakeOffset(data: Data, seconds: int) returns (utcSeconds: int)
    requires Wellformed(data)
    ensures utcSeconds == WithoutOffset(Of(data), seconds)
  {
    var local := FindLocaltime(data, seconds, false);
    utcSeconds := seconds - local.gmtOffset;
  }

  /** and behind its call of findLocaltime. */
  method Resolve(data: Data, localTm: Tm, seconds: int) returns (result: int)
    requires Wellformed(data)
    ensures result == Resolved(UtcTm, At(data), localTm, seconds)
  {
    var hour := HourToTakeOff(data, localTm, seconds);
    result := seconds - hour;
  }

  method HourToTakeOff(data: Data, localTm: Tm, seconds: int) returns (hour: int)
    requires Wellformed(data)
    ensures hour == Hack(UtcTm, At(data), localTm, seconds)
  {
    hour := 0;
    if localTm.tm_isdst {
      var standard := TryStandard(data, seconds, localTm);
      if standard {
        hour := 3600;
      }
    }
  }

  method TryStandard(data: Data, seconds: int, localTm: Tm) returns (standard: bool)
    requires Wellformed(data)
    ensures standard == LooksLike(Shown(UtcTm, At(data), seconds), localTm)
  {
    var tryTm := ToLocalTime(data, seconds);
    standard := !tryTm.tm_isdst && tryTm.tm_hour == localTm.tm_hour && tryTm.tm_min == localTm.tm_min;
  }

  /** A zone that starts in standard time and turns to daylight saving, `shift` seconds ahead, and back, in turns that
      last longer than the shift. */
  predicate Alternating(data: Data, standard: int, shift: int) {
    && Wellformed(data) && shift > 0
    && data.localtimes[0] == Localtime(standard, false)
    && (forall i :: 0 <= i < |data.transitions| ==>
          && InForce(data, i) == (if i % 2 == 0 then Localtime(standard + shift, true) else Localtime(standard, false))
          && data.transitions[i].localtime == data.transitions[i].gmttime + InForce(data, i).gmtOffset)
    && (forall i :: 0 <= i < |data.transitions| - 1 ==>
          data.transitions[i].gmttime + shift < data.transitions[i + 1].gmttime)
  }

  /** The last stretch of daylight saving, whose local times come again in standard time. */
  predicate Repeated(data: Data, shift: int, seconds: int)
    requires Wellformed(data)
  {
    var k := LastAtMost(Keys(data.transitions, true), seconds);
    k + 1 < |data.transitions| && InForce(data, k).isDst && data.transitions[k + 1].gmttime - shift <= seconds
  }

  lemma LastAtMostIs(keys: seq<int>, x: int, k: int)
    requires -1 <= k < |keys|
    requires k >= 0 ==> keys[k] <= x
    requires forall i :: k < i < |keys| ==> keys[i] > x
    ensures LastAtMost(keys, x) == k
  {}

  lemma {:induction false} Apart(data: Data, standard: int, shift: int, i: nat, j: nat)
    requires Alternating(data, standard, shift) && i < j < |data.transitions|
    ensures data.transitions[i].gmttime + shift < data.transitions[j].gmttime
    ensures data.transitions[i].localtime < data.transitions[j].localtime
  {
    if i + 1 < j {
      Apart(data, standard, shift, i, j - 1);
      assert data.transitions[j - 1].gmttime + shift < data.transitions[j - 1 + 1].gmttime;
    }
  }

  /** The keys of such a zone are strictly increasing, in UTC and in local time. */
  lemma ZoneKeys(data: Data, standard: int, shift: int, compareGmt: bool)
    requires Alternating(data, standard, shift)
    ensures Increasing(Keys(data.transitions, compareGmt))
  {
    forall i, j | 0 <= i < j < |data.transitions|
      ensures Keys(data.transitions, compareGmt)[i] < Keys(data.transitions, compareGmt)[j]
    {
      Apart(data, standard, shift, i, j);
    }
  }

  /** Where the scan ends on increasing keys is decided by its neighbours. */
  lemma ScanEnds(keys: seq<int>, x: int, k: int)
    requires Increasing(keys) && -1 <= k < |keys|
    requires k >= 0 ==> keys[k] <= x
    requires k + 1 < |keys| ==> keys[k + 1] > x
    ensures LastAtMost(keys, x) == k
  {
    LastAtMostIs(keys, x, k);
  }

  /** What an alternating zone says about one transition and the next. */
  predicate TurnAt(gmt: seq<int>, local: seq<int>, standard: int, shift: int, i: int) {
    && |gmt| == |local|
    && (0 <= i < |gmt| ==> local[i] == gmt[i] + OffsetAt(standard, shift, i))
    && (0 <= i < |gmt| - 1 ==> gmt[i] + shift < gmt[i + 1])
  }

  function OffsetAt(standard: int, shift: int, i: int): int {
    if i >= 0 && i % 2 == 0 then standard + shift else standard
  }

  lemma ZoneTurns(data: Data, standard: int, shift: int, i: int)
    requires Alternating(data, standard, shift) && -1 <= i
    ensures TurnAt(Keys(data.transitions, true), Keys(data.transitions, false), standard, shift, i)
    ensures i < |data.transitions| ==>
              InForce(data, i) == Localtime(OffsetAt(standard, shift, i), i >= 0 && i % 2 == 0)
  {}

  /** The local key that a local time falls behind: that of the transition in force, or in the repeated stretch the one
      after it. */
  lemma LocalScan(gmt: seq<int>, local: seq<int>, standard: int, shift: int, seconds: int, k: int)
    requires Increasing(local) && shift > 0 && -1 <= k < |gmt|
    requires forall i :: k <= i <= k + 2 ==> TurnAt(gmt, local, standard, shift, i)
    requires k >= 0 ==> gmt[k] <= seconds
    requires k + 1 < |gmt| ==> gmt[k + 1] > seconds
    ensures LastAtMost(local, seconds + OffsetAt(standard, shift, k))
            == if k + 1 < |gmt| && k % 2 == 0 && gmt[k + 1] - shift <= seconds then k + 1 else k
  {
    assert TurnAt(gmt, local, standard, shift, k);
    assert TurnAt(gmt, local, standard, shift, k + 1);
    assert TurnAt(gmt, local, standard, shift, k + 2);
    var j := if k + 1 < |gmt| && k % 2 == 0 && gmt[k + 1] - shift <= seconds then k + 1 else k;
    ScanEnds(local, seconds + OffsetAt(standard, shift, k), j);
  }

  lemma LocalIndex(data: Data, standard: int, shift: int, seconds: int, k: int)
    requires Alternating(data, standard, shift) && k == LastAtMost(Keys(data.transitions, true), seconds)
    ensures LastAtMost(Keys(data.transitions, false), seconds + InForce(data, k).gmtOffset)
            == if Repeated(data, shift, seconds) then k + 1 else k
  {
    var gmt, local := Keys(data.transitions, true), Keys(data.transitions, false);
    ZoneKeys(data, standard, shift, false);
    forall i | k <= i <= k + 2 ensures TurnAt(gmt, local, standard, shift, i) {
      ZoneTurns(data, standard, shift, i);
    }
    ZoneTurns(data, standard, shift, k);
    LocalScan(gmt, local, standard, shift, seconds, k);
  }

  lemma ScanLater(gmt: seq<int>, local: seq<int>, standard: int, shift: int, seconds: int, k: int)
    requires Increasing(gmt) && -1 <= k && k + 1 < |gmt| && gmt[k + 1] - shift <= seconds < gmt[k + 1]
    requires TurnAt(gmt, local, standard, shift, k + 1)
    ensures LastAtMost(gmt, seconds + shift) == k + 1
  {
    ScanEnds(gmt, seconds + shift, k + 1);
  }

  lemma AfterRepeated(data: Data, standard: int, shift: int, seconds: int, k: int)
    requires Alternating(data, standard, shift) && k == LastAtMost(Keys(data.transitions, true), seconds)
    requires Repeated(data, shift, seconds)
    ensures InForce(data, k) == Localtime(standard + shift, true)
    ensures InForce(data, k + 1) == Localtime(standard, false)
    ensures LastAtMost(Keys(data.transitions, true), seconds + shift) == k + 1
  {
    ZoneTurns(data, standard, shift, k);
    ZoneTurns(data, standard, shift, k + 1);
    ZoneKeys(data, standard, shift, true);
    ScanLater(Keys(data.transitions, true), Keys(data.transitions, false), standard, shift, seconds, k);
  }

  /** Both searches find what a scan of the keys finds. */
  ghost predicate Scans(data: Data, compareGmt: bool, find: int -> Localtime)
    requires Wellformed(data)
  {
    forall x :: find(x) == InForce(data, LastAtMost(Keys(data.transitions, compareGmt), x))
  }

  lemma AtScans(data: Data)
    requires Wellformed(data) && Increasing(Keys(data.transitions, true))
    ensures Scans(data, true, At(data))
  {
    forall x ensures At(data)(x) == InForce(data, LastAtMost(Keys(data.transitions, true), x)) {
      FoundByScan(Keys(data.transitions, true), x);
    }
  }

  lemma OfScans(data: Data)
    requires Wellformed(data) && Increasing(Keys(data.transitions, false))
    ensures Scans(data, false, Of(data))
  {
    forall x ensures Of(data)(x) == InForce(data, LastAtMost(Keys(data.transitions, false), x)) {
      FoundByScan(Keys(data.transitions, false), x);
    }
  }

  lemma ScanFinds(data: Data, compareGmt: bool, find: int -> Localtime, x: int, k: int)
    requires Wellformed(data) && Scans(data, compareGmt, find) && k == LastAtMost(Keys(data.transitions, compareGmt), x)
    ensures find(x) == InForce(data, k)
  {}

  /** What is in force at a second, and for the local time that it shows. */
  lemma OrdinaryOffset(data: Data, seconds: int, k: int, at: int -> Localtime, of: int -> Localtime)
    requires Wellformed(data) && Scans(data, true, at) && Scans(data, false, of)
    requires k == LastAtMost(Keys(data.transitions, true), seconds)
    requires k == LastAtMost(Keys(data.transitions, false), seconds + InForce(data, k).gmtOffset)
    ensures of(seconds + at(seconds).gmtOffset) == at(seconds)
  {
    ScanFinds(data, true, at, seconds, k);
    ScanFinds(data, false, of, seconds + InForce(data, k).gmtOffset, k);
  }

  lemma RepeatedOffset(data: Data, standard: int, shift: int, seconds: int, at: int -> Localtime)
    requires Alternating(data, standard, shift) && Scans(data, true, at)
    requires Repeated(data, shift, seconds)
    ensures at(seconds) == Localtime(standard + shift, true) && at(seconds + shift) == Localtime(standard, false)
  {
    var k := LastAtMost(Keys(data.transitions, true), seconds);
    AfterRepeated(data, standard, shift, seconds, k);
    ScanFinds(data, true, at, seconds, k);
    ScanFinds(data, true, at, seconds + shift, k + 1);
  }

  lemma RepeatedIndex(data: Data, standard: int, shift: int, seconds: int, k: int)
    requires Alternating(data, standard, shift) && k == LastAtMost(Keys(data.transitions, true), seconds)
    requires Repeated(data, shift, seconds)
    ensures k + 1 < |data.transitions| && InForce(data, k + 1) == Localtime(standard, false)
    ensures k + 1 == LastAtMost(Keys(data.transitions, false), seconds + (standard + shift))
  {
    AfterRepeated(data, standard, shift, seconds, k);
    LocalIndex(data, standard, shift, seconds, k);
  }

  lemma RepeatedLocal(data: Data, standard: int, shift: int, seconds: int, of: int -> Localtime)
    requires Alternating(data, standard, shift) && Scans(data, false, of)
    requires Repeated(data, shift, seconds)
    ensures of(seconds + (standard + shift)) == Localtime(standard, false)
  {
    var k := LastAtMost(Keys(data.transitions, true), seconds);
    RepeatedIndex(data, standard, shift, seconds, k);
    ScanFinds(data, false, of, seconds + (standard + shift), k + 1);
  }

  lemma SameFields(utc: Tm, local: Localtime)
    ensures FromUtcTime(Stamped(utc, local)) == FromUtcTime(utc)
  {}

  /** The fields of a local time, read as UTC. */
  ghost predicate ReadsBack(utc: int -> Tm, number: Tm -> int) {
    forall shown, local :: InRange(shown) ==> number(Stamped(utc(shown), local)) == shown
  }

  lemma UtcReadsBack()
    ensures ReadsBack(UtcTm, FromUtcTime)
  {
    forall shown, local | InRange(shown) ensures FromUtcTime(Stamped(UtcTm(shown), local)) == shown {
      UtcRoundTrip(shown, true);
      SameFields(Utc(shown, true), local);
    }
  }

  /** What tm_gmtoff says is how far the fields are ahead of UTC. */
  lemma OffsetShown(data: Data, seconds: int)
    requires Wellformed(data) && InRange(seconds + LocalAt(data, seconds).gmtOffset)
    ensures FromUtcTime(Local(data, seconds)) == seconds + Local(data, seconds).tm_gmtoff
  {
    UtcReadsBack();
    OffsetOf(UtcTm, FromUtcTime, At(data), seconds);
  }

  lemma OffsetOf(utc: int -> Tm, number: Tm -> int, at: int -> Localtime, seconds: int)
    requires ReadsBack(utc, number) && InRange(seconds + at(seconds).gmtOffset)
    ensures number(Shown(utc, at, seconds)) == seconds + Shown(utc, at, seconds).tm_gmtoff
  {
    assert number(Stamped(utc(seconds + at(seconds).gmtOffset), at(seconds))) == seconds + at(seconds).gmtOffset;
  }

  /** In a zone with daylight saving the flag and the offset tell it from standard time: it is in force from every other
      transition on. */
  lemma ZoneShown(data: Data, standard: int, shift: int, seconds: int)
    requires Alternating(data, standard, shift)
    ensures var k := LastAtMost(Keys(data.transitions, true), seconds);
            && (Local(data, seconds).tm_isdst <==> k >= 0 && k % 2 == 0)
            && Local(data, seconds).tm_gmtoff == standard + if Local(data, seconds).tm_isdst then shift else 0
  {
    var k := LastAtMost(Keys(data.transitions, true), seconds);
    ZoneKeys(data, standard, shift, true);
    ZoneTurns(data, standard, shift, k);
    AtScans(data);
    ScanFinds(data, true, At(data), seconds, k);
    ShownFlags(UtcTm, At(data), seconds, InForce(data, k));
  }

  lemma ShownFlags(utc: int -> Tm, at: int -> Localtime, seconds: int, local: Localtime)
    requires at(seconds) == local
    ensures Shown(utc, at, seconds).tm_isdst == local.isDst && Shown(utc, at, seconds).tm_gmtoff == local.gmtOffset
  {}

  /** The clock that a second shows. */
  ghost predicate Clocked(utc: int -> Tm) {
    forall x :: utc(x).tm_hour == x % 86400 / 3600 && utc(x).tm_min == x % 86400 / 60 % 60
  }

  lemma UtcClocked()
    ensures Clocked(UtcTm)
  {}

  lemma ResolvedIs(utc: int -> Tm, at: int -> Localtime, tm: Tm, back: int)
    requires Clocked(utc)
    ensures var shown := (back + at(back).gmtOffset) % 86400;
            Resolved(utc, at, tm, back)
            == if tm.tm_isdst && !at(back).isDst && shown / 3600 == tm.tm_hour && shown / 60 % 60 == tm.tm_min
               then back - 3600 else back
  {}

  /** What fromLocalTime makes of any fields: the offset found for them as local time is taken off, and an hour more if they
      say daylight saving, but it is standard time then and shows the same hour and minute. */
  lemma FromLocalIs(data: Data, tm: Tm, back: int)
    requires Wellformed(data) && back == WithoutOffset(Of(data), FromUtcTime(tm))
    ensures var shown := (back + At(data)(back).gmtOffset) % 86400;
            FromLocal(data, tm)
            == if tm.tm_isdst && !At(data)(back).isDst && shown / 3600 == tm.tm_hour && shown / 60 % 60 == tm.tm_min
               then back - 3600 else back
  {
    UtcClocked();
    ResolvedIs(UtcTm, At(data), tm, back);
  }

  lemma OrdinaryReads(utc: int -> Tm, at: int -> Localtime, seconds: int)
    ensures Resolved(utc, at, Shown(utc, at, seconds), seconds) == seconds
  {}

  /** The standard time that shows the same clock is found, whatever the shift. */
  lemma RepeatedReads(utc: int -> Tm, at: int -> Localtime, seconds: int, standard: int, shift: int)
    requires at(seconds) == Localtime(standard + shift, true) && at(seconds + shift) == Localtime(standard, false)
    ensures Resolved(utc, at, Shown(utc, at, seconds), seconds + shift) == seconds + shift - 3600
  {
    assert seconds + shift + standard == seconds + (standard + shift);
  }

  /** One second, from its offset and the offset found for its local time. */
  lemma RoundTrip(utc: int -> Tm, number: Tm -> int, at: int -> Localtime, of: int -> Localtime, seconds: int,
                  standard: int, shift: int, repeated: bool)
    requires ReadsBack(utc, number) && InRange(seconds + at(seconds).gmtOffset)
    requires !repeated ==> of(seconds + at(seconds).gmtOffset) == at(seconds)
    requires repeated ==> at(seconds) == Localtime(standard + shift, true) && at(seconds + shift) == Localtime(standard, false)
    requires repeated ==> of(seconds + (standard + shift)) == Localtime(standard, false)
    ensures Read(utc, number, at, of, Shown(utc, at, seconds)) == seconds + if repeated then shift - 3600 else 0
  {
    var shown := seconds + at(seconds).gmtOffset;
    assert number(Stamped(utc(shown), at(seconds))) == shown;
    if repeated {
      RepeatedReads(utc, at, seconds, standard, shift);
      assert shown == seconds + (standard + shift) && WithoutOffset(of, shown) == seconds + shift;
    } else {
      OrdinaryReads(utc, at, seconds);
      assert WithoutOffset(of, shown) == seconds;
    }
  }

  lemma ZoneRoundTrip(data: Data, standard: int, shift: int, seconds: int,
                      utc: int -> Tm, number: Tm -> int, at: int -> Localtime, of: int -> Localtime)
    requires Alternating(data, standard, shift) && Scans(data, true, at) && Scans(data, false, of)
    requires ReadsBack(utc, number) && InRange(seconds + at(seconds).gmtOffset)
    ensures Read(utc, number, at, of, Shown(utc, at, seconds))
            == seconds + if Repeated(data, shift, seconds) then shift - 3600 else 0
  {
    if Repeated(data, shift, seconds) {
      RepeatedOffset(data, standard, shift, seconds, at);
      RepeatedLocal(data, standard, shift, seconds, of);
      RoundTrip(utc, number, at, of, seconds, standard, shift, true);
    } else {
      var k := LastAtMost(Keys(data.transitions, true), seconds);
      LocalIndex(data, standard, shift, seconds, k);
      OrdinaryOffset(data, seconds, k, at, of);
      RoundTrip(utc, number, at, of, seconds, standard, shift, false);
    }
  }

  /** From a second to local time and back: every second comes back as itself, the repeated ones too if the shift is an
      hour; with any other shift exactly these come back wrong, by what the shift differs from an hour. */
  lemma LocalRoundTrip(data: Data, standard: int, shift: int, seconds: int)
    requires Alternating(data, standard, shift) && InRange(seconds + LocalAt(data, seconds).gmtOffset)
    ensures FromLocal(data, Local(data, seconds))
            == seconds + if Repeated(data, shift, seconds) then shift - 3600 else 0
  {
    ZoneKeys(data, standard, shift, true);
    ZoneKeys(data, standard, shift, false);
    AtScans(data);
    OfScans(data);
    UtcReadsBack();
    ZoneRoundTrip(data, standard, shift, seconds, UtcTm, FromUtcTime, At(data), Of(data));
  }

  /** So the zone reads its own local times back exactly when the shift is an hour or no second is repeated. */
  lemma HourShiftReadsBack(data: Data, standard: int, shift: int, seconds: int)
    requires Alternating(data, standard, shift) && InRange(seconds + LocalAt(data, seconds).gmtOffset)
    ensures FromLocal(data, Local(data, seconds)) == seconds <==> shift == 3600 || !Repeated(data, shift, seconds)
  {
    LocalRoundTrip(data, standard, shift, seconds);
  }

  /** Half an hour of daylight saving, from 1000000 to 2000000. */
  const HALF_HOUR := Data(
    [Transition(1000000, 1001800, 1), Transition(2000000, 2000000, 0)],
    [Localtime(0, false), Localtime(1800, true)])

  /** A second that such a zone reads back half an hour early. */
  lemma HalfHourShift()
    ensures Alternating(HALF_HOUR, 0, 1800) && Repeated(HALF_HOUR, 1800, 1999000)
    ensures FromLocal(HALF_HOUR, Local(HALF_HOUR, 1999000)) == 1997200
  {
    HalfHourAlternates();
    HalfHourRepeats();
    HalfHourInRange();
    LocalRoundTrip(HALF_HOUR, 0, 1800, 1999000);
  }

  lemma HalfHourAlternates()
    ensures Alternating(HALF_HOUR, 0, 1800)
  {}

  lemma HalfHourRepeats()
    ensures Repeated(HALF_HOUR, 1800, 1999000)
    ensures LastAtMost(Keys(HALF_HOUR.transitions, true), 1999000) == 0
  {
    LastAtMostIs(Keys(HALF_HOUR.transitions, true), 1999000, 0);
  }

  lemma HalfHourInRange()
    ensures InRange(1999000 + LocalAt(HALF_HOUR, 1999000).gmtOffset)
  {
    NotBehind(HALF_HOUR, 1999000);
    AfterEpoch(1999000 + LocalAt(HALF_HOUR, 1999000).gmtOffset);
  }

  lemma NotBehind(data: Data, seconds: int)
    requires Wellformed(data) && forall local :: local in data.localtimes ==> local.gmtOffset >= 0
    ensures LocalAt(data, seconds).gmtOffset >= 0
  {
    assert LocalAt(data, seconds) in data.localtimes;
  }

  lemma AfterEpoch(seconds: int)
    requires seconds >= 0
    ensures InRange(seconds)
  {}

  lemma FoundByScan(keys: seq<int>, x: int)
    requires Increasing(keys)
    ensures Found(keys, x) == LastAtMost(keys, x)
  {
    ScanEnds(keys, x, Found(keys, x));
  }

  lemma FoundFirstOfEqual(keys: seq<int>, i: nat)
    requires Ascending(keys) && i + 1 < |keys| && keys[i] == keys[i + 1]
    ensures Found(keys, keys[i]) != LastAtMost(keys, keys[i])
  {
    assert LastAtMost(keys, keys[i]) >= i + 1;
    HalveParts(keys, keys[i], i);
  }

  /** On ascending keys the search agrees with the scan, for all there is to look for, if and only if no two keys are
      equal. */
  lemma SearchIsScan(keys: seq<int>)
    requires Ascending(keys)
    ensures (forall x :: Found(keys, x) == LastAtMost(keys, x)) <==> Increasing(keys)
  {
    if Increasing(keys) {
      forall x ensures Found(keys, x) == LastAtMost(keys, x) {
        FoundByScan(keys, x);
      }
    } else {
      var i := EqualNeighbours(keys);
      FoundFirstOfEqual(keys, i);
    }
  }

  /** Of two transitions with the same key the search finds the first, a scan the second. */
  lemma EqualKeysDiffer()
    ensures Found([5, 5], 5) == 0 && LastAtMost([5, 5], 5) == 1
  {
    assert Halve([5, 5], 5, 0, 0) == 0;
    assert Halve([5, 5], 5, 0, 1) == 0;
    LastAtMostIs([5, 5], 5, 1);
  }

  lemma {:induction false} EqualNeighbours(keys: seq<int>) returns (i: nat)
    requires Ascending(keys) && !Increasing(keys)
    ensures i + 1 < |keys| && keys[i] == keys[i + 1]
  {
    var a, b :| 0 <= a < b < |keys| && keys[a] >= keys[b];
    assert keys[a] <= keys[a + 1] <= keys[b];
    i := a;
  }
}

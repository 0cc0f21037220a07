/**
 * Dates and times of day as the pipeline sees them through Python's
 * `datetime`: proleptic Gregorian dates from 01-01-0001 to 31-12-9999,
 * whole-second times of day, the `DD-MM-YYYY` and `HH:MM:SS` text forms that
 * `strftime` writes and `strptime` reads, and day arithmetic by ordinal.
 */
module Calendar {
  import opened Basics
  import opened Text

  datatype Date = Date(day: int, month: int, year: int)

  predicate IsLeap(year: int) {
    year % 4 == 0 && (year % 100 != 0 || year % 400 == 0)
  }

  function DaysInMonth(month: int, year: int): int {
    if month == 2 then (if IsLeap(year) then 29 else 28)
    else if month == 4 || month == 6 || month == 9 || month == 11 then 30
    else 31
  }

  function DaysInYear(year: int): int {
    if IsLeap(year) then 366 else 365
  }

  /** The dates a `datetime.date` can hold. */
  predicate ValidDate(d: Date) {
    1 <= d.year <= 9999 && 1 <= d.month <= 12 && 1 <= d.day <= DaysInMonth(d.month, d.year)
  }

  /** `date.max`: one day later raises `OverflowError`. */
  const MaxDate := Date(31, 12, 9999)

  /** Python orders dates by the tuple (year, month, day). */
  predicate DateLess(a: Date, b: Date) {
    a.year < b.year || (a.year == b.year && (a.month < b.month || (a.month == b.month && a.day < b.day)))
  }

  predicate DateLeq(a: Date, b: Date) {
    a == b || DateLess(a, b)
  }

  // ---------------------------------------------------------------------
  // Ordinals: `date.toordinal()`, 01-01-0001 being day 1
  // ---------------------------------------------------------------------

  function DaysBeforeYear(year: int): int
    requires year >= 1
  {
    var y := year - 1;
    365 * y + y / 4 - y / 100 + y / 400
  }

  function DaysBeforeMonth(month: int, year: int): (n: int)
    requires 1 <= month <= 12
    ensures 0 <= n
  {
    if month == 1 then 0 else DaysBeforeMonth(month - 1, year) + DaysInMonth(month - 1, year)
  }

  function Ordinal(d: Date): int
    requires ValidDate(d)
  {
    DaysBeforeYear(d.year) + DaysBeforeMonth(d.month, d.year) + d.day
  }

  /** `date.weekday()`: 0 is Monday, 6 is Sunday. */
  function Weekday(d: Date): (w: int)
    requires ValidDate(d)
    ensures 0 <= w < 7
  {
    (Ordinal(d) + 6) % 7
  }

  const Saturday := 5
  const Sunday := 6

  lemma DivStep(q: int, k: int)
    requires q >= 1 && (k == 4 || k == 100 || k == 400)
    ensures q / k - (q - 1) / k == if q % k == 0 then 1 else 0
  {
    var a, b := q / k, (q - 1) / k;
    assert k * a <= q < k * a + k;
    assert k * b <= q - 1 < k * b + k;
  }

  /** Centuries are leap candidates, and every fourth century is a century. */
  lemma CenturyDivides(year: int)
    ensures year % 100 == 0 ==> year % 4 == 0
    ensures year % 400 == 0 ==> year % 100 == 0
  {
    if year % 100 == 0 {
      var c := year / 100;
      assert year == 4 * (25 * c);
    }
    if year % 400 == 0 {
      var c := year / 400;
      assert year == 100 * (4 * c);
    }
  }

  lemma DaysBeforeNextYear(year: int)
    requires year >= 1
    ensures DaysBeforeYear(year + 1) == DaysBeforeYear(year) + DaysInYear(year)
  {
    var p := year - 1;
    DivStep(year, 4);
    DivStep(year, 100);
    DivStep(year, 400);
    CenturyDivides(year);
    var d4, d100, d400 := year / 4 - p / 4, year / 100 - p / 100, year / 400 - p / 400;
    assert DaysBeforeYear(year + 1) - DaysBeforeYear(year) == 365 + d4 - d100 + d400;
    assert DaysInYear(year) == 365 + d4 - d100 + d400;
  }

  /** The months of a year add up to the year. */
  lemma MonthsFillYear(year: int)
    ensures DaysBeforeMonth(12, year) + DaysInMonth(12, year) == DaysInYear(year)
  {
    var leap := if IsLeap(year) then 1 else 0;
    assert DaysBeforeMonth(2, year) == 31;
    assert DaysBeforeMonth(3, year) == 59 + leap;
    assert DaysBeforeMonth(4, year) == 90 + leap;
    assert DaysBeforeMonth(5, year) == 120 + leap;
    assert DaysBeforeMonth(6, year) == 151 + leap;
    assert DaysBeforeMonth(7, year) == 181 + leap;
    assert DaysBeforeMonth(8, year) == 212 + leap;
    assert DaysBeforeMonth(9, year) == 243 + leap;
    assert DaysBeforeMonth(10, year) == 273 + leap;
    assert DaysBeforeMonth(11, year) == 304 + leap;
    assert DaysBeforeMonth(12, year) == 334 + leap;
  }

  /** Every day of an earlier month comes before the first of a later one. */
  lemma {:induction false} DaysBeforeMonthGrows(m1: int, m2: int, year: int)
    requires 1 <= m1 < m2 <= 12
    ensures DaysBeforeMonth(m1, year) + DaysInMonth(m1, year) <= DaysBeforeMonth(m2, year)
    decreases m2
  {
    if m1 < m2 - 1 {
      DaysBeforeMonthGrows(m1, m2 - 1, year);
    }
  }

  /** Every day of an earlier year comes before the first of a later one. */
  lemma {:induction false} DaysBeforeYearGrows(y1: int, y2: int)
    requires 1 <= y1 < y2
    ensures DaysBeforeYear(y1) + DaysInYear(y1) <= DaysBeforeYear(y2)
    decreases y2
  {
    DaysBeforeNextYear(y1);
    if y1 < y2 - 1 {
      DaysBeforeYearGrows(y1, y2 - 1);
      DaysBeforeNextYear(y2 - 1);
    }
  }

  /** The days of a date's year before and including it fit in the year. */
  lemma DayWithinYear(d: Date)
    requires ValidDate(d)
    ensures DaysBeforeMonth(d.month, d.year) + d.day <= DaysInYear(d.year)
  {
    MonthsFillYear(d.year);
    if d.month < 12 {
      DaysBeforeMonthGrows(d.month, 12, d.year);
    }
  }

  /** Ordinals follow the calendar order. */
  lemma OrdinalMonotone(a: Date, b: Date)
    requires ValidDate(a) && ValidDate(b)
    ensures DateLess(a, b) <==> Ordinal(a) < Ordinal(b)
  {
    if a.year < b.year {
      DayWithinYear(a);
      DaysBeforeYearGrows(a.year, b.year);
    } else if b.year < a.year {
      DayWithinYear(b);
      DaysBeforeYearGrows(b.year, a.year);
    } else if a.month < b.month {
      DaysBeforeMonthGrows(a.month, b.month, a.year);
    } else if b.month < a.month {
      DaysBeforeMonthGrows(b.month, a.month, a.year);
    }
  }

  /** Two valid dates with the same ordinal are the same date. */
  lemma OrdinalInjective(a: Date, b: Date)
    requires ValidDate(a) && ValidDate(b)
    ensures Ordinal(a) == Ordinal(b) <==> a == b
  {
    OrdinalMonotone(a, b);
    OrdinalMonotone(b, a);
  }

  /** `a <= b` on dates is `<=` on their ordinals. */
  lemma OrdinalOrder(a: Date, b: Date)
    requires ValidDate(a) && ValidDate(b)
    ensures DateLeq(a, b) <==> Ordinal(a) <= Ordinal(b)
  {
    OrdinalMonotone(a, b);
    OrdinalInjective(a, b);
  }

  lemma OrdinalAtMostMax(d: Date)
    requires ValidDate(d)
    ensures Ordinal(d) <= Ordinal(MaxDate)
    ensures Ordinal(d) == Ordinal(MaxDate) ==> d == MaxDate
  {
    OrdinalMonotone(d, MaxDate);
    OrdinalInjective(d, MaxDate);
  }

  /** `d + timedelta(days=1)`, defined below `date.max`. */
  function NextDay(d: Date): (r: Date)
    requires ValidDate(d) && d != MaxDate
    ensures ValidDate(r) && DateLess(d, r)
    ensures Ordinal(r) == Ordinal(d) + 1
  {
    if d.day < DaysInMonth(d.month, d.year) then Date(d.day + 1, d.month, d.year)
    else if d.month < 12 then
      assert DaysBeforeMonth(d.month + 1, d.year) == DaysBeforeMonth(d.month, d.year) + DaysInMonth(d.month, d.year);
      Date(1, d.month + 1, d.year)
    else
      MonthsFillYear(d.year);
      DaysBeforeNextYear(d.year);
      assert DaysBeforeMonth(1, d.year + 1) == 0;
      Date(1, 1, d.year + 1)
  }

  /** `[s + timedelta(k) for k in range(n)]`. */
  function DatesFrom(s: Date, n: nat): (r: seq<Date>)
    requires ValidDate(s) && Ordinal(s) + n <= Ordinal(MaxDate) + 1
    ensures |r| == n
    ensures forall i :: 0 <= i < n ==> ValidDate(r[i]) && Ordinal(r[i]) == Ordinal(s) + i
    decreases n
  {
    if n == 0 then []
    else if n == 1 then [s]
    else
      OrdinalAtMostMax(s);
      [s] + DatesFrom(NextDay(s), n - 1)
  }

  /**
   * The dates `start + timedelta(n)` for `n in range((end - start).days + 1)`:
   * none at all when the end precedes the start.
   */
  function DateRange(start: Date, end: Date): (r: seq<Date>)
    requires ValidDate(start) && ValidDate(end)
    ensures |r| == if Ordinal(end) < Ordinal(start) then 0 else Ordinal(end) - Ordinal(start) + 1
    ensures forall i :: 0 <= i < |r| ==> ValidDate(r[i]) && Ordinal(r[i]) == Ordinal(start) + i
  {
    var n := Ordinal(end) - Ordinal(start) + 1;
    if n <= 0 then []
    else
      OrdinalAtMostMax(end);
      DatesFrom(start, n)
  }

  /** Every date of a range lies between its start and its end. */
  lemma RangeWithinBounds(start: Date, end: Date, x: Date)
    requires ValidDate(start) && ValidDate(end)
    requires x in DateRange(start, end)
    ensures ValidDate(x) && DateLeq(start, x) && DateLeq(x, end)
  {
    var r := DateRange(start, end);
    var i :| 0 <= i < |r| && r[i] == x;
    assert Ordinal(x) == Ordinal(start) + i <= Ordinal(end);
    OrdinalMonotone(start, x);
    OrdinalMonotone(x, end);
    OrdinalInjective(start, x);
    OrdinalInjective(x, end);
  }

  /** Every date between the start and the end, both included, is in the range. */
  lemma RangeCoversBounds(start: Date, end: Date, x: Date)
    requires ValidDate(start) && ValidDate(end)
    requires ValidDate(x) && DateLeq(start, x) && DateLeq(x, end)
    ensures x in DateRange(start, end)
  {
    var r := DateRange(start, end);
    OrdinalMonotone(start, x);
    OrdinalMonotone(x, end);
    var i := Ordinal(x) - Ordinal(start);
    assert 0 <= i < |r|;
    OrdinalInjective(r[i], x);
  }

  /** A range holds exactly the valid dates from its start to its end, both included. */
  lemma RangeMembership(start: Date, end: Date, x: Date)
    requires ValidDate(start) && ValidDate(end)
    ensures x in DateRange(start, end) <==> ValidDate(x) && DateLeq(start, x) && DateLeq(x, end)
  {
    if x in DateRange(start, end) {
      RangeWithinBounds(start, end, x);
    }
    if ValidDate(x) && DateLeq(start, x) && DateLeq(x, end) {
      RangeCoversBounds(start, end, x);
    }
  }

  /** The dates of a range come in strictly ascending calendar order. */
  lemma RangeAscending(start: Date, end: Date, i: int, j: int)
    requires ValidDate(start) && ValidDate(end)
    requires 0 <= i < j < |DateRange(start, end)|
    ensures DateLess(DateRange(start, end)[i], DateRange(start, end)[j])
  {
    var r := DateRange(start, end);
    OrdinalMonotone(r[i], r[j]);
  }

  // ---------------------------------------------------------------------
  // Times of day
  // ---------------------------------------------------------------------

  const SecondsPerDay := 86400

  /** A time of day, in seconds after midnight. */
  type Time = t: int | 0 <= t < 86400

  function MakeTime(h: int, m: int, s: int): (t: Time)
    requires 0 <= h < 24 && 0 <= m < 60 && 0 <= s < 60
  {
    h * 3600 + m * 60 + s
  }

  /** The clock time `secs` seconds after `t`, wrapping past midnight. */
  function Later(t: Time, secs: int): Time
    requires secs >= 0
  {
    (t + secs) % SecondsPerDay
  }

  lemma LaterNoWrap(t: Time, secs: int)
    requires 0 <= secs && t + secs < SecondsPerDay
    ensures Later(t, secs) == t + secs
  {
  }

  lemma LaterWraps(t: Time, secs: int)
    requires 0 <= secs && SecondsPerDay <= t + secs < 2 * SecondsPerDay
    ensures Later(t, secs) == t + secs - SecondsPerDay
  {
    var x := t + secs;
    assert x % SecondsPerDay == x - SecondsPerDay;
  }

  /** Two different shifts under a day never land on the same clock time. */
  lemma LaterDistinct(t: Time, p: int, q: int)
    requires 0 <= p < SecondsPerDay && 0 <= q < SecondsPerDay && p != q
    ensures Later(t, p) != Later(t, q)
  {
    if t + p >= SecondsPerDay {
      LaterWraps(t, p);
    } else {
      LaterNoWrap(t, p);
    }
    if t + q >= SecondsPerDay {
      LaterWraps(t, q);
    } else {
      LaterNoWrap(t, q);
    }
  }

  // ---------------------------------------------------------------------
  // Text forms
  // ---------------------------------------------------------------------

  function Pad2(n: int): (s: string)
    requires 0 <= n < 100
    ensures |s| == 2 && IsDigit(s[0]) && IsDigit(s[1])
    ensures 10 * DigitValue(s[0]) + DigitValue(s[1]) == n
  {
    [DigitChar(n / 10), DigitChar(n % 10)]
  }

  function Pad4(n: int): (s: string)
    requires 0 <= n < 10000
    ensures |s| == 4 && forall i :: 0 <= i < 4 ==> IsDigit(s[i])
    ensures 1000 * DigitValue(s[0]) + 100 * DigitValue(s[1]) + 10 * DigitValue(s[2]) + DigitValue(s[3]) == n
  {
    Pad2(n / 100) + Pad2(n % 100)
  }

  /** The value of the two digits at `s[i]`, `s[i + 1]`. */
  function Value2(s: string, i: int): int
    requires 0 <= i && i + 1 < |s| && IsDigit(s[i]) && IsDigit(s[i + 1])
  {
    10 * DigitValue(s[i]) + DigitValue(s[i + 1])
  }

  function Value4(s: string, i: int): int
    requires 0 <= i && i + 3 < |s| && forall k :: i <= k < i + 4 ==> IsDigit(s[k])
  {
    100 * Value2(s, i) + Value2(s, i + 2)
  }

  /** `d.strftime('%d-%m-%Y')`. */
  function FormatDate(d: Date): (s: string)
    requires ValidDate(d)
    ensures |s| == 10 && s[2] == '-' && s[5] == '-'
  {
    Pad2(d.day) + "-" + Pad2(d.month) + "-" + Pad4(d.year)
  }

  /** `t.strftime('%H:%M:%S')`. */
  function FormatTime(t: Time): (s: string)
    ensures |s| == 8 && s[2] == ':' && s[5] == ':'
  {
    Pad2(t / 3600) + ":" + Pad2(t / 60 % 60) + ":" + Pad2(t % 60)
  }

  /** The shape `DD?MM?YYYY` with digits around two `sep` characters. */
  predicate DateShape(s: string, sep: char) {
    |s| == 10 && s[2] == sep && s[5] == sep
    && forall k :: 0 <= k < 10 && k != 2 && k != 5 ==> IsDigit(s[k])
  }

  /**
   * `datetime.strptime(s, '%d' + sep + '%m' + sep + '%Y')` on zero-padded
   * text; `None` stands for the `ValueError` raised for text of another
   * shape or for a day that does not exist.
   */
  function ParseDateWith(s: string, sep: char): (r: Option<Date>)
    ensures r.Some? ==> ValidDate(r.value)
  {
    if DateShape(s, sep) then
      var d := Date(Value2(s, 0), Value2(s, 3), Value4(s, 6));
      if ValidDate(d) then Some(d) else None
    else None
  }

  /** `strptime(s, '%d-%m-%Y')`. */
  function ParseDate(s: string): (r: Option<Date>)
    ensures r.Some? ==> ValidDate(r.value)
  {
    ParseDateWith(s, '-')
  }

  /**
   * `strptime(s, '%d/%m/%y')`: a two-digit year 69-99 is read as 19xx and
   * 00-68 as 20xx.
   */
  function ParseShortYearDate(s: string): (r: Option<Date>)
    ensures r.Some? ==> ValidDate(r.value)
  {
    if |s| == 8 && s[2] == '/' && s[5] == '/'
       && forall k :: 0 <= k < 8 && k != 2 && k != 5 ==> IsDigit(s[k]) then
      var yy := Value2(s, 6);
      var d := Date(Value2(s, 0), Value2(s, 3), if yy <= 68 then 2000 + yy else 1900 + yy);
      if ValidDate(d) then Some(d) else None
    else None
  }

  /** `strptime(s, '%H:%M:%S')`. */
  function ParseTime(s: string): (r: Option<Time>)
  {
    if |s| == 8 && s[2] == ':' && s[5] == ':'
       && forall k :: 0 <= k < 8 && k != 2 && k != 5 ==> IsDigit(s[k]) then
      var h, m, sec := Value2(s, 0), Value2(s, 3), Value2(s, 6);
      if h < 24 && m < 60 && sec < 60 then Some(MakeTime(h, m, sec)) else None
    else None
  }

  lemma DigitCharValue(c: char)
    requires IsDigit(c)
    ensures DigitChar(DigitValue(c)) == c
  {
  }

  /** Two digits re-padded are the same two digits. */
  lemma Pad2Value(s: string, i: int)
    requires 0 <= i && i + 1 < |s| && IsDigit(s[i]) && IsDigit(s[i + 1])
    ensures Pad2(Value2(s, i)) == s[i..i + 2]
  {
    var a, b := DigitValue(s[i]), DigitValue(s[i + 1]);
    assert (10 * a + b) / 10 == a && (10 * a + b) % 10 == b;
    DigitCharValue(s[i]);
    DigitCharValue(s[i + 1]);
  }

  /** Four digits re-padded are the same four digits. */
  lemma Pad4Value(s: string, i: int)
    requires 0 <= i && i + 3 < |s| && forall k :: i <= k < i + 4 ==> IsDigit(s[k])
    ensures Pad4(Value4(s, i)) == s[i..i + 4]
  {
    var hi, lo := Value2(s, i), Value2(s, i + 2);
    assert (100 * hi + lo) / 100 == hi && (100 * hi + lo) % 100 == lo;
    Pad2Value(s, i);
    Pad2Value(s, i + 2);
    assert s[i..i + 4] == s[i..i + 2] + s[i + 2..i + 4];
  }

  /** Reading back a written date gives the date. */
  lemma ParseFormatDate(d: Date)
    requires ValidDate(d)
    ensures ParseDate(FormatDate(d)) == Some(d)
    ensures ParseDateWith(FormatDate(d), '-') == Some(d)
  {
    var s := FormatDate(d);
    assert s[0..2] == Pad2(d.day) && s[3..5] == Pad2(d.month) && s[6..] == Pad4(d.year);
  }

  /** A date text that parses is the one `strftime` writes for it. */
  lemma FormatParseDate(s: string)
    requires ParseDate(s).Some?
    ensures FormatDate(ParseDate(s).value) == s
  {
    Pad2Value(s, 0);
    Pad2Value(s, 3);
    Pad4Value(s, 6);
    assert s == s[0..2] + "-" + s[3..5] + "-" + s[6..10];
  }

  /** Reading back a written time gives the time. */
  lemma ParseFormatTime(t: Time)
    ensures ParseTime(FormatTime(t)) == Some(t)
  {
    var h, m, sec := t / 3600, t / 60 % 60, t % 60;
    TimeParts(t);
    var s := FormatTime(t);
    assert s[0..2] == Pad2(h) && s[3..5] == Pad2(m) && s[6..] == Pad2(sec);
    assert Value2(s, 0) == h && Value2(s, 3) == m && Value2(s, 6) == sec;
  }

  lemma TimeParts(t: Time)
    ensures t / 3600 < 24 && (t / 3600) * 3600 + (t / 60 % 60) * 60 + t % 60 == t
  {
    assert t / 60 == (t / 3600) * 60 + t / 60 % 60;
  }

  /** A time text that parses is the one `strftime` writes for it. */
  lemma FormatParseTime(s: string)
    requires ParseTime(s).Some?
    ensures FormatTime(ParseTime(s).value) == s
  {
    var t := ParseTime(s).value;
    var h, m, sec := Value2(s, 0), Value2(s, 3), Value2(s, 6);
    assert t == h * 3600 + m * 60 + sec;
    assert t / 3600 == h by {
      assert h * 3600 <= t < (h + 1) * 3600;
    }
    assert t / 60 == h * 60 + m by {
      assert (h * 60 + m) * 60 <= t < (h * 60 + m + 1) * 60;
    }
    assert t / 60 % 60 == m;
    assert t % 60 == sec;
    Pad2Value(s, 0);
    Pad2Value(s, 3);
    Pad2Value(s, 6);
    assert s == s[0..2] + ":" + s[3..5] + ":" + s[6..8];
  }

  /** Distinct times are written differently. */
  lemma FormatTimeInjective(a: Time, b: Time)
    ensures FormatTime(a) == FormatTime(b) <==> a == b
  {
    ParseFormatTime(a);
    ParseFormatTime(b);
  }

  /** Distinct dates are written differently. */
  lemma FormatDateInjective(a: Date, b: Date)
    requires ValidDate(a) && ValidDate(b)
    ensures FormatDate(a) == FormatDate(b) <==> a == b
  {
    ParseFormatDate(a);
    ParseFormatDate(b);
  }

  /** A time of day is never read as a date, nor a date as a time. */
  lemma DateAndTimeTextsDiffer(d: Date, t: Time)
    requires ValidDate(d)
    ensures ParseDate(FormatTime(t)) == None
    ensures ParseTime(FormatDate(d)) == None
  {
  }

  /** No text reads both as a `%d-%m-%Y` date and as a `%H:%M:%S` time. */
  lemma NoTextIsDateAndTime(s: string)
    ensures !(ParseDate(s).Some? && ParseTime(s).Some?)
  {
    if ParseDate(s).Some? {
      FormatParseDate(s);
      DateAndTimeTextsDiffer(ParseDate(s).value, 0);
    }
  }
}

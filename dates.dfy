/**
 * Timestamps and the proleptic Gregorian calendar that `Calendar.current`
 * provides to the app.  A timestamp is a whole number of seconds since
 * 1970-01-01 00:00 in a single fixed time zone; a day number counts days from
 * that same origin.  The civil date of a day number is found by walking year
 * lengths, and the two round trips between day numbers and civil dates are
 * proved.
 */
module Dates {

  import opened Text

  type Time = int

  const SecondsPerDay: int := 86400
  const SecondsPerHour: int := 3600
  const SecondsPerMinute: int := 60

  /** The day (counted from 1970-01-01) that `t` falls on. */
  function DayNumber(t: Time): int {
    t / SecondsPerDay
  }

  /** `Calendar.startOfDay(for:)`: midnight of the day `t` falls on. */
  function StartOfDay(t: Time): (r: Time)
    ensures r <= t < r + SecondsPerDay
    ensures DayNumber(r) == DayNumber(t)
    ensures r % SecondsPerDay == 0
  {
    DayNumber(t) * SecondsPerDay
  }

  /** `Calendar.isDate(_:inSameDayAs:)`. */
  predicate SameDay(a: Time, b: Time) {
    DayNumber(a) == DayNumber(b)
  }

  /** Two times fall on the same day exactly when their starts of day coincide. */
  lemma SameDayIffSameStart(a: Time, b: Time)
    ensures SameDay(a, b) <==> StartOfDay(a) == StartOfDay(b)
  {
  }

  // ---------------------------------------------------------------------------
  // Gregorian calendar

  predicate IsLeapYear(y: int) {
    (y % 4 == 0 && y % 100 != 0) || y % 400 == 0
  }

  function DaysInYear(y: int): int {
    if IsLeapYear(y) then 366 else 365
  }

  function DaysInMonth(y: int, m: int): int
    requires 1 <= m <= 12
  {
    if m == 2 then (if IsLeapYear(y) then 29 else 28)
    else if m == 4 || m == 6 || m == 9 || m == 11 then 30
    else 31
  }

  /** Number of days in year `y` before the first of month `m` (`m == 13` gives the whole year). */
  function DaysBeforeMonth(y: int, m: int): int
    requires 1 <= m <= 13
  {
    var leap := if IsLeapYear(y) && m > 2 then 1 else 0;
    leap + (if m == 1 then 0 else if m == 2 then 31 else if m == 3 then 59
            else if m == 4 then 90 else if m == 5 then 120 else if m == 6 then 151
            else if m == 7 then 181 else if m == 8 then 212 else if m == 9 then 243
            else if m == 10 then 273 else if m == 11 then 304 else if m == 12 then 334
            else 365)
  }

  lemma DaysBeforeMonthMonotonic(y: int, a: int, b: int)
    requires 1 <= a <= b <= 13
    ensures DaysBeforeMonth(y, a) <= DaysBeforeMonth(y, b)
    ensures a < b ==> DaysBeforeMonth(y, a + 1) <= DaysBeforeMonth(y, b)
  {
  }

  datatype CivilDate = CivilDate(year: int, month: int, day: int)

  predicate ValidCivil(d: CivilDate) {
    1 <= d.month <= 12 && 1 <= d.day <= DaysInMonth(d.year, d.month)
  }

  /** The month whose days contain day-of-year `doy`, searched from month `m` on. */
  function MonthOfDayInYear(y: int, doy: int, m: int): (r: int)
    requires 1 <= m <= 12 && DaysBeforeMonth(y, m) <= doy < DaysInYear(y)
    ensures m <= r <= 12
    ensures DaysBeforeMonth(y, r) <= doy < DaysBeforeMonth(y, r + 1)
    decreases 12 - m
  {
    if doy < DaysBeforeMonth(y, m + 1) then m else MonthOfDayInYear(y, doy, m + 1)
  }

  /** The month of a day-of-year is the only month whose span contains it. */
  lemma MonthOfDayInYearUnique(y: int, doy: int, k: int)
    requires 1 <= k <= 12 && DaysBeforeMonth(y, k) <= doy < DaysBeforeMonth(y, k + 1)
    ensures MonthOfDayInYear(y, doy, 1) == k
  {
    var r := MonthOfDayInYear(y, doy, 1);
    if r < k {
      DaysBeforeMonthMonotonic(y, r, k);
    } else if k < r {
      DaysBeforeMonthMonotonic(y, k, r);
    }
  }

  /** Day number of January 1 of year `y`. */
  function YearStart(y: int): int
    decreases if y >= 1970 then y - 1970 else 1970 - y
  {
    if y == 1970 then 0
    else if y > 1970 then YearStart(y - 1) + DaysInYear(y - 1)
    else YearStart(y + 1) - DaysInYear(y)
  }

  lemma YearStartStep(y: int)
    ensures YearStart(y + 1) == YearStart(y) + DaysInYear(y)
  {
  }

  /** Years follow one another: year `a` ends no later than year `b` starts. */
  lemma {:induction false} YearStartMonotonic(a: int, b: int)
    requires a < b
    ensures YearStart(a) + DaysInYear(a) <= YearStart(b)
    decreases b - a
  {
    YearStartStep(a);
    if a + 1 < b {
      YearStartMonotonic(a + 1, b);
    }
  }

  /** Day number of a civil date. */
  function DaysFromCivil(d: CivilDate): int
    requires ValidCivil(d)
  {
    YearStart(d.year) + DaysBeforeMonth(d.year, d.month) + d.day - 1
  }

  /** The civil date `n` days after January 1 of year `y` (`n` may be negative). */
  function CivilFrom(y: int, n: int): (r: CivilDate)
    ensures ValidCivil(r)
    decreases if n < 0 then 1 else 0, if n < 0 then -n else n
  {
    if n < 0 then CivilFrom(y - 1, n + DaysInYear(y - 1))
    else if n >= DaysInYear(y) then CivilFrom(y + 1, n - DaysInYear(y))
    else
      var m := MonthOfDayInYear(y, n, 1);
      CivilDate(y, m, n - DaysBeforeMonth(y, m) + 1)
  }

  /** The civil date of a day number. */
  function CivilOfDay(n: int): (r: CivilDate)
    ensures ValidCivil(r)
  {
    CivilFrom(1970, n)
  }

  /** The civil date on which the timestamp `t` falls. */
  function CivilOf(t: Time): (r: CivilDate)
    ensures ValidCivil(r)
  {
    CivilOfDay(DayNumber(t))
  }

  lemma {:induction false} CivilFromDays(y: int, n: int)
    ensures DaysFromCivil(CivilFrom(y, n)) == YearStart(y) + n
    decreases if n < 0 then 1 else 0, if n < 0 then -n else n
  {
    if n < 0 {
      CivilFromDays(y - 1, n + DaysInYear(y - 1));
      YearStartStep(y - 1);
    } else if n >= DaysInYear(y) {
      CivilFromDays(y + 1, n - DaysInYear(y));
      YearStartStep(y);
    }
  }

  /** Day number to civil date and back is the identity. */
  lemma DayCivilRoundTrip(n: int)
    ensures DaysFromCivil(CivilOfDay(n)) == n
  {
    CivilFromDays(1970, n);
  }

  /** Zero-based position of a valid date within its year. */
  function DayOfYear(d: CivilDate): (r: int)
    requires ValidCivil(d)
    ensures 0 <= r < DaysInYear(d.year)
  {
    DaysBeforeMonthMonotonic(d.year, d.month + 1, 13);
    DaysBeforeMonth(d.year, d.month) + d.day - 1
  }

  lemma CivilFromDayOfYear(d: CivilDate)
    requires ValidCivil(d)
    ensures CivilFrom(d.year, DayOfYear(d)) == d
  {
    MonthOfDayInYearUnique(d.year, DayOfYear(d), d.month);
  }

  lemma {:induction false} CivilFromYearStart(y: int, d: CivilDate)
    requires ValidCivil(d)
    ensures CivilFrom(y, YearStart(d.year) - YearStart(y) + DayOfYear(d)) == d
    decreases if d.year >= y then d.year - y else y - d.year
  {
    if d.year == y {
      CivilFromDayOfYear(d);
    } else if d.year > y {
      YearStartForward(y, d);
      CivilFromYearStart(y + 1, d);
    } else {
      YearStartBackward(y, d);
      CivilFromYearStart(y - 1, d);
    }
  }

  /** Counting from a year before the date's, the first year is skipped whole. */
  lemma YearStartForward(y: int, d: CivilDate)
    requires ValidCivil(d) && d.year > y
    ensures var n := YearStart(d.year) - YearStart(y) + DayOfYear(d);
      CivilFrom(y, n) == CivilFrom(y + 1, YearStart(d.year) - YearStart(y + 1) + DayOfYear(d))
  {
    YearStartMonotonic(y, d.year);
    YearStartStep(y);
  }

  /** Counting from a year after the date's, the year before is stepped back over whole. */
  lemma YearStartBackward(y: int, d: CivilDate)
    requires ValidCivil(d) && d.year < y
    ensures var n := YearStart(d.year) - YearStart(y) + DayOfYear(d);
      CivilFrom(y, n) == CivilFrom(y - 1, YearStart(d.year) - YearStart(y - 1) + DayOfYear(d))
  {
    YearStartMonotonic(d.year, y);
    YearStartStep(y - 1);
  }

  /** Civil date to day number and back is the identity on valid dates. */
  lemma CivilDayRoundTrip(d: CivilDate)
    requires ValidCivil(d)
    ensures CivilOfDay(DaysFromCivil(d)) == d
  {
    CivilFromYearStart(1970, d);
  }

  /** Distinct days have distinct civil dates. */
  lemma CivilOfDayInjective(a: int, b: int)
    requires CivilOfDay(a) == CivilOfDay(b)
    ensures a == b
  {
    DayCivilRoundTrip(a);
    DayCivilRoundTrip(b);
  }

  // ---------------------------------------------------------------------------
  // Date components

  /** `Calendar.component(.weekday, from:)`: 1 is Sunday, 7 is Saturday (1970-01-01 was a Thursday). */
  function Weekday(t: Time): (r: int)
    ensures 1 <= r <= 7
    ensures DayNumber(t) == 0 ==> r == 5
    ensures r == 1 <==> DayNumber(t) % 7 == 3
  {
    Mod7Cases(DayNumber(t));
    (DayNumber(t) + 4) % 7 + 1
  }

  /** The residues mod 7 that the weekday arithmetic needs, by cases on `n % 7`. */
  lemma Mod7Cases(n: int)
    ensures (n + 4) % 7 == if n % 7 < 3 then n % 7 + 4 else n % 7 - 3
    ensures (n + 5) % 7 == if n % 7 < 2 then n % 7 + 5 else n % 7 - 2
    ensures (n + 7) % 7 == n % 7
  {
    var q := n / 7;
    assert n == 7 * q + n % 7;
    assert n + 7 == 7 * (q + 1) + n % 7;
    if n % 7 < 3 {
      assert n + 4 == 7 * q + (n % 7 + 4);
    } else {
      assert n + 4 == 7 * (q + 1) + (n % 7 - 3);
    }
    if n % 7 < 2 {
      assert n + 5 == 7 * q + (n % 7 + 5);
    } else {
      assert n + 5 == 7 * (q + 1) + (n % 7 - 2);
    }
  }

  /** 1970-01-01 was a Thursday (5) and 1970-01-04 a Sunday (1). */
  lemma WeekdayAnchors()
    ensures CivilOf(0) == CivilDate(1970, 1, 1) && Weekday(0) == 5
    ensures CivilOf(3 * SecondsPerDay) == CivilDate(1970, 1, 4) && Weekday(3 * SecondsPerDay) == 1
  {
    assert MonthOfDayInYear(1970, 0, 1) == 1;
    assert MonthOfDayInYear(1970, 3, 1) == 1;
  }

  /** The weekday advances by one each day, Saturday (7) wrapping round to Sunday (1). */
  lemma WeekdayNextDay(t: Time)
    ensures Weekday(t + SecondsPerDay) == Weekday(t) % 7 + 1
    ensures Weekday(t + 7 * SecondsPerDay) == Weekday(t)
  {
    var n := DayNumber(t);
    assert DayNumber(t + SecondsPerDay) == n + 1;
    assert DayNumber(t + 7 * SecondsPerDay) == n + 7;
    Mod7Cases(n);
    Mod7Cases(n + 7);
  }

  /**
   * Going back `Weekday(t) - 1` days from `t` lands on a Sunday, and no day
   * in between is one: the leading blanks of a calendar row reach back to
   * the row's Sunday.
   */
  lemma WeekdayReachesBackToSunday(t: Time)
    ensures Weekday(t - (Weekday(t) - 1) * SecondsPerDay) == 1
    ensures forall k :: 0 <= k < Weekday(t) - 1 ==> Weekday(t - k * SecondsPerDay) != 1
  {
    var n := DayNumber(t);
    var back := Weekday(t) - 1;
    assert back == (n + 4) % 7;
    assert DayNumber(t - back * SecondsPerDay) == n - back;
    forall k | 0 <= k < back
      ensures Weekday(t - k * SecondsPerDay) != 1
    {
      assert DayNumber(t - k * SecondsPerDay) == n - k;
    }
  }

  function Hour(t: Time): (r: int)
    ensures 0 <= r < 24
  {
    (t % SecondsPerDay) / SecondsPerHour
  }

  function Minute(t: Time): (r: int)
    ensures 0 <= r < 60
  {
    (t % SecondsPerHour) / SecondsPerMinute
  }

  /** Midnight of a valid civil date. */
  function TimeOfCivil(d: CivilDate): (r: Time)
    requires ValidCivil(d)
    ensures CivilOf(r) == d && r == StartOfDay(r)
  {
    CivilDayRoundTrip(d);
    DaysFromCivil(d) * SecondsPerDay
  }

  /** The (year, month) that lies `k` months after (`year`, `month`). */
  function ShiftMonth(year: int, month: int, k: int): (r: (int, int))
    requires 1 <= month <= 12
    ensures 1 <= r.1 <= 12
    ensures r.0 * 12 + r.1 == year * 12 + month + k
  {
    var index := year * 12 + (month - 1) + k;
    (index / 12, index % 12 + 1)
  }

  /**
   * `Calendar.date(byAdding: .month, value: k, to: t)`: the same day of the
   * month `k` months later, clamped to that month's length, at the same time
   * of day.
   */
  function AddMonths(t: Time, k: int): (r: Time)
    ensures var c := CivilOf(t); var s := ShiftMonth(c.year, c.month, k);
      CivilOf(r).year == s.0 && CivilOf(r).month == s.1
  {
    var c := CivilOf(t);
    var s := ShiftMonth(c.year, c.month, k);
    var day := if c.day <= DaysInMonth(s.0, s.1) then c.day else DaysInMonth(s.0, s.1);
    var target := CivilDate(s.0, s.1, day);
    CivilDayRoundTrip(target);
    DaysFromCivil(target) * SecondsPerDay + t % SecondsPerDay
  }

  /** Moving forward a month and back again returns to the same (year, month). */
  lemma NextThenPreviousMonth(t: Time)
    ensures CivilOf(AddMonths(AddMonths(t, 1), -1)).year == CivilOf(t).year
    ensures CivilOf(AddMonths(AddMonths(t, 1), -1)).month == CivilOf(t).month
  {
  }

  /** December moves to January of the following year. */
  lemma DecemberToJanuary(t: Time)
    requires CivilOf(t).month == 12
    ensures CivilOf(AddMonths(t, 1)).month == 1
    ensures CivilOf(AddMonths(t, 1)).year == CivilOf(t).year + 1
  {
  }

  // ---------------------------------------------------------------------------
  // The "yyyy-MM-dd" key

  function DigitChar(d: int): (c: char)
    requires 0 <= d < 10
    ensures IsDigit(c)
  {
    ('0' as int + d) as char
  }

  predicate AllDigits(s: String) {
    forall i :: 0 <= i < |s| ==> IsDigit(s[i])
  }

  /** Decimal representation of `n` without leading zeros. */
  function Digits(n: nat): (r: String)
    ensures 1 <= |r| && AllDigits(r)
    ensures n < 10 ==> |r| == 1
    ensures 10 <= n < 100 ==> |r| == 2
  {
    if n < 10 then [DigitChar(n)] else Digits(n / 10) + [DigitChar(n % 10)]
  }

  /** `n` in decimal, left-padded with zeros to at least `width` characters. */
  function Decimal(n: nat, width: nat): (r: String)
    ensures AllDigits(r) && |r| >= width
    ensures n < 100 && width == 2 ==> |r| == 2
  {
    var s := Digits(n);
    if |s| >= width then s else seq(width - |s|, _ => '0') + s
  }

  /** The value of a string of decimal digits. */
  function ParseDigits(s: String): nat
    requires AllDigits(s)
  {
    if s == [] then 0 else ParseDigits(s[..|s| - 1]) * 10 + (s[|s| - 1] as int - '0' as int)
  }

  lemma {:induction false} ParseDigitsRoundTrip(n: nat)
    ensures ParseDigits(Digits(n)) == n
  {
    if n >= 10 {
      var s := Digits(n);
      assert s[..|s| - 1] == Digits(n / 10);
      ParseDigitsRoundTrip(n / 10);
    }
  }

  lemma {:induction false} ParseDigitsLeadingZeros(k: nat, s: String)
    requires AllDigits(s)
    ensures AllDigits(seq(k, _ => '0') + s)
    ensures ParseDigits(seq(k, _ => '0') + s) == ParseDigits(s)
  {
    var z := seq(k, _ => '0');
    if s == [] {
      assert z + s == z;
      ParseZeros(k);
    } else {
      var t := s[..|s| - 1];
      assert (z + s)[..|z + s| - 1] == z + t;
      ParseDigitsLeadingZeros(k, t);
    }
  }

  lemma {:induction false} ParseZeros(k: nat)
    ensures ParseDigits(seq(k, _ => '0')) == 0
  {
    if k > 0 {
      assert seq(k, _ => '0')[..k - 1] == seq(k - 1, _ => '0');
      ParseZeros(k - 1);
    }
  }

  /** Zero padding does not change the value. */
  lemma DecimalRoundTrip(n: nat, width: nat)
    ensures ParseDigits(Decimal(n, width)) == n
  {
    var s := Digits(n);
    if |s| < width {
      var z := seq(width - |s|, _ => '0');
      assert Decimal(n, width) == z + s;
      ParseDigitsLeadingZeros(width - |s|, s);
    }
    ParseDigitsRoundTrip(n);
  }

  /** "yyyy" prints the year of the era: year 0 is 1 BC, year -1 is 2 BC. */
  function YearOfEra(y: int): nat {
    if y >= 1 then y else 1 - y
  }

  /**
   * `k` is a "yyyy-MM-dd" key for `d`: digits, a dash, two digits, a dash and
   * two digits, spelling the year of era, the month and the day.
   */
  predicate SpellsDate(k: String, d: CivilDate) {
    |k| >= 10 && k[|k| - 3] == '-' && k[|k| - 6] == '-'
    && AllDigits(k[..|k| - 6]) && AllDigits(k[|k| - 5..|k| - 3]) && AllDigits(k[|k| - 2..])
    && ParseDigits(k[..|k| - 6]) == YearOfEra(d.year)
    && ParseDigits(k[|k| - 5..|k| - 3]) == d.month
    && ParseDigits(k[|k| - 2..]) == d.day
  }

  /** `DateFormatter` with format "yyyy-MM-dd". */
  function FormatDateKey(d: CivilDate): (r: String)
    requires ValidCivil(d)
    ensures |r| >= 10 && r[|r| - 3] == '-' && r[|r| - 6] == '-'
  {
    Decimal(YearOfEra(d.year), 4) + "-" + Decimal(d.month, 2) + "-" + Decimal(d.day, 2)
  }

  /** The key of the day a timestamp falls on. */
  function DateKey(t: Time): String {
    FormatDateKey(CivilOf(t))
  }

  /** The key of a timestamp spells the year of era, month and day it falls on, whatever the time of day. */
  lemma DateKeySpellsDay(t: Time)
    ensures SpellsDate(DateKey(t), CivilOf(t))
    ensures DateKey(StartOfDay(t)) == DateKey(t)
  {
    DecodeDateKey(CivilOf(t));
    assert CivilOf(StartOfDay(t)) == CivilOf(t);
  }

  /** Reads year of era, month and day back out of a key. */
  lemma DecodeDateKey(d: CivilDate)
    requires ValidCivil(d)
    ensures SpellsDate(FormatDateKey(d), d)
  {
    var y := Decimal(YearOfEra(d.year), 4);
    var mm := Decimal(d.month, 2);
    var dd := Decimal(d.day, 2);
    assert FormatDateKey(d) == y + "-" + mm + "-" + dd;
    KeySlices(y, mm, dd);
    DecimalRoundTrip(YearOfEra(d.year), 4);
    DecimalRoundTrip(d.month, 2);
    DecimalRoundTrip(d.day, 2);
  }

  /** A key spells at most one date from year 1 on. */
  lemma SpellsOneDate(k: String, d1: CivilDate, d2: CivilDate)
    requires SpellsDate(k, d1) && SpellsDate(k, d2) && d1.year >= 1 && d2.year >= 1
    ensures d1 == d2
  {
  }

  /** The three fields of a key are where the two dashes put them. */
  lemma KeySlices(y: String, mm: String, dd: String)
    requires |mm| == 2 && |dd| == 2
    ensures var k := y + "-" + mm + "-" + dd;
      k[..|k| - 6] == y && k[|k| - 5..|k| - 3] == mm && k[|k| - 2..] == dd
  {
  }

  /** Two timestamps (in years AD) have the same key exactly when they fall on the same day. */
  lemma DateKeyIffSameDay(a: Time, b: Time)
    requires CivilOf(a).year >= 1 && CivilOf(b).year >= 1
    ensures DateKey(a) == DateKey(b) <==> SameDay(a, b)
  {
    if DateKey(a) == DateKey(b) {
      DateKeySpellsDay(a);
      DateKeySpellsDay(b);
      SpellsOneDate(DateKey(a), CivilOf(a), CivilOf(b));
      CivilOfDayInjective(DayNumber(a), DayNumber(b));
    }
  }

  /** 2025-10-24 is keyed "2025-10-24". */
  lemma DateKeyExample()
    ensures FormatDateKey(CivilDate(2025, 10, 24)) == "2025-10-24"
  {
    assert Digits(2025) == Digits(202) + ['5'];
    assert Digits(202) == Digits(20) + ['2'];
    assert Digits(20) == Digits(2) + ['0'];
    assert Digits(10) == Digits(1) + ['0'];
    assert Digits(24) == Digits(2) + ['4'];
  }
}

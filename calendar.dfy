/**
 * Calendar days as whole numbers of days since 1970-01-01 (UTC), and the
 * `YYYY-MM-DD` text that `date.toISOString().split("T")[0]` gives for the
 * midnight that starts such a day (proleptic Gregorian calendar).
 */
module Calendar {
  import opened Numerals

  /** A day, counted from 1970-01-01. */
  type Day = nat

  const EpochYear: nat := 1970

  predicate IsLeapYear(y: int) {
    y % 4 == 0 && (y % 100 != 0 || y % 400 == 0)
  }

  function DaysInYear(y: int): nat {
    if IsLeapYear(y) then 366 else 365
  }

  /** The number of days of the year that come before the first day of month `m`; month 13 stands for the next year. */
  function DaysBeforeMonth(m: int, leap: bool): nat
    requires 1 <= m <= 13
  {
    var extra := if leap && m > 2 then 1 else 0;
    [0, 31, 59, 90, 120, 151, 181, 212, 243, 273, 304, 334, 365][m - 1] + extra
  }

  function DaysInMonth(y: int, m: int): nat
    requires 1 <= m <= 12
  {
    DaysBeforeMonth(m + 1, IsLeapYear(y)) - DaysBeforeMonth(m, IsLeapYear(y))
  }

  /** A date of the calendar, with its month and day of month counted from 1. */
  datatype Civil = Civil(year: int, month: int, day: int)

  predicate IsValidDate(c: Civil) {
    c.year >= EpochYear && 1 <= c.month <= 12 && 1 <= c.day <= DaysInMonth(c.year, c.month)
  }

  /** The month, at most `m`, that holds day `doy` (counted from 0) of a year. */
  function MonthOf(doy: nat, leap: bool, m: int): (r: int)
    requires 1 <= m <= 12
    requires doy < DaysBeforeMonth(m + 1, leap)
    ensures 1 <= r <= m
    ensures DaysBeforeMonth(r, leap) <= doy < DaysBeforeMonth(r + 1, leap)
    decreases m
  {
    if m == 1 || DaysBeforeMonth(m, leap) <= doy then m else MonthOf(doy, leap, m - 1)
  }

  function DateInYear(y: int, doy: nat): (c: Civil)
    requires doy < DaysInYear(y)
    ensures c.year == y && 1 <= c.month <= 12 && 1 <= c.day <= DaysInMonth(y, c.month)
    ensures DaysBeforeMonth(c.month, IsLeapYear(y)) + c.day - 1 == doy
  {
    var leap := IsLeapYear(y);
    var m := MonthOf(doy, leap, 12);
    Civil(y, m, doy - DaysBeforeMonth(m, leap) + 1)
  }

  /** The number of days from 1970-01-01 to the first of January of `y`. */
  function DaysBeforeYear(y: int): nat
    requires y >= EpochYear
    decreases y
  {
    if y == EpochYear then 0 else DaysBeforeYear(y - 1) + DaysInYear(y - 1)
  }

  /** The leap years among the years 1 to `y - 1`. */
  function LeapYearsBefore(y: int): int
    requires y >= 1
  {
    (y - 1) / 4 - (y - 1) / 100 + (y - 1) / 400
  }

  lemma LeapYearsBeforeNext(y: int)
    requires y >= 1
    ensures LeapYearsBefore(y + 1) == LeapYearsBefore(y) + (if IsLeapYear(y) then 1 else 0)
  {
    QuotientStep4(y);
    QuotientStep100(y);
    QuotientStep400(y);
    CenturyDivisibility(y);
  }

  /** A multiple of 400 is a multiple of 100, and a multiple of 100 is a multiple of 4. */
  lemma CenturyDivisibility(y: int)
    ensures y % 400 == 0 ==> y % 100 == 0
    ensures y % 100 == 0 ==> y % 4 == 0
  {
    if y % 400 == 0 {
      var k := y / 400;
      assert y == 100 * (4 * k);
      MultipleOf100(4 * k);
    }
    if y % 100 == 0 {
      var k := y / 100;
      assert y == 4 * (25 * k);
      MultipleOf4(25 * k);
    }
  }

  lemma MultipleOf100(k: int)
    ensures (100 * k) % 100 == 0
  {
  }

  lemma MultipleOf4(k: int)
    ensures (4 * k) % 4 == 0
  {
  }

  lemma QuotientStep4(y: int)
    ensures y / 4 - (y - 1) / 4 == if y % 4 == 0 then 1 else 0
  {
  }

  lemma QuotientStep100(y: int)
    ensures y / 100 - (y - 1) / 100 == if y % 100 == 0 then 1 else 0
  {
  }

  lemma QuotientStep400(y: int)
    ensures y / 400 - (y - 1) / 400 == if y % 400 == 0 then 1 else 0
  {
  }

  /** The closed form of `DaysBeforeYear`: 365 days a year plus one per leap year. */
  lemma {:induction false} DaysBeforeYearFormula(y: int)
    requires y >= EpochYear
    ensures DaysBeforeYear(y) == 365 * (y - EpochYear) + LeapYearsBefore(y) - LeapYearsBefore(EpochYear)
    decreases y
  {
    if y > EpochYear {
      DaysBeforeYearFormula(y - 1);
      LeapYearsBeforeNext(y - 1);
    }
  }

  /** A year with a day of it, counted from 0. */
  datatype YearDay = YearDay(year: int, dayOfYear: nat)

  /** The year and day of year `z` days (counted from 0) after the first of January of `y`. */
  function YearDayFrom(y: int, z: nat): (r: YearDay)
    ensures r.year >= y && r.dayOfYear < DaysInYear(r.year)
    decreases z
  {
    if z < DaysInYear(y) then YearDay(y, z) else YearDayFrom(y + 1, z - DaysInYear(y))
  }

  function DateOfDay(d: Day): (c: Civil)
    ensures IsValidDate(c)
  {
    var r := YearDayFrom(EpochYear, d);
    DateInYear(r.year, r.dayOfYear)
  }

  /** The days of the year that come before a date. */
  function DayOfYear(c: Civil): nat
    requires 1 <= c.month <= 12 && c.day >= 1
  {
    DaysBeforeMonth(c.month, IsLeapYear(c.year)) + c.day - 1
  }

  /** The inverse of `DateOfDay`: the day number of a date. */
  function DayOfDate(c: Civil): int
    requires IsValidDate(c)
  {
    DaysBeforeYear(c.year) + DayOfYear(c)
  }

  lemma {:induction false} YearDayFromCounts(y: int, z: nat)
    requires y >= EpochYear
    ensures DaysBeforeYear(YearDayFrom(y, z).year) - DaysBeforeYear(y) + YearDayFrom(y, z).dayOfYear == z
    decreases z
  {
    if z >= DaysInYear(y) {
      YearDayFromCounts(y + 1, z - DaysInYear(y));
      DaysBeforeYearSplit(y, y + 1, YearDayFrom(y, z).year);
    }
  }

  lemma {:induction false} DaysBeforeYearSplit(y0: int, y1: int, y2: int)
    requires EpochYear <= y0 <= y1 <= y2
    ensures DaysBeforeYear(y2) - DaysBeforeYear(y0) == (DaysBeforeYear(y2) - DaysBeforeYear(y1)) + (DaysBeforeYear(y1) - DaysBeforeYear(y0))
  {
  }

  lemma DayOfYearBound(c: Civil)
    requires 1 <= c.month <= 12 && 1 <= c.day <= DaysInMonth(c.year, c.month)
    ensures DayOfYear(c) < DaysInYear(c.year)
  {
    var leap := IsLeapYear(c.year);
    assert DaysBeforeMonth(c.month + 1, leap) <= DaysBeforeMonth(13, leap);
  }

  /** Months start later the later they are. */
  lemma {:induction false} DaysBeforeMonthOrder(a: int, b: int, leap: bool)
    requires 1 <= a <= 13 && 1 <= b <= 13
    ensures a <= b ==> DaysBeforeMonth(a, leap) <= DaysBeforeMonth(b, leap)
    decreases b
  {
    if a < b {
      DaysBeforeMonthOrder(a, b - 1, leap);
      MonthLength(b - 1, leap);
    }
  }

  lemma MonthLength(m: int, leap: bool)
    requires 1 <= m <= 12
    ensures DaysBeforeMonth(m, leap) + 28 <= DaysBeforeMonth(m + 1, leap)
  {
  }

  /** A day of the year determines its month. */
  lemma MonthOfUnique(c: Civil)
    requires 1 <= c.month <= 12 && 1 <= c.day <= DaysInMonth(c.year, c.month)
    ensures DateInYear(c.year, DayOfYear(c)) == c
  {
    var d := DateInYear(c.year, DayOfYear(c));
    SameDayOfYear(d.month, d.day, c.month, c.day, IsLeapYear(c.year));
  }

  /** Two (month, day) pairs within their months' lengths that fall on the same day of the year are equal. */
  lemma SameDayOfYear(m: int, d: int, m': int, d': int, leap: bool)
    requires 1 <= m <= 12 && 1 <= d <= DaysBeforeMonth(m + 1, leap) - DaysBeforeMonth(m, leap)
    requires 1 <= m' <= 12 && 1 <= d' <= DaysBeforeMonth(m' + 1, leap) - DaysBeforeMonth(m', leap)
    requires DaysBeforeMonth(m, leap) + d == DaysBeforeMonth(m', leap) + d'
    ensures m == m' && d == d'
  {
    DaysBeforeMonthOrder(m + 1, m', leap);
    DaysBeforeMonthOrder(m' + 1, m, leap);
  }

  /** The days of the `n` years from `y` on. */
  function YearsSpan(y: int, n: nat): nat
    decreases n
  {
    if n == 0 then 0 else DaysInYear(y) + YearsSpan(y + 1, n - 1)
  }

  lemma {:induction false} YearsSpanCounts(y: int, n: nat)
    requires y >= EpochYear
    ensures DaysBeforeYear(y + n) - DaysBeforeYear(y) == YearsSpan(y, n)
    decreases n
  {
    if n > 0 {
      YearsSpanCounts(y + 1, n - 1);
      assert DaysBeforeYear(y + 1) == DaysBeforeYear(y) + DaysInYear(y);
    }
  }

  lemma {:induction false} YearDayFromSpan(y: int, n: nat, z: nat)
    ensures YearDayFrom(y, YearsSpan(y, n) + z) == YearDayFrom(y + n, z)
    decreases n
  {
    if n > 0 {
      YearDayFromSpan(y + 1, n - 1, z);
      SkipYear(y, YearsSpan(y + 1, n - 1) + z);
    }
  }

  /** Skipping the days of `n` whole years moves the count `n` years on. */
  lemma YearDayFromShift(y: int, n: nat, z: nat)
    requires y >= EpochYear
    ensures DaysBeforeYear(y + n) >= DaysBeforeYear(y)
    ensures YearDayFrom(y, DaysBeforeYear(y + n) - DaysBeforeYear(y) + z) == YearDayFrom(y + n, z)
  {
    YearsSpanCounts(y, n);
    YearDayFromSpan(y, n, z);
  }

  lemma SkipYear(y: int, rest: nat)
    ensures YearDayFrom(y, DaysInYear(y) + rest) == YearDayFrom(y + 1, rest)
  {
  }

  /** Counting the days of the date of a day gives that day back. */
  lemma DayOfDateOfDay(d: Day)
    ensures DayOfDate(DateOfDay(d)) == d
  {
    YearDayFromCounts(EpochYear, d);
  }

  /** Every date from 1970 on is the date of the day its days count. */
  lemma DateOfDayOfDate(c: Civil)
    requires IsValidDate(c)
    ensures DayOfDate(c) >= 0 && DateOfDay(DayOfDate(c)) == c
  {
    var z := DayOfYear(c);
    DayOfYearBound(c);
    YearDayFromShift(EpochYear, c.year - EpochYear, z);
    assert DayOfDate(c) == DaysBeforeYear(EpochYear + (c.year - EpochYear)) - DaysBeforeYear(EpochYear) + z;
    assert YearDayFrom(c.year, z) == YearDay(c.year, z);
    assert DateOfDay(DayOfDate(c)) == DateInYear(c.year, z);
    MonthOfUnique(c);
  }

  /** `s` padded on the left with zeros to at least `w` characters. */
  function PadZeros(s: string, w: nat): (r: string)
    ensures |r| == if |s| < w then w else |s|
    decreases w - |s|
  {
    if |s| < w then PadZeros("0" + s, w) else s
  }

  lemma {:induction false} PadZerosValue(s: string, w: nat)
    requires AllDigits(s, 10)
    ensures AllDigits(PadZeros(s, w), 10) && ValueOf(PadZeros(s, w), 10) == ValueOf(s, 10)
    decreases w - |s|
  {
    if |s| < w {
      ValueOfLeadingZero(s, 10);
      PadZerosValue("0" + s, w);
    }
  }

  /**
   * The year as `toISOString` writes it: four digits for the years 0 to 9999,
   * a plus sign and at least six digits after that.
   */
  function YearText(y: nat): string {
    if y <= 9999 then PadZeros(Render(y, 10), 4) else "+" + PadZeros(Render(y, 10), 6)
  }

  function TwoDigits(n: nat): (s: string)
    requires n < 100
    ensures |s| == 2
  {
    [DigitChar(n / 10), DigitChar(n % 10)]
  }

  /** The `YYYY-MM-DD` text of a date. */
  function DateText(c: Civil): string
    requires IsValidDate(c)
  {
    YearText(c.year) + "-" + TwoDigits(c.month) + "-" + TwoDigits(c.day)
  }

  /** The date key of a day: the date part of the ISO text of its first instant. */
  function DateKey(d: Day): string {
    DateText(DateOfDay(d))
  }

  lemma YearTextInjective(x: nat, y: nat)
    requires YearText(x) == YearText(y)
    ensures x == y
  {
    var wx, wy := if x <= 9999 then 4 else 6, if y <= 9999 then 4 else 6;
    var px, py := PadZeros(Render(x, 10), wx), PadZeros(Render(y, 10), wy);
    PadZerosValue(Render(x, 10), wx);
    PadZerosValue(Render(y, 10), wy);
    ValueOfRender(x, 10);
    ValueOfRender(y, 10);
    if x <= 9999 && y <= 9999 {
      assert px == py;
    } else if x > 9999 && y > 9999 {
      assert px == YearText(x)[1..] == YearText(y)[1..] == py;
    } else {
      assert false;
    }
  }

  lemma TwoDigitsInjective(m: nat, n: nat)
    requires m < 100 && n < 100 && TwoDigits(m) == TwoDigits(n)
    ensures m == n
  {
    assert DigitValue(TwoDigits(m)[0]) == m / 10;
    assert DigitValue(TwoDigits(m)[1]) == m % 10;
  }

  /** A text of the shape `Y-MM-DD` splits uniquely. */
  lemma SplitDateText(y1: string, m1: string, d1: string, y2: string, m2: string, d2: string)
    requires |m1| == |m2| == |d1| == |d2| == 2
    requires y1 + "-" + m1 + "-" + d1 == y2 + "-" + m2 + "-" + d2
    ensures y1 == y2 && m1 == m2 && d1 == d2
  {
    var s := y1 + "-" + m1 + "-" + d1;
    var t := y2 + "-" + m2 + "-" + d2;
    assert |y1| == |y2|;
    var n := |y1|;
    assert s[..n] == y1 && t[..n] == y2;
    assert s[n + 1..n + 3] == m1 && t[n + 1..n + 3] == m2;
    assert s[n + 4..] == d1 && t[n + 4..] == d2;
  }

  lemma DateTextInjective(a: Civil, b: Civil)
    requires IsValidDate(a) && IsValidDate(b) && DateText(a) == DateText(b)
    ensures a == b
  {
    SplitDateText(YearText(a.year), TwoDigits(a.month), TwoDigits(a.day),
                  YearText(b.year), TwoDigits(b.month), TwoDigits(b.day));
    YearTextInjective(a.year, b.year);
    TwoDigitsInjective(a.month, b.month);
    TwoDigitsInjective(a.day, b.day);
  }

  /** Different days have different date keys. */
  lemma DateKeyInjective(d: Day, e: Day)
    requires DateKey(d) == DateKey(e)
    ensures d == e
  {
    DateTextInjective(DateOfDay(d), DateOfDay(e));
    DayOfDateOfDay(d);
    DayOfDateOfDay(e);
  }
}

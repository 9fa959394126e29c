/**
 The proleptic Gregorian calendar, weeks that start on Monday, and ISO week numbers.
 */
module Calendar {

  datatype CivilDate = CivilDate(year: int, month: int, day: int)

  predicate IsLeap(y: int) {
    y % 4 == 0 && (y % 100 != 0 || y % 400 == 0)
  }

  function DaysInMonth(y: int, m: int): int {
    if m == 2 then (if IsLeap(y) then 29 else 28)
    else if m == 4 || m == 6 || m == 9 || m == 11 then 30
    else 31
  }

  predicate IsDate(c: CivilDate) {
    1 <= c.year && 1 <= c.month <= 12 && 1 <= c.day <= DaysInMonth(c.year, c.month)
  }

  type Date = c: CivilDate | IsDate(c) witness CivilDate(1, 1, 1)

  function DaysInYear(y: int): int {
    if IsLeap(y) then 366 else 365
  }

  /** Days from 1 January of the year 1, which is a Monday, to 1 January of year `y`. */
  function Jan1(y: int): int
    decreases y
  {
    if y <= 1 then 0 else Jan1(y - 1) + DaysInYear(y - 1)
  }

  function DaysBeforeMonth(y: int, m: int): int
    requires 1 <= m <= 12
    decreases m
  {
    if m == 1 then 0 else DaysBeforeMonth(y, m - 1) + DaysInMonth(y, m - 1)
  }

  function DayNumber(d: Date): int {
    Jan1(d.year) + DaysBeforeMonth(d.year, d.month) + d.day - 1
  }

  predicate Earlier(a: Date, b: Date) {
    || a.year < b.year
    || (a.year == b.year && a.month < b.month)
    || (a.year == b.year && a.month == b.month && a.day < b.day)
  }

  /** The usual closed form. */
  lemma {:induction false} Jan1Closed(y: int)
    requires 1 <= y
    ensures Jan1(y) == 365 * (y - 1) + (y - 1) / 4 - (y - 1) / 100 + (y - 1) / 400
    decreases y
  {
    if 1 < y {
      Jan1Closed(y - 1);
      Quotients(y - 1);
      Multiples(y - 1);
    }
  }

  lemma Quotients(y: int)
    ensures y / 4 == (y - 1) / 4 + (if y % 4 == 0 then 1 else 0)
    ensures y / 100 == (y - 1) / 100 + (if y % 100 == 0 then 1 else 0)
    ensures y / 400 == (y - 1) / 400 + (if y % 400 == 0 then 1 else 0)
  {
  }

  lemma Multiples(y: int)
    ensures y % 400 == 0 ==> y % 100 == 0
    ensures y % 100 == 0 ==> y % 4 == 0
  {
  }

  lemma {:induction false} YearsGrow(y: int, z: int)
    requires 1 <= y <= z
    ensures Jan1(y) + 365 * (z - y) <= Jan1(z)
    decreases z - y
  {
    if y < z {
      YearsGrow(y, z - 1);
    }
  }

  lemma {:induction false} MonthsGrow(y: int, m: int, n: int)
    requires 1 <= m < n <= 12
    ensures DaysBeforeMonth(y, m) + DaysInMonth(y, m) <= DaysBeforeMonth(y, n)
    decreases n - m
  {
    if m < n - 1 {
      MonthsGrow(y, m, n - 1);
    }
  }

  lemma {:induction false} MonthTable(y: int, m: int)
    requires 1 <= m <= 12
    ensures DaysBeforeMonth(y, m)
         == [0, 31, 59, 90, 120, 151, 181, 212, 243, 273, 304, 334][m - 1] + (if m > 2 && IsLeap(y) then 1 else 0)
  {
    if m > 1 {
      MonthTable(y, m - 1);
    }
  }

  /** The order of dates is the order of day numbers, so different dates have different numbers. */
  lemma DayNumberOrder(a: Date, b: Date)
    ensures Earlier(a, b) <==> DayNumber(a) < DayNumber(b)
    ensures a == b <==> DayNumber(a) == DayNumber(b)
  {
    if Earlier(a, b) {
      EarlierIsSmaller(a, b);
    } else if Earlier(b, a) {
      EarlierIsSmaller(b, a);
    }
  }

  lemma EarlierIsSmaller(a: Date, b: Date)
    requires Earlier(a, b)
    ensures DayNumber(a) < DayNumber(b)
  {
    if a.year < b.year {
      YearsGrow(a.year + 1, b.year);
      DayInYear(a);
      DayInYear(b);
    } else if a.month < b.month {
      MonthsGrow(a.year, a.month, b.month);
    }
  }

  lemma DayInYear(d: Date)
    ensures Jan1(d.year) <= DayNumber(d) < Jan1(d.year + 1)
    ensures 0 <= Jan1(d.year) && 0 <= DayNumber(d)
  {
    MonthTable(d.year, d.month);
    YearsGrow(1, d.year);
    assert Jan1(d.year + 1) == Jan1(d.year) + DaysInYear(d.year);
  }

  // ------------------------------------------------------------ weeks

  /** Days since Monday. */
  function Weekday(d: Date): int {
    DayNumber(d) % 7
  }

  /** Weeks, numbered through from the first one. */
  function Week(d: Date): int {
    DayNumber(d) / 7
  }

  function Thursday(d: Date): int {
    7 * Week(d) + 3
  }

  /** The year that has the Thursday of the week: a week belongs to the year most of its days are in. */
  function WeekYear(d: Date): int {
    if Thursday(d) < Jan1(d.year) then d.year - 1
    else if Jan1(d.year + 1) <= Thursday(d) then d.year + 1
    else d.year
  }

  lemma WeekYearHasThursday(d: Date)
    ensures 1 <= WeekYear(d) && Jan1(WeekYear(d)) <= Thursday(d) < Jan1(WeekYear(d) + 1)
  {
    DayInYear(d);
    assert DayNumber(d) - 3 <= Thursday(d) <= DayNumber(d) + 3;
    assert Jan1(d.year + 2) == Jan1(d.year + 1) + DaysInYear(d.year + 1);
    if Thursday(d) < Jan1(d.year) {
      assert Jan1(d.year) == Jan1(d.year - 1) + DaysInYear(d.year - 1);
    }
  }

  /** The week number of section 3.2.2 of ISO 8601:2004: week 1 has the first Thursday of the year. */
  function IsoWeek(d: Date): int {
    (Thursday(d) - Jan1(WeekYear(d))) / 7 + 1
  }

  lemma IsoWeekRange(d: Date)
    ensures 1 <= IsoWeek(d) <= 53
  {
    WeekYearHasThursday(d);
    assert Jan1(WeekYear(d) + 1) == Jan1(WeekYear(d)) + DaysInYear(WeekYear(d));
  }

  lemma WeekYearsAreClose(a: Date, b: Date)
    requires 0 <= Thursday(b) - Thursday(a) <= 357
    ensures WeekYear(a) <= WeekYear(b) <= WeekYear(a) + 1
  {
    var y, z := WeekYear(a), WeekYear(b);
    WeekYearHasThursday(a);
    WeekYearHasThursday(b);
    if z < y {
      YearsGrow(z + 1, y);
    } else if y + 1 < z {
      YearsGrow(y + 1, z);
    }
  }

  /** Thursdays `s` and `t` in consecutive years that start `n` days apart. */
  lemma NumbersRepeatAfter359Days(s: int, t: int, n: int)
    requires 365 <= n <= 366 && 0 <= s < n && n <= t
    ensures s / 7 == (t - n) / 7 ==> 359 <= t - s
  {
  }

  lemma NumbersDifferWithinYear(s: int, t: int)
    requires 0 <= s && s + 7 <= t
    ensures s / 7 != t / 7
  {
  }

  lemma ThursdaysAreCloser(m: int, n: int)
    requires 0 <= n - m < 358
    ensures 0 <= 7 * (n / 7) - 7 * (m / 7) <= 357
  {
  }

  /** Less than 358 days apart, the bare week numbers differ exactly when the weeks do. */
  lemma WeekNumbersTellWeeks(a: Date, b: Date)
    requires 0 <= DayNumber(b) - DayNumber(a) < 358
    ensures IsoWeek(a) != IsoWeek(b) <==> Week(a) != Week(b)
  {
    var y := WeekYear(a);
    var j, s, t := Jan1(y), Thursday(a), Thursday(b);
    ThursdaysAreCloser(DayNumber(a), DayNumber(b));
    WeekYearsAreClose(a, b);
    WeekYearHasThursday(a);
    WeekYearHasThursday(b);
    if Week(a) == Week(b) {
      assert s == t;
    } else if WeekYear(b) == y {
      NumbersDifferWithinYear(s - j, t - j);
    } else {
      NumbersRepeatAfter359Days(s - j, t - j, Jan1(y + 1) - j);
    }
  }

  /** A week-numbering year and a week number in it identify a week. */
  lemma YearAndNumberTellWeek(a: Date, b: Date)
    ensures Week(a) == Week(b) <==> WeekYear(a) == WeekYear(b) && IsoWeek(a) == IsoWeek(b)
  {
    WeekYearHasThursday(a);
    WeekYearHasThursday(b);
    if Week(a) == Week(b) {
      SameThursdaySameYear(WeekYear(a), WeekYear(b), Thursday(a));
    } else if WeekYear(a) == WeekYear(b) {
      var s, t := Thursday(a) - Jan1(WeekYear(a)), Thursday(b) - Jan1(WeekYear(a));
      if s < t {
        NumbersDifferWithinYear(s, t);
      } else {
        NumbersDifferWithinYear(t, s);
      }
    }
  }

  lemma SameThursdaySameYear(y: int, z: int, thursday: int)
    requires 1 <= y && Jan1(y) <= thursday < Jan1(y + 1)
    requires 1 <= z && Jan1(z) <= thursday < Jan1(z + 1)
    ensures y == z
  {
    if y < z {
      YearsGrow(y + 1, z);
    } else if z < y {
      YearsGrow(z + 1, y);
    }
  }

  lemma FirstSunday(a: Date)
    requires Jan1(a.year) % 7 == 1 && (a.month, a.day) == (1, 6)
    ensures DayNumber(a) == Jan1(a.year) + 5 && Week(a) == Jan1(a.year) / 7 && IsoWeek(a) == 1
  {
  }

  lemma LastMondayOfTheYear(b: Date)
    requires Jan1(b.year) % 7 == 1 && !IsLeap(b.year) && (b.month, b.day) == (12, 30)
    ensures DayNumber(b) == Jan1(b.year) + 363 && Week(b) == Jan1(b.year) / 7 + 52 && IsoWeek(b) == 1
  {
  }

  /** The bound is tight: in every common year that starts on a Tuesday, Sunday 6 January and Monday
      30 December are 358 days apart and both in a week 1. */
  lemma WeekNumbersRepeat(a: Date, b: Date)
    requires a.year == b.year && Jan1(a.year) % 7 == 1 && !IsLeap(a.year)
    requires (a.month, a.day) == (1, 6) && (b.month, b.day) == (12, 30)
    ensures DayNumber(b) - DayNumber(a) == 358 && Week(a) != Week(b) && IsoWeek(a) == IsoWeek(b) == 1
  {
    FirstSunday(a);
    LastMondayOfTheYear(b);
  }

  /** 2019 was such a year. */
  lemma {:induction false} Year2019(y: int)
    requires y == 2019
    ensures Jan1(y) % 7 == 1 && !IsLeap(y)
  {
    Jan1Closed(y);
    assert Jan1(y) == 737059 == 7 * 105294 + 1;
  }

  /** Less than 335 days apart, the bare month numbers differ exactly when the calendar months do. */
  lemma MonthNumbersTellMonths(a: Date, b: Date)
    requires 0 <= DayNumber(b) - DayNumber(a) < 335
    ensures a.month != b.month <==> (a.year, a.month) != (b.year, b.month)
  {
    DayNumberOrder(a, b);
    if a.month == b.month && a.year < b.year {
      SameMonthOfLaterYear(a, b);
    }
  }

  lemma SameMonthOfLaterYear(a: Date, b: Date)
    requires a.month == b.month && a.year < b.year
    ensures 335 <= DayNumber(b) - DayNumber(a)
  {
    MonthTable(a.year, a.month);
    MonthTable(b.year, b.month);
    YearsGrow(a.year + 1, b.year);
    assert Jan1(a.year + 1) == Jan1(a.year) + DaysInYear(a.year);
  }

  /** The bound is tight: 31 January 2021 and 1 January 2022 are 335 days apart. */
  lemma MonthNumbersRepeat(a: Date, b: Date)
    requires a == CivilDate(2021, 1, 31) && b == CivilDate(2022, 1, 1)
    ensures DayNumber(b) - DayNumber(a) == 335 && a.month == b.month && a.year != b.year
  {
  }

  // ------------------------------------------------------------ going back

  function Yesterday(d: Date): (r: Date)
    requires 0 < DayNumber(d)
    ensures DayNumber(r) == DayNumber(d) - 1
  {
    if 1 < d.day then CivilDate(d.year, d.month, d.day - 1)
    else if 1 < d.month then CivilDate(d.year, d.month - 1, DaysInMonth(d.year, d.month - 1))
    else
      MonthTable(d.year - 1, 12);
      CivilDate(d.year - 1, 12, 31)
  }

  function DaysEarlier(d: Date, n: nat): (r: Date)
    requires n <= DayNumber(d)
    ensures DayNumber(r) == DayNumber(d) - n
    decreases n
  {
    if n == 0 then d else DaysEarlier(Yesterday(d), n - 1)
  }
}

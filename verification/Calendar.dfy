/**
 The proleptic Gregorian calendar on day numbers, as Python's datetime.date counts them
 (day 1 is 0001-01-01, a Monday), with the civil conversion in both directions and the
 ISO 8601 week date.  These are the dates strategyos_mvp/oracle_finance.py computes with.
 */
module Calendar {

  /** The day number of 9999-12-31, the last date that exists. */
  const MAX_ORDINAL := 3652059

  type Date = n: int | 1 <= n <= MAX_ORDINAL witness 1

  datatype Civil = Civil(year: int, month: int, day: int)

  predicate Leap(year: int) {
    year % 4 == 0 && (year % 100 != 0 || year % 400 == 0)
  }

  function YearLength(year: int): int {
    if Leap(year) then 366 else 365
  }

  function DaysBeforeYear(year: int): int
    requires year >= 1
  {
    if year == 1 then 0 else DaysBeforeYear(year - 1) + YearLength(year - 1)
  }

  function DaysInMonth(year: int, month: int): int {
    if month == 2 then (if Leap(year) then 29 else 28)
    else if month == 4 || month == 6 || month == 9 || month == 11 then 30
    else 31
  }

  function DaysBeforeMonth(year: int, month: int): int
    requires 1 <= month <= 13
  {
    var days :=
      if month == 1 then 0 else if month == 2 then 31 else if month == 3 then 59
      else if month == 4 then 90 else if month == 5 then 120 else if month == 6 then 151
      else if month == 7 then 181 else if month == 8 then 212 else if month == 9 then 243
      else if month == 10 then 273 else if month == 11 then 304 else if month == 12 then 334
      else 365;
    if month > 2 && Leap(year) then days + 1 else days
  }

  predicate ValidCivil(c: Civil) {
    c.year >= 1 && 1 <= c.month <= 12 && 1 <= c.day <= DaysInMonth(c.year, c.month)
  }

  function Ordinal(c: Civil): int
    requires ValidCivil(c)
  {
    DaysBeforeYear(c.year) + DaysBeforeMonth(c.year, c.month) + c.day
  }

  /** The first year from `year` on that is not over before day `n`. */
  function YearFrom(n: int, year: int): (y: int)
    requires year >= 1 && DaysBeforeYear(year) < n
    ensures y >= year && DaysBeforeYear(y) < n <= DaysBeforeYear(y + 1)
    decreases n - DaysBeforeYear(year)
  {
    if n <= DaysBeforeYear(year + 1) then year else YearFrom(n, year + 1)
  }

  function YearOf(n: int): (y: int)
    requires n >= 1
    ensures y >= 1 && DaysBeforeYear(y) < n <= DaysBeforeYear(y + 1)
  {
    YearFrom(n, 1)
  }

  /** The month holding the `k`-th day (from 0) of a year, searching from `month` on. */
  function MonthFrom(year: int, k: int, month: int): (m: int)
    requires 1 <= month <= 12 && DaysBeforeMonth(year, month) <= k < YearLength(year)
    ensures month <= m <= 12 && DaysBeforeMonth(year, m) <= k < DaysBeforeMonth(year, m + 1)
    decreases 12 - month
  {
    if k < DaysBeforeMonth(year, month + 1) then month else MonthFrom(year, k, month + 1)
  }

  function CivilOf(n: int): (c: Civil)
    requires n >= 1
    ensures ValidCivil(c) && Ordinal(c) == n && c.year == YearOf(n)
  {
    var year := YearOf(n);
    var k := n - 1 - DaysBeforeYear(year);
    var month := MonthFrom(year, k, 1);
    Civil(year, month, k - DaysBeforeMonth(year, month) + 1)
  }

  lemma QuotientStep(p: int, k: int)
    requires k == 4 || k == 100 || k == 400
    ensures (p + 1) / k == p / k + if (p + 1) % k == 0 then 1 else 0
  {
  }

  /** The closed form that datetime itself uses. */
  lemma {:induction false} DaysBeforeYearClosed(year: int)
    requires year >= 1
    ensures DaysBeforeYear(year) == 365 * (year - 1) + (year - 1) / 4 - (year - 1) / 100 + (year - 1) / 400
  {
    if year > 1 {
      DaysBeforeYearClosed(year - 1);
      QuotientStep(year - 2, 4);
      QuotientStep(year - 2, 100);
      QuotientStep(year - 2, 400);
      CenturyYears(year - 1);
    }
  }

  lemma CenturyYears(year: int)
    ensures year % 400 == 0 ==> year % 100 == 0
    ensures year % 100 == 0 ==> year % 4 == 0
  {
  }

  lemma {:induction false} YearsAreOrdered(a: int, b: int)
    requires 1 <= a <= b
    ensures DaysBeforeYear(a) <= DaysBeforeYear(b)
    decreases b - a
  {
    if a < b {
      YearsAreOrdered(a, b - 1);
    }
  }

  lemma YearIsUnique(n: int, year: int)
    requires year >= 1 && n >= 1 && DaysBeforeYear(year) < n <= DaysBeforeYear(year + 1)
    ensures YearOf(n) == year
  {
    if YearOf(n) < year {
      YearsAreOrdered(YearOf(n) + 1, year);
    } else if year < YearOf(n) {
      YearsAreOrdered(year + 1, YearOf(n));
    }
  }

  lemma MonthStep(year: int, month: int)
    requires 1 <= month <= 12
    ensures DaysBeforeMonth(year, month + 1) == DaysBeforeMonth(year, month) + DaysInMonth(year, month)
  {
  }

  lemma MonthsAreOrdered(year: int, a: int, b: int)
    requires 1 <= a <= b <= 13
    ensures 0 <= DaysBeforeMonth(year, a) <= DaysBeforeMonth(year, b) <= YearLength(year)
  {
  }

  lemma YearOfOrdinal(c: Civil)
    requires ValidCivil(c)
    ensures Ordinal(c) >= 1 && YearOf(Ordinal(c)) == c.year
  {
    MonthStep(c.year, c.month);
    MonthsAreOrdered(c.year, c.month, c.month + 1);
    YearsAreOrdered(1, c.year);
    YearIsUnique(Ordinal(c), c.year);
  }

  /** The civil conversions are inverse to each other: together with CivilOf's own contract, a bijection. */
  lemma CivilOfOrdinal(c: Civil)
    requires ValidCivil(c)
    ensures Ordinal(c) >= 1 && CivilOf(Ordinal(c)) == c
  {
    YearOfOrdinal(c);
    var d := CivilOf(Ordinal(c));
    MonthStep(c.year, c.month);
    MonthStep(d.year, d.month);
    if d.month < c.month {
      MonthsAreOrdered(c.year, d.month + 1, c.month);
    } else if c.month < d.month {
      MonthsAreOrdered(c.year, c.month + 1, d.month);
    }
  }

  lemma LastDayOfTime()
    ensures Ordinal(Civil(9999, 12, 31)) == MAX_ORDINAL
  {
    DaysBeforeYearClosed(9999);
  }

  lemma DatesHaveFourDigitYears(d: Date)
    ensures 1 <= YearOf(d) <= 9999
  {
    LastDayOfTime();
    if YearOf(d) > 9999 {
      YearsAreOrdered(10000, YearOf(d));
    }
  }

  // ----- ISO 8601 week dates -----

  /** Monday is 0. */
  function Weekday(n: int): int { (n + 6) % 7 }

  function MondayOf(n: int): int { n - Weekday(n) }

  /** The first Monday from day `n` on. */
  function MondayFrom(n: int): (m: int)
    ensures Weekday(m) == 0 && n <= m < n + 7
    decreases (7 - Weekday(n)) % 7
  {
    if Weekday(n) == 0 then n else MondayFrom(n + 1)
  }

  /** The Monday of the first ISO week of a year: the one within three days of January 1st. */
  function FirstIsoMonday(year: int): (m: int)
    requires year >= 1
    ensures Weekday(m) == 0 && DaysBeforeYear(year) - 2 <= m <= DaysBeforeYear(year) + 4
  {
    MondayFrom(DaysBeforeYear(year) + 1 - 3)
  }

  datatype IsoDate = IsoDate(year: int, week: int, day: int)

  /** date.isocalendar */
  function IsoCalendar(n: int): IsoDate
    requires n >= 1
  {
    var year := YearOf(n);
    var offset := n - FirstIsoMonday(year);
    if offset < 0 then
      // 0001-01-01 is a Monday, so year 1 has no such days.
      assert year > 1;
      var earlier := n - FirstIsoMonday(year - 1);
      IsoDate(year - 1, earlier / 7 + 1, earlier % 7 + 1)
    else if offset / 7 >= 52 && n >= FirstIsoMonday(year + 1) then
      IsoDate(year + 1, 1, offset % 7 + 1)
    else
      IsoDate(year, offset / 7 + 1, offset % 7 + 1)
  }

  lemma MondaysAreWeeksApart(a: int, b: int)
    requires Weekday(a) == 0 && Weekday(b) == 0
    ensures (b - a) % 7 == 0
  {
  }

  lemma DayOfWeek(n: int, monday: int)
    requires Weekday(monday) == 0
    ensures (n - monday) % 7 == Weekday(n)
  {
  }

  lemma IsoYearsAreFullWeeks(year: int)
    requires year >= 1
    ensures FirstIsoMonday(year) + 364 <= FirstIsoMonday(year + 1) <= FirstIsoMonday(year) + 371
  {
    MondaysAreWeeksApart(FirstIsoMonday(year), FirstIsoMonday(year + 1));
  }

  /** The days between the first Mondays of two ISO years are those of the first. */
  ghost predicate Brackets(n: int, iso: IsoDate) {
    && iso.year >= 1
    && FirstIsoMonday(iso.year) <= n < FirstIsoMonday(iso.year + 1)
    && iso.week == (n - FirstIsoMonday(iso.year)) / 7 + 1
    && iso.day == Weekday(n) + 1
  }

  /** January days before the first Monday belong to the year before. */
  lemma EarlyDays(n: int, year: int)
    requires n >= 1 && year == YearOf(n) && n < FirstIsoMonday(year)
    ensures Brackets(n, IsoCalendar(n))
  {
    DayOfWeek(n, FirstIsoMonday(year - 1));
    assert DaysBeforeYear(year) == DaysBeforeYear(year - 1) + YearLength(year - 1);
  }

  /** December days from the first Monday of the next year on belong to it. */
  lemma LateDays(n: int, year: int)
    requires n >= 1 && year == YearOf(n) && n >= FirstIsoMonday(year + 1)
    ensures Brackets(n, IsoCalendar(n))
  {
    var first, next, after := FirstIsoMonday(year), FirstIsoMonday(year + 1), FirstIsoMonday(year + 2);
    IsoYearsAreFullWeeks(year);
    IsoYearsAreFullWeeks(year + 1);
    DayOfWeek(n, first);
    assert next <= n < next + 7 && IsoCalendar(n) == IsoDate(year + 1, 1, (n - first) % 7 + 1);
  }

  /** The week belongs to the ISO year whose first Monday it follows. */
  lemma IsoYearBracketsWeek(n: int)
    requires n >= 1
    ensures Brackets(n, IsoCalendar(n))
  {
    var year := YearOf(n);
    if n < FirstIsoMonday(year) {
      EarlyDays(n, year);
    } else if n >= FirstIsoMonday(year + 1) {
      LateDays(n, year);
    } else {
      DayOfWeek(n, FirstIsoMonday(year));
    }
  }

  lemma WeeksCountedByThursday(n: int, first: int, newYear: int)
    requires Weekday(first) == 0 && newYear - 3 <= first <= newYear + 3
    ensures (n - first) / 7 == (MondayOf(n) + 3 - newYear) / 7
  {
    DayOfWeek(n, first);
    var weeks := (n - first) / 7;
    assert MondayOf(n) == first + 7 * weeks;
    assert MondayOf(n) + 3 - newYear == 7 * weeks + (first + 3 - newYear);
  }

  /** Section 4.1.4 of ISO 8601:2004: a week belongs to the year of its Thursday, and weeks are
      counted from the week that holds the year's first Thursday. */
  lemma IsoWeekFollowsThursday(n: int)
    requires n >= 1
    ensures var iso, thursday := IsoCalendar(n), MondayOf(n) + 3;
            && thursday >= 1
            && iso.year == YearOf(thursday)
            && iso.week == (thursday - DaysBeforeYear(iso.year) - 1) / 7 + 1
            && iso.day == n - MondayOf(n) + 1
            && 1 <= iso.week <= 53
  {
    IsoYearBracketsWeek(n);
    var year := IsoCalendar(n).year;
    WeekWithinYear(n, year);
    IsoYearsAreFullWeeks(year);
    YearIsUnique(MondayOf(n) + 3, year);
    WeeksCountedByThursday(n, FirstIsoMonday(year), DaysBeforeYear(year) + 1);
  }

  lemma WeekWithinYear(n: int, year: int)
    requires year >= 1 && FirstIsoMonday(year) <= n < FirstIsoMonday(year + 1)
    ensures FirstIsoMonday(year) <= MondayOf(n) <= FirstIsoMonday(year + 1) - 7
  {
    BetweenMondays(n, FirstIsoMonday(year), FirstIsoMonday(year + 1));
  }

  /** The week of a day lies between the Mondays around it. */
  lemma BetweenMondays(n: int, monday: int, next: int)
    requires Weekday(monday) == 0 && Weekday(next) == 0 && monday <= n < next
    ensures monday <= MondayOf(n) <= next - 7
  {
    DayOfWeek(n, monday);
    DayOfWeek(next, monday);
    var weeks, all := (n - monday) / 7, (next - monday) / 7;
    assert MondayOf(n) == monday + 7 * weeks && next == monday + 7 * all;
    assert weeks < all;
  }
}

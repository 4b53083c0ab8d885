/**
 Period keys and calendar windows (strategyos_mvp/oracle_finance.py): a date is printed as a key
 of its cadence, and a key is resolved back to the window of dates it stands for.
 */
module Periods {
  import opened Options
  import opened Strings
  import opened Numerals
  import opened Calendar

  datatype Cadence = Daily | Weekly | Monthly | Quarterly

  /** A window of dates, or the ValueError or OverflowError of the date arithmetic. */
  datatype Window = Window(first: Date, last: Date) | Raises

  /** ((month - 1) // 3) + 1 */
  function QuarterOf(month: int): int {
    if month <= 3 then 1 else if month <= 6 then 2 else if month <= 9 then 3 else 4
  }

  /** The key derived from a date that carries no explicit key. */
  function KeyOf(d: Date, cadence: Cadence): string {
    var c := CivilOf(d);
    match cadence
    case Daily => Pad(c.year, 4) + "-" + Pad(c.month, 2) + "-" + Pad(c.day, 2)
    case Weekly =>
      IsoWeekFollowsThursday(d);
      var iso := IsoCalendar(d);
      Digits(iso.year) + "-W" + Pad(iso.week, 2)
    case Monthly => Digits(c.year) + "-" + Pad(c.month, 2)
    case Quarterly => Digits(c.year) + "-Q" + Digits(QuarterOf(c.month))
  }

  /** Where "-" followed by `letter` first occurs in `s`, if it does. */
  function FindDash(s: string, letter: char): (r: Option<nat>)
    ensures r.Some? ==> r.value + 2 <= |s| && s[r.value] == '-' && s[r.value + 1] == letter
  {
    if |s| < 2 then None
    else if s[0] == '-' && s[1] == letter then Some(0)
    else
      match FindDash(s[1..], letter)
      case None => None
      case Some(i) => Some(i + 1)
  }

  function CountDashes(s: string): nat {
    if s == "" then 0 else (if s[0] == '-' then 1 else 0) + CountDashes(s[1..])
  }

  function InferCadence(key: string): Cadence {
    if FindDash(key, 'W').Some? then Weekly
    else if FindDash(key, 'Q').Some? then Quarterly
    else if |key| == 10 && CountDashes(key) == 2 then Daily
    else Monthly
  }

  function DateOf(c: Civil): Option<Date> {
    if ValidCivil(c) && c.year <= 9999 then
      CivilOfOrdinal(c);
      LastDayOfTime();
      if Ordinal(c) <= MAX_ORDINAL then Some(Ordinal(c)) else None
    else None
  }

  /** A date written as YYYY-MM-DD. */
  function ReadIsoDate(s: string): Option<Date> {
    if |s| == 10 && s[4] == '-' && s[7] == '-'
       && AllDigits(s[..4]) && AllDigits(s[5..7]) && AllDigits(s[8..])
    then
      match (ReadDigits(s[..4]), ReadDigits(s[5..7]), ReadDigits(s[8..]))
      case (Some(y), Some(m), Some(d)) => DateOf(Civil(y, m, d))
      case _ => None
    else None
  }

  /** The first day of the month a key such as 2024-05 names. */
  function MonthlyStart(key: string): (r: Option<Civil>)
    ensures r.Some? ==> ValidCivil(r.value) && r.value.year <= 9999 && r.value.day == 1
  {
    var s := Strip(key);
    if |s| >= 7 && s[4] == '-' then
      match (ReadInt(s[..4]), ReadInt(s[5..7]))
      case (Some(y), Some(m)) =>
        if 1 <= y <= 9999 && 1 <= m <= 12 then Some(Civil(y, m, 1)) else None
      case _ => None
    else None
  }

  /** An explicit key is stripped, and a monthly one is rewritten in the derived form. */
  function NormalizeKey(key: string, cadence: Cadence): string {
    if cadence == Monthly && MonthlyStart(Strip(key)).Some? then
      var c := MonthlyStart(Strip(key)).value;
      Digits(c.year) + "-" + Pad(c.month, 2)
    else Strip(key)
  }

  function Upto(first: Date, end: Option<Date>, last: int): Window
    requires last >= 1
  {
    if end.Some? then Window(first, end.value)
    else if last <= MAX_ORDINAL then Window(first, last)
    else Raises
  }

  /** date.fromisocalendar(year, week, 1) */
  function FromIsoWeek(year: int, week: int): Option<Date> {
    if 1 <= year <= 9999 && 1 <= week <= 53
       && (week == 53 ==> FirstIsoMonday(year + 1) - FirstIsoMonday(year) == 371)
    then
      var monday := FirstIsoMonday(year) + 7 * (week - 1);
      if 1 <= monday <= MAX_ORDINAL then Some(monday) else None
    else None
  }

  /** The day a key falls back on when it names no longer period. */
  function DayFor(key: string, start: Option<Date>, today: Date): Date {
    if start.Some? then start.value else ReadIsoDate(key).Or(today)
  }

  function ResolveWeekly(key: string, start: Option<Date>, end: Option<Date>, today: Date): Window {
    var dash := FindDash(key, 'W');
    if dash.Some? && dash.value > 0 && dash.value + 2 < |key| then
      match (ReadInt(key[..dash.value]), ReadInt(key[dash.value + 2..]))
      case (Some(year), Some(week)) =>
        (match FromIsoWeek(year, week)
         case Some(monday) => Upto(monday, end, monday + 6)
         case None => Raises)
      case _ => Raises
    else Upto(start.Or(today), end, start.Or(today) + 6)
  }

  function ResolveQuarterly(key: string, start: Option<Date>, end: Option<Date>, today: Date): Window {
    var dash := FindDash(key, 'Q');
    if dash.None? then Upto(DayFor(key, start, today), end, DayFor(key, start, today))
    else QuarterWindow(ReadInt(key[..if |key| < 4 then |key| else 4]), ReadInt(key[dash.value + 2..]), start, end)
  }

  function QuarterWindow(year: Option<int>, quarter: Option<int>, start: Option<Date>, end: Option<Date>): Window {
    match (year, quarter)
    case (Some(y), Some(q)) =>
      if 1 <= y <= 9999 && 1 <= q <= 4 then MonthWindow(y, 3 * q - 2, 3 * q, start, end) else Raises
    case _ => Raises
  }

  function ResolveBounds(key: string, cadence: Cadence, start: Option<Date>, end: Option<Date>, today: Date): Window {
    if start.Some? && end.Some? then Window(start.value, end.value)
    else
      match cadence
      case Daily => Upto(DayFor(key, start, today), end, DayFor(key, start, today))
      case Weekly => ResolveWeekly(key, start, end, today)
      case Monthly =>
        (match MonthlyStart(key)
         case Some(c) => MonthWindow(c.year, c.month, c.month, None, end)
         case None => Upto(DayFor(key, start, today), end, DayFor(key, start, today)))
      case Quarterly => ResolveQuarterly(key, start, end, today)
  }

  /** From the first day of one month to the last day of another of the same year. */
  function MonthWindow(year: int, from: int, to: int, start: Option<Date>, end: Option<Date>): (w: Window)
    requires 1 <= year <= 9999 && 1 <= from <= to <= 12
    ensures start.None? && end.None? ==>
              w.Window? && w.first == Ordinal(Civil(year, from, 1))
              && w.last == Ordinal(Civil(year, to, DaysInMonth(year, to)))
  {
    MonthsFit(year, from, to);
    Upto(start.Or(Ordinal(Civil(year, from, 1))), end, Ordinal(Civil(year, to, DaysInMonth(year, to))))
  }

  lemma MonthsFit(year: int, from: int, to: int)
    requires 1 <= year <= 9999 && 1 <= from <= to <= 12
    ensures 1 <= Ordinal(Civil(year, from, 1)) <= Ordinal(Civil(year, to, DaysInMonth(year, to))) <= MAX_ORDINAL
  {
    CivilOfOrdinal(Civil(year, from, 1));
    MonthsAreOrdered(year, from, to);
    MonthStep(year, to);
    MonthsAreOrdered(year, to + 1, 13);
    YearsAreOrdered(year + 1, 10000);
    LastDayOfTime();
  }

  // ----- The calendar window of a date, independently of keys -----

  datatype Span = Span(first: int, last: int) {
    predicate Has(n: int) { first <= n <= last }
  }

  /** The day, ISO week, month or quarter that holds a date. */
  function SpanOf(d: Date, cadence: Cadence): Span {
    var c := CivilOf(d);
    match cadence
    case Daily => Span(d, d)
    case Weekly => Span(MondayOf(d), MondayOf(d) + 6)
    case Monthly => MonthSpan(c.year, c.month, c.month)
    case Quarterly => MonthSpan(c.year, 3 * QuarterOf(c.month) - 2, 3 * QuarterOf(c.month))
  }

  function MonthSpan(year: int, from: int, to: int): Span
    requires year >= 1 && 1 <= from <= to <= 12
  {
    Span(Ordinal(Civil(year, from, 1)), Ordinal(Civil(year, to, DaysInMonth(year, to))))
  }

  lemma CivilInMonthSpan(c: Civil, year: int, from: int, to: int)
    requires ValidCivil(c) && year >= 1 && 1 <= from <= to <= 12
    ensures MonthSpan(year, from, to).Has(Ordinal(c)) <==> c.year == year && from <= c.month <= to
  {
    MonthStep(year, to);
    MonthStep(c.year, c.month);
    if c.year < year {
      MonthsAreOrdered(c.year, c.month, c.month + 1);
      MonthsAreOrdered(year, from, from);
      YearsAreOrdered(c.year + 1, year);
    } else if year < c.year {
      MonthsAreOrdered(c.year, c.month, c.month);
      MonthsAreOrdered(year, to + 1, to + 1);
      YearsAreOrdered(year + 1, c.year);
    } else if c.month < from {
      MonthsAreOrdered(year, c.month + 1, from);
    } else if to < c.month {
      MonthsAreOrdered(year, to + 1, c.month);
    } else {
      MonthsAreOrdered(year, from, c.month);
      MonthsAreOrdered(year, c.month + 1, to + 1);
    }
  }

  /** A day lies in a span of months exactly when its civil date says so. */
  lemma MonthSpanHas(n: int, year: int, from: int, to: int)
    requires n >= 1 && year >= 1 && 1 <= from <= to <= 12
    ensures MonthSpan(year, from, to).Has(n) <==> CivilOf(n).year == year && from <= CivilOf(n).month <= to
  {
    CivilInMonthSpan(CivilOf(n), year, from, to);
  }

  lemma MonthlyPartition(d: Date, e: Date)
    ensures SpanOf(d, Monthly).Has(e) <==> SpanOf(d, Monthly) == SpanOf(e, Monthly)
    ensures SpanOf(d, Monthly) == SpanOf(e, Monthly) <==>
            YearOf(d) == YearOf(e) && CivilOf(d).month == CivilOf(e).month
  {
    MonthSpanHas(e, YearOf(d), CivilOf(d).month, CivilOf(d).month);
    MonthSpanHas(e, YearOf(e), CivilOf(e).month, CivilOf(e).month);
  }

  lemma WeeklyPartition(d: int, e: int)
    ensures MondayOf(d) <= e <= MondayOf(d) + 6 <==> MondayOf(e) == MondayOf(d)
  {
    DayOfWeek(e, MondayOf(d));
  }

  lemma QuarterMonths(month: int, quarter: int)
    requires 1 <= month <= 12
    ensures 1 <= QuarterOf(month) <= 4
    ensures QuarterOf(month) == quarter <==> 3 * quarter - 2 <= month <= 3 * quarter
  {
  }

  lemma QuarterSpanHas(n: int, year: int, quarter: int)
    requires n >= 1 && year >= 1 && 1 <= quarter <= 4
    ensures MonthSpan(year, 3 * quarter - 2, 3 * quarter).Has(n)
            <==> YearOf(n) == year && QuarterOf(CivilOf(n).month) == quarter
  {
    MonthSpanHas(n, year, 3 * quarter - 2, 3 * quarter);
    QuarterMonths(CivilOf(n).month, quarter);
  }

  lemma QuarterlyPartition(d: Date, e: Date)
    ensures SpanOf(d, Quarterly).Has(e) <==> SpanOf(d, Quarterly) == SpanOf(e, Quarterly)
    ensures SpanOf(d, Quarterly) == SpanOf(e, Quarterly) <==>
            YearOf(d) == YearOf(e) && QuarterOf(CivilOf(d).month) == QuarterOf(CivilOf(e).month)
  {
    var p, q := QuarterOf(CivilOf(d).month), QuarterOf(CivilOf(e).month);
    QuarterMonths(CivilOf(d).month, p);
    QuarterMonths(CivilOf(e).month, q);
    QuarterSpanHas(e, YearOf(d), p);
    QuarterSpanHas(e, YearOf(e), q);
  }

  /** Every cadence partitions the calendar: a date lies in its span, and whatever lies in it has the same one. */
  lemma SpansPartition(d: Date, e: Date, cadence: Cadence)
    ensures SpanOf(d, cadence).Has(d)
    ensures SpanOf(d, cadence).Has(e) <==> SpanOf(d, cadence) == SpanOf(e, cadence)
  {
    match cadence
    case Daily =>
    case Weekly =>
      WeeklyPartition(d, e);
    case Monthly =>
      MonthlyPartition(d, d);
      MonthlyPartition(d, e);
    case Quarterly =>
      QuarterlyPartition(d, d);
      QuarterlyPartition(d, e);
  }

  // ----- Reading keys back -----

  lemma {:induction false} FindDashAfter(prefix: string, letter: char, rest: string)
    requires forall i :: 0 <= i < |prefix| ==> prefix[i] != '-'
    ensures FindDash(prefix + ['-', letter] + rest, letter) == Some(|prefix|)
  {
    var s := prefix + ['-', letter] + rest;
    if prefix != "" {
      assert s[1..] == prefix[1..] + ['-', letter] + rest;
      FindDashAfter(prefix[1..], letter, rest);
    }
  }

  lemma {:induction false} NoLetterNoDash(s: string, letter: char)
    requires forall i :: 0 <= i < |s| ==> s[i] != letter
    ensures FindDash(s, letter) == None
  {
    if |s| >= 2 {
      NoLetterNoDash(s[1..], letter);
    }
  }

  lemma {:induction false} CountDashesOfConcat(s: string, t: string)
    ensures CountDashes(s + t) == CountDashes(s) + CountDashes(t)
  {
    if s == "" {
      assert s + t == t;
    } else {
      assert (s + t)[1..] == s[1..] + t;
      CountDashesOfConcat(s[1..], t);
    }
  }

  lemma {:induction false} DigitsHaveNoDash(s: string)
    requires AllDigits(s)
    ensures CountDashes(s) == 0
  {
    if s != "" {
      DigitsHaveNoDash(s[1..]);
    }
  }

  /** The lengths of the numerals in a daily key. */
  lemma DailyParts(d: Date)
    ensures var c := CivilOf(d);
            |Pad(c.year, 4)| == 4 && |Pad(c.month, 2)| == 2 && |Pad(c.day, 2)| == 2
  {
    var c := CivilOf(d);
    DatesHaveFourDigitYears(d);
    DigitsLength(c.year);
    DigitsLength(c.month);
    DigitsLength(c.day);
  }

  lemma DailyShape(y: string, m: string, d: string)
    requires AllDigits(y) && AllDigits(m) && AllDigits(d) && |y| == 4 && |m| == 2 && |d| == 2
    ensures var key := y + "-" + m + "-" + d;
            && |key| == 10 && key[4] == '-' && key[7] == '-'
            && key[..4] == y && key[5..7] == m && key[8..] == d
            && CountDashes(key) == 2 && Unlettered(key)
  {
    DashedDigits(y, m);
    DashedDigits(y + "-" + m, d);
    DigitsHaveNoDash(y);
    DigitsHaveNoDash(m);
    DigitsHaveNoDash(d);
  }

  /** Nothing but digits and dashes. */
  predicate Unlettered(s: string) {
    forall i :: 0 <= i < |s| ==> IsDigit(s[i]) || s[i] == '-'
  }

  lemma DashedDigits(s: string, t: string)
    ensures CountDashes(s + "-" + t) == CountDashes(s) + 1 + CountDashes(t)
  {
    CountDashesOfConcat(s + "-", t);
    CountDashesOfConcat(s, "-");
  }

  lemma InferUnlettered(key: string)
    requires Unlettered(key)
    ensures InferCadence(key) == if |key| == 10 && CountDashes(key) == 2 then Daily else Monthly
  {
    NoLetterNoDash(key, 'W');
    NoLetterNoDash(key, 'Q');
  }

  lemma QuarterKeyHasNoWeek(year: string, quarter: string)
    requires AllDigits(year) && AllDigits(quarter)
    ensures FindDash(year + ['-', 'Q'] + quarter, 'W') == None
  {
    var key := year + ['-', 'Q'] + quarter;
    forall i | 0 <= i < |key| ensures key[i] != 'W' {
      if i < |year| {
        assert IsDigit(year[i]);
      } else if i >= |year| + 2 {
        assert IsDigit(quarter[i - |year| - 2]);
      }
    }
    NoLetterNoDash(key, 'W');
  }

  /** The cadence of a derived key can be read off the key. */
  lemma CadenceIsInferred(d: Date, cadence: Cadence)
    ensures InferCadence(KeyOf(d, cadence)) == cadence
  {
    var c := CivilOf(d);
    match cadence
    case Daily =>
      DailyParts(d);
      DailyShape(Pad(c.year, 4), Pad(c.month, 2), Pad(c.day, 2));
      InferUnlettered(KeyOf(d, Daily));
    case Weekly =>
      WeeklyKeyParts(d);
    case Monthly =>
      ShortYears(d);
      MonthlyKeyParts(d);
      InferUnlettered(KeyOf(d, Monthly));
    case Quarterly =>
      QuarterlyKeyParts(d);
      QuarterKeyHasNoWeek(Digits(c.year), Digits(QuarterOf(c.month)));
      assert KeyOf(d, Quarterly) == Digits(c.year) + ['-', 'Q'] + Digits(QuarterOf(c.month));
  }

  lemma WeeklyKeyParts(d: Date)
    ensures var key, year := KeyOf(d, Weekly), Digits(IsoCalendar(d).year);
            && FindDash(key, 'W') == Some(|year|) && |year| + 2 < |key|
            && key[..|year|] == year && key[|year| + 2..] == Pad(IsoCalendar(d).week, 2)
  {
    IsoWeekFollowsThursday(d);
    var iso := IsoCalendar(d);
    var year, week := Digits(iso.year), Pad(iso.week, 2);
    FindDashAfter(year, 'W', week);
    assert KeyOf(d, Weekly) == year + ['-', 'W'] + week;
  }

  lemma QuarterlyKeyParts(d: Date)
    ensures var c, key := CivilOf(d), KeyOf(d, Quarterly);
            var year := Digits(c.year);
            && FindDash(key, 'Q') == Some(|year|) && |year| + 2 <= |key|
            && key[..|year|] == year && key[|year| + 2..] == Digits(QuarterOf(c.month))
            && key[|year|] == '-'
  {
    var c := CivilOf(d);
    var year, quarter := Digits(c.year), Digits(QuarterOf(c.month));
    FindDashAfter(year, 'Q', quarter);
    assert KeyOf(d, Quarterly) == year + ['-', 'Q'] + quarter;
  }

  lemma MonthlyShape(year: string, month: string)
    requires AllDigits(year) && AllDigits(month) && year != "" && |month| == 2
    ensures var key := year + "-" + month;
            && |key| == |year| + 3 && key[..|year|] == year && key[|year|] == '-'
            && key[|year| + 1..] == month && Strip(key) == key && Unlettered(key)
  {
    var key := year + "-" + month;
    assert IsDigit(year[0]) && IsDigit(month[1]);
    assert key[0] == year[0] && key[|key| - 1] == month[1];
  }

  lemma MonthlyKeyParts(d: Date)
    ensures var c, key := CivilOf(d), KeyOf(d, Monthly);
            var year := Digits(c.year);
            && |key| == |year| + 3 && key[..|year|] == year && key[|year|] == '-'
            && key[|year| + 1..] == Pad(c.month, 2) && Strip(key) == key && Unlettered(key)
  {
    var c := CivilOf(d);
    DigitsLength(c.month);
    MonthlyShape(Digits(c.year), Pad(c.month, 2));
  }

  predicate StandsFor(w: Window, span: Span) {
    w.Window? && w.first == span.first && w.last == span.last
  }

  /** Where a derived key can be resolved: the year of a monthly or quarterly key must fill the four
      characters the parser cuts out, and the last day of a week must exist. */
  predicate Resolvable(d: Date, cadence: Cadence) {
    match cadence
    case Daily => true
    case Weekly => MondayOf(d) + 6 <= MAX_ORDINAL
    case Monthly => YearOf(d) >= 1000
    case Quarterly => YearOf(d) >= 1000
  }

  lemma DailyKeyResolves(d: Date)
    ensures ReadIsoDate(KeyOf(d, Daily)) == Some(d)
  {
    var c := CivilOf(d);
    DailyParts(d);
    DailyShape(Pad(c.year, 4), Pad(c.month, 2), Pad(c.day, 2));
    ReadDigitsOfPad(c.year, 4);
    ReadDigitsOfPad(c.month, 2);
    ReadDigitsOfPad(c.day, 2);
    DatesHaveFourDigitYears(d);
    assert DateOf(c) == Some(d);
  }

  /** The Monday of a week, from its ISO year and number. */
  lemma MondayOfIsoWeek(d: Date)
    ensures var iso := IsoCalendar(d);
            && MondayOf(d) == FirstIsoMonday(iso.year) + 7 * (iso.week - 1)
            && (iso.week == 53 ==> FirstIsoMonday(iso.year + 1) - FirstIsoMonday(iso.year) == 371)
  {
    IsoYearBracketsWeek(d);
    var year := IsoCalendar(d).year;
    WeeksFrom(d, FirstIsoMonday(year));
    IsoYearsAreFullWeeks(year);
    FiftyThreeWeeks(d, FirstIsoMonday(year), FirstIsoMonday(year + 1));
  }

  lemma WeeksFrom(n: int, first: int)
    requires Weekday(first) == 0
    ensures MondayOf(n) == first + 7 * ((n - first) / 7)
  {
    DayOfWeek(n, first);
  }

  lemma FiftyThreeWeeks(n: int, first: int, next: int)
    requires Weekday(first) == 0 && Weekday(next) == 0 && first <= n < next
    requires first + 364 <= next <= first + 371
    ensures (n - first) / 7 + 1 == 53 ==> next - first == 371
  {
    MondaysAreWeeksApart(first, next);
  }

  lemma FromOwnIsoWeek(d: Date)
    ensures FromIsoWeek(IsoCalendar(d).year, IsoCalendar(d).week) == Some(MondayOf(d))
  {
    MondayOfIsoWeek(d);
    IsoWeekFollowsThursday(d);
    ThursdayYearExists(d);
  }

  /** The week of a key and the end a row may carry. */
  lemma GivenWeek(d: Date, start: Option<Date>, end: Option<Date>, today: Date)
    ensures var w := ResolveWeekly(KeyOf(d, Weekly), start, end, today);
            if end.None? && MondayOf(d) + 6 > MAX_ORDINAL then w == Raises
            else w.Window? && w.first == MondayOf(d) && w.last == if end.Some? then end.value else MondayOf(d) + 6
  {
    var iso := IsoCalendar(d);
    IsoWeekFollowsThursday(d);
    WeeklyKeyParts(d);
    ReadIntOfDigits(iso.year);
    ReadIntOfPad(iso.week, 2);
    FromOwnIsoWeek(d);
  }

  lemma WeeklyKeyResolves(d: Date, today: Date)
    ensures var w := ResolveBounds(KeyOf(d, Weekly), Weekly, None, None, today);
            if MondayOf(d) + 6 <= MAX_ORDINAL then StandsFor(w, SpanOf(d, Weekly)) else w == Raises
  {
    GivenWeek(d, None, None, today);
  }

  /** No date belongs to ISO year 10000: 9999-12-31 is a Friday. */
  lemma ThursdayYearExists(d: Date)
    ensures IsoCalendar(d).year <= 9999 && MondayOf(d) >= 1
  {
    IsoWeekFollowsThursday(d);
    LastDayOfTime();
    var thursday := MondayOf(d) + 3;
    assert Weekday(MAX_ORDINAL) == 4;
    assert thursday <= MAX_ORDINAL;
    DatesHaveFourDigitYears(thursday);
  }

  lemma ShortYears(d: Date)
    ensures |Digits(YearOf(d))| == 4 <==> YearOf(d) >= 1000
    ensures 1 <= |Digits(YearOf(d))| <= 4
  {
    DatesHaveFourDigitYears(d);
    DigitsLength(YearOf(d));
  }

  lemma ReadMonthly(key: string, year: nat, month: nat)
    requires 1000 <= year <= 9999 && 1 <= month <= 12 && |key| == 7
    requires key[..4] == Digits(year) && key[4] == '-' && key[5..] == Pad(month, 2) && Strip(key) == key
    ensures MonthlyStart(key) == Some(Civil(year, month, 1))
  {
    ReadIntOfDigits(year);
    ReadIntOfPad(month, 2);
    assert key[5..7] == key[5..];
  }

  lemma MonthlyKeyResolves(d: Date)
    ensures MonthlyStart(KeyOf(d, Monthly))
         == if YearOf(d) >= 1000 then Some(Civil(YearOf(d), CivilOf(d).month, 1)) else None
  {
    var c, key := CivilOf(d), KeyOf(d, Monthly);
    MonthlyKeyParts(d);
    ShortYears(d);
    DatesHaveFourDigitYears(d);
    if c.year >= 1000 {
      ReadMonthly(key, c.year, c.month);
    }
  }

  lemma QuarterlyKeyNumbers(d: Date)
    ensures var key, quarter := KeyOf(d, Quarterly), QuarterOf(CivilOf(d).month);
            && FindDash(key, 'Q').Some?
            && ReadInt(key[FindDash(key, 'Q').value + 2..]) == Some(quarter) && 1 <= quarter <= 4
            && ReadInt(key[..if |key| < 4 then |key| else 4]) == (if YearOf(d) >= 1000 then Some(YearOf(d)) else None)
  {
    var c, key := CivilOf(d), KeyOf(d, Quarterly);
    QuarterlyKeyParts(d);
    ShortYears(d);
    QuarterMonths(c.month, QuarterOf(c.month));
    ReadIntOfDigits(QuarterOf(c.month));
    if c.year >= 1000 {
      ReadIntOfDigits(c.year);
    } else {
      CutYear(key, |Digits(c.year)|);
    }
  }

  lemma QuarterStandsFor(year: int, quarter: int)
    requires 1 <= year <= 9999 && 1 <= quarter <= 4
    ensures StandsFor(QuarterWindow(Some(year), Some(quarter), None, None),
                      MonthSpan(year, 3 * quarter - 2, 3 * quarter))
  {
  }

  lemma QuarterlyKeyResolves(d: Date, today: Date)
    ensures var w := ResolveQuarterly(KeyOf(d, Quarterly), None, None, today);
            if YearOf(d) >= 1000 then StandsFor(w, SpanOf(d, Quarterly)) else w == Raises
  {
    QuarterlyKeyNumbers(d);
    DatesHaveFourDigitYears(d);
    QuarterStandsFor(YearOf(d), QuarterOf(CivilOf(d).month));
  }

  /** Four characters that hold a dash after digits are no number. */
  lemma CutYear(key: string, dash: nat)
    requires 1 <= dash <= 3 && dash + 2 <= |key| && AllDigits(key[..dash]) && key[dash] == '-'
    requires key[dash + 1] == 'Q' && AllDigits(key[dash + 2..])
    ensures ReadInt(key[..if |key| < 4 then |key| else 4]) == None
  {
    var s := key[..if |key| < 4 then |key| else 4];
    assert s[0] == key[..dash][0] && IsDigit(s[0]);
    assert forall i :: 0 <= i < |s| ==> !IsSpace(s[i]) by {
      forall i | 0 <= i < |s| ensures !IsSpace(s[i]) {
        if i < dash {
          assert s[i] == key[..dash][i];
        } else if i >= dash + 2 {
          assert s[i] == key[dash + 2..][i - dash - 2];
        }
      }
    }
    assert Strip(s) == s;
    UnreadableDigit(s, dash);
  }

  lemma {:induction false} UnreadableDigit(s: string, i: nat)
    requires i < |s| && !IsDigit(s[i]) && s[i] != '_'
    ensures ReadDigits(s) == None
  {
    if i < |s| - 1 {
      if s[|s| - 2] == '_' {
        if i < |s| - 2 {
          UnreadableDigit(s[..|s| - 2], i);
        }
      } else {
        UnreadableDigit(s[..|s| - 1], i);
      }
    }
  }

  /** A derived key resolves to the span of its date exactly when it is resolvable; otherwise a weekly
      or quarterly key raises, and a monthly one silently stands for today alone. */
  lemma KeyResolvesToSpan(d: Date, cadence: Cadence, today: Date)
    ensures var w := ResolveBounds(KeyOf(d, cadence), cadence, None, None, today);
            && (StandsFor(w, SpanOf(d, cadence)) <==> Resolvable(d, cadence))
            && (!Resolvable(d, cadence) ==> w == if cadence == Monthly then Window(today, today) else Raises)
  {
    match cadence
    case Daily => DailyKeyResolves(d);
    case Weekly => WeeklyKeyResolves(d, today);
    case Monthly =>
      MonthlyKeyResolves(d);
      if YearOf(d) < 1000 {
        ShortMonthlyKey(d);
        MonthStep(YearOf(d), CivilOf(d).month);
      }
    case Quarterly => QuarterlyKeyResolves(d, today);
  }

  /** The keys of the five days from Monday 9999-12-27 on, the last ones there are, raise: their week has no Sunday. */
  lemma LastWeekRaises(d: Date, today: Date)
    requires d >= MAX_ORDINAL - 4
    ensures ResolveBounds(KeyOf(d, Weekly), Weekly, None, None, today) == Raises
  {
    LastWeek(d);
    WeeklyKeyResolves(d, today);
  }

  lemma LastWeek(d: Date)
    requires d >= MAX_ORDINAL - 4
    ensures MondayOf(d) + 6 > MAX_ORDINAL
  {
  }

  lemma ShortMonthlyKey(d: Date)
    requires YearOf(d) < 1000
    ensures ReadIsoDate(KeyOf(d, Monthly)) == None
  {
    MonthlyKeyParts(d);
    ShortYears(d);
  }

  lemma WeekKeys(d: Date, e: Date)
    ensures KeyOf(d, Weekly) == KeyOf(e, Weekly) <==> MondayOf(d) == MondayOf(e)
  {
    WeeklyKeyParts(d);
    WeeklyKeyParts(e);
    IsoWeekFollowsThursday(d);
    IsoWeekFollowsThursday(e);
    if KeyOf(d, Weekly) == KeyOf(e, Weekly) {
      PadIsInjective(IsoCalendar(d).year, IsoCalendar(e).year, 0);
      PadIsInjective(IsoCalendar(d).week, IsoCalendar(e).week, 2);
      MondayOfIsoWeek(d);
      MondayOfIsoWeek(e);
    }
  }

  lemma MonthKeys(d: Date, e: Date)
    ensures KeyOf(d, Monthly) == KeyOf(e, Monthly) <==>
            YearOf(d) == YearOf(e) && CivilOf(d).month == CivilOf(e).month
  {
    MonthlyKeyParts(d);
    MonthlyKeyParts(e);
    if KeyOf(d, Monthly) == KeyOf(e, Monthly) {
      PadIsInjective(YearOf(d), YearOf(e), 0);
      PadIsInjective(CivilOf(d).month, CivilOf(e).month, 2);
    }
  }

  lemma QuarterKeys(d: Date, e: Date)
    ensures KeyOf(d, Quarterly) == KeyOf(e, Quarterly) <==>
            YearOf(d) == YearOf(e) && QuarterOf(CivilOf(d).month) == QuarterOf(CivilOf(e).month)
  {
    QuarterlyKeyParts(d);
    QuarterlyKeyParts(e);
    var p, q := QuarterOf(CivilOf(d).month), QuarterOf(CivilOf(e).month);
    if KeyOf(d, Quarterly) == KeyOf(e, Quarterly) {
      PadIsInjective(YearOf(d), YearOf(e), 0);
      PadIsInjective(p, q, 0);
    }
  }

  /** Dates share a key exactly when they share a span. */
  lemma KeysTellSpansApart(d: Date, e: Date, cadence: Cadence)
    ensures KeyOf(d, cadence) == KeyOf(e, cadence) <==> SpanOf(d, cadence) == SpanOf(e, cadence)
  {
    match cadence
    case Daily =>
      DailyKeyResolves(d);
      DailyKeyResolves(e);
    case Weekly => WeekKeys(d, e);
    case Monthly =>
      MonthKeys(d, e);
      MonthlyPartition(d, e);
    case Quarterly =>
      QuarterKeys(d, e);
      QuarterlyPartition(d, e);
  }

  /** An explicit key in the derived form is a fixed point of normalization. */
  lemma DerivedKeysAreNormal(d: Date)
    ensures NormalizeKey(KeyOf(d, Monthly), Monthly) == KeyOf(d, Monthly)
  {
    MonthlyKeyParts(d);
    MonthlyKeyResolves(d);
  }

  // ----- Keys that are not derived -----

  lemma {:induction false} IsoYearsAreOrdered(a: int, b: int)
    requires 1 <= a <= b
    ensures FirstIsoMonday(a) <= FirstIsoMonday(b)
    decreases b - a
  {
    if a < b {
      IsoYearsAreFullWeeks(a);
      IsoYearsAreOrdered(a + 1, b);
    }
  }

  /** Only one ISO year brackets a day. */
  lemma IsoYearIsUnique(n: int, year: int)
    requires n >= 1 && year >= 1 && FirstIsoMonday(year) <= n < FirstIsoMonday(year + 1)
    ensures IsoCalendar(n).year == year
  {
    IsoYearBracketsWeek(n);
    var other := IsoCalendar(n).year;
    if other < year {
      IsoYearsAreOrdered(other + 1, year);
    } else if year < other {
      IsoYearsAreOrdered(year + 1, other);
    }
  }

  /** An ISO year and week name a Monday exactly when that Monday lies in that week of that year. */
  lemma IsoWeekExactly(year: int, week: int, monday: Date)
    ensures FromIsoWeek(year, week) == Some(monday) <==> IsoCalendar(monday) == IsoDate(year, week, 1)
  {
    IsoWeekFollowsThursday(monday);
    if IsoCalendar(monday) == IsoDate(year, week, 1) {
      FromOwnIsoWeek(monday);
    } else if FromIsoWeek(year, week) == Some(monday) {
      var first := FirstIsoMonday(year);
      IsoYearsAreFullWeeks(year);
      DayOfWeek(monday, first);
      IsoYearIsUnique(monday, year);
      MondayOfIsoWeek(monday);
    }
  }

  /** A weekly key stands for the week its two numbers name, and raises where they name none or it has no Sunday. */
  lemma WeekTextExactly(year: string, week: string, today: Date, monday: Date)
    requires '-' !in year && year != "" && week != ""
    ensures var w := ResolveBounds(year + "-W" + week, Weekly, None, None, today);
            && (w.Window? ==> w.last == w.first + 6 <= MAX_ORDINAL)
            && (monday + 6 <= MAX_ORDINAL ==>
                  (w == Window(monday, monday + 6) <==>
                   && IsoCalendar(monday).day == 1
                   && ReadInt(year) == Some(IsoCalendar(monday).year)
                   && ReadInt(week) == Some(IsoCalendar(monday).week)))
  {
    var key := year + "-W" + week;
    FindDashAfter(year, 'W', week);
    assert key == year + ['-', 'W'] + week;
    assert key[..|year|] == year && key[|year| + 2..] == week;
    match (ReadInt(year), ReadInt(week))
    case (Some(y), Some(n)) => IsoWeekExactly(y, n, monday);
    case _ =>
  }

  lemma PaddedMonth(year: nat, month: nat)
    requires year < 10000 && month < 100
    ensures |Pad(year, 4)| == 4 && |Pad(month, 2)| == 2
    ensures ReadInt(Pad(year, 4)) == Some(year) && ReadInt(Pad(month, 2)) == Some(month)
  {
    DigitsLength(year);
    DigitsLength(month);
    ReadIntOfPad(year, 4);
    ReadIntOfPad(month, 2);
  }

  /** A year of four digits, a dash and a month of two are read as that month exactly when it exists. */
  lemma MonthTextExactly(year: nat, month: nat)
    requires year < 10000 && month < 100
    ensures MonthlyStart(Pad(year, 4) + "-" + Pad(month, 2))
         == if 1 <= year && 1 <= month <= 12 then Some(Civil(year, month, 1)) else None
  {
    PaddedMonth(year, month);
    MonthlyShape(Pad(year, 4), Pad(month, 2));
    var key := Pad(year, 4) + "-" + Pad(month, 2);
    assert key[5..7] == key[5..];
  }

  lemma QuarterText(year: string, quarter: string)
    requires |year| == 4 && AllDigits(year)
    ensures var key := year + "-Q" + quarter;
            FindDash(key, 'Q') == Some(4) && |key| >= 6 && key[..4] == year && key[6..] == quarter
  {
    FindDashAfter(year, 'Q', quarter);
    assert year + "-Q" + quarter == year + ['-', 'Q'] + quarter;
  }

  /** A year of four digits and a number are read as that quarter exactly when it exists. */
  lemma QuarterTextExactly(year: nat, quarter: nat, today: Date)
    requires year < 10000
    ensures var w := ResolveBounds(Pad(year, 4) + "-Q" + Digits(quarter), Quarterly, None, None, today);
            if 1 <= year && 1 <= quarter <= 4
            then StandsFor(w, MonthSpan(year, 3 * quarter - 2, 3 * quarter))
            else w == Raises
  {
    PaddedMonth(year, 0);
    ReadIntOfDigits(quarter);
    QuarterText(Pad(year, 4), Digits(quarter));
    if 1 <= year && 1 <= quarter <= 4 {
      QuarterStandsFor(year, quarter);
    }
  }

  lemma DayTextHasMonth(year: nat, month: nat, day: string)
    requires 1 <= year < 10000 && 1 <= month <= 12 && AllDigits(day) && |day| == 2
    ensures MonthlyStart(Pad(year, 4) + "-" + Pad(month, 2) + "-" + day) == Some(Civil(year, month, 1))
  {
    PaddedMonth(year, month);
    DailyShape(Pad(year, 4), Pad(month, 2), day);
    var key := Pad(year, 4) + "-" + Pad(month, 2) + "-" + day;
    assert !IsSpace(key[0]) && !IsSpace(key[9]) by {
      assert IsDigit(Pad(year, 4)[0]) && IsDigit(day[1]);
    }
    assert Strip(key) == key;
  }

  lemma DateTextHasMonth(d: Date)
    ensures MonthlyStart(KeyOf(d, Daily)) == Some(Civil(YearOf(d), CivilOf(d).month, 1))
  {
    var c := CivilOf(d);
    DailyParts(d);
    DatesHaveFourDigitYears(d);
    DayTextHasMonth(c.year, c.month, Pad(c.day, 2));
  }

  lemma DateTextIsPlain(d: Date)
    ensures FindDash(KeyOf(d, Daily), 'W') == None && FindDash(KeyOf(d, Daily), 'Q') == None
  {
    var c, key := CivilOf(d), KeyOf(d, Daily);
    DailyParts(d);
    DailyShape(Pad(c.year, 4), Pad(c.month, 2), Pad(c.day, 2));
    NoLetterNoDash(key, 'W');
    NoLetterNoDash(key, 'Q');
  }

  /** The text of a date is read as that date by day and by quarter, as its month by month, and by week not at all. */
  lemma DateTextResolves(d: Date, cadence: Cadence, today: Date)
    ensures var w := ResolveBounds(KeyOf(d, Daily), cadence, None, None, today);
            match cadence
            case Daily => w == Window(d, d)
            case Weekly => if today + 6 <= MAX_ORDINAL then StandsFor(w, Span(today, today + 6)) else w == Raises
            case Monthly => StandsFor(w, SpanOf(d, Monthly))
            case Quarterly => w == Window(d, d)
  {
    DateTextIsPlain(d);
    DailyKeyResolves(d);
    DateTextHasMonth(d);
  }

  /** The dates of a row where it carries them, and the days of a span where it does not. */
  function Filled(start: Option<Date>, end: Option<Date>, span: Span): Span {
    Span(if start.Some? then start.value else span.first, if end.Some? then end.value else span.last)
  }

  lemma GivenMonth(d: Date, start: Option<Date>, end: Option<Date>, today: Date)
    requires start.None? || end.None?
    ensures var w := ResolveBounds(KeyOf(d, Monthly), Monthly, start, end, today);
            if YearOf(d) < 1000 then w == Window(start.Or(today), end.Or(start.Or(today)))
            else StandsFor(w, Filled(None, end, SpanOf(d, Monthly)))
  {
    MonthlyKeyResolves(d);
    if YearOf(d) < 1000 {
      ShortMonthlyKey(d);
    }
  }

  lemma GivenQuarterWindow(year: int, quarter: int, start: Option<Date>, end: Option<Date>)
    requires 1 <= year <= 9999 && 1 <= quarter <= 4
    ensures StandsFor(QuarterWindow(Some(year), Some(quarter), start, end),
                      Filled(start, end, MonthSpan(year, 3 * quarter - 2, 3 * quarter)))
  {
    MonthsFit(year, 3 * quarter - 2, 3 * quarter);
  }

  lemma GivenQuarter(d: Date, start: Option<Date>, end: Option<Date>, today: Date)
    ensures var w := ResolveQuarterly(KeyOf(d, Quarterly), start, end, today);
            if YearOf(d) < 1000 then w == Raises else StandsFor(w, Filled(start, end, SpanOf(d, Quarterly)))
  {
    QuarterlyKeyNumbers(d);
    DatesHaveFourDigitYears(d);
    GivenQuarterWindow(YearOf(d), QuarterOf(CivilOf(d).month), start, end);
  }

  /** What the dates a row carries do to its key's window: two of them are the window; a start alone replaces the first
      day of a quarter and both of a day, but not that of a week or a month; an end alone always replaces the last. */
  lemma GivenBounds(d: Date, cadence: Cadence, start: Option<Date>, end: Option<Date>, today: Date)
    ensures var w, span := ResolveBounds(KeyOf(d, cadence), cadence, start, end, today), SpanOf(d, cadence);
            if start.Some? && end.Some? then w == Window(start.value, end.value)
            else if Resolvable(d, cadence) || (cadence == Weekly && end.Some?) then
              match cadence
              case Daily => w == Window(start.Or(d), end.Or(start.Or(d)))
              case Quarterly => StandsFor(w, Filled(start, end, span))
              case _ => StandsFor(w, Filled(None, end, span))
            else if cadence == Monthly then w == Window(start.Or(today), end.Or(start.Or(today)))
            else w == Raises
  {
    if start.None? || end.None? {
      match cadence
      case Daily => DailyKeyResolves(d);
      case Weekly => GivenWeek(d, start, end, today);
      case Monthly => GivenMonth(d, start, end, today);
      case Quarterly => GivenQuarter(d, start, end, today);
    }
  }

  /** A key without a dash, such as the one for a row without dates, stands for the row's start or for today. */
  lemma PlainKeyResolves(key: string, cadence: Cadence, start: Option<Date>, end: Option<Date>, today: Date)
    requires '-' !in key
    ensures var w, first := ResolveBounds(key, cadence, start, end, today), start.Or(today);
            if end.Some? then w == Window(first, end.value)
            else if cadence != Weekly then w == Window(first, first)
            else if first + 6 <= MAX_ORDINAL then w == Window(first, first + 6)
            else w == Raises
  {
    NoDashNoMark(key, 'W');
    NoDashNoMark(key, 'Q');
    var a, b := StripExactly(key);
    assert '-' !in Strip(key);
    assert MonthlyStart(key).None?;
    assert ReadIsoDate(key).None?;
  }

  lemma {:induction false} NoDashNoMark(s: string, letter: char)
    requires '-' !in s
    ensures FindDash(s, letter) == None
  {
    if |s| >= 2 {
      NoDashNoMark(s[1..], letter);
    }
  }

  /** Half a weekly key resolves as a key without a dash does. */
  lemma HalfWeekKeyResolves(year: string, week: string, start: Option<Date>, end: Option<Date>, today: Date)
    requires '-' !in year && (year == "" || week == "")
    ensures ResolveBounds(year + "-W" + week, Weekly, start, end, today) == ResolveBounds("", Weekly, start, end, today)
  {
    FindDashAfter(year, 'W', week);
    assert year + "-W" + week == year + ['-', 'W'] + week;
  }

  /** Normalizing a key keeps the month it names exactly when the year of that month, if there is one, has four
      digits; a shorter year leaves a key that names no month. */
  lemma NormalizingKeepsTheMonth(key: string)
    ensures MonthlyStart(NormalizeKey(key, Monthly)) == MonthlyStart(key) <==>
            MonthlyStart(key).None? || MonthlyStart(key).value.year >= 1000
    ensures MonthlyStart(NormalizeKey(key, Monthly)) in {None, MonthlyStart(key)}
  {
    StripTwice(key);
    if MonthlyStart(key).Some? {
      var c := MonthlyStart(key).value;
      DigitsLength(c.year);
      DigitsLength(c.month);
      MonthlyShape(Digits(c.year), Pad(c.month, 2));
      if c.year >= 1000 {
        ReadMonthly(NormalizeKey(key, Monthly), c.year, c.month);
      }
    }
  }

  /** A key is normal once it has been normalized. */
  lemma NormalizeTwice(key: string, cadence: Cadence)
    ensures NormalizeKey(NormalizeKey(key, cadence), cadence) == NormalizeKey(key, cadence)
  {
    StripTwice(key);
    if cadence == Monthly && MonthlyStart(key).Some? {
      var c := MonthlyStart(key).value;
      DigitsLength(c.year);
      DigitsLength(c.month);
      MonthlyShape(Digits(c.year), Pad(c.month, 2));
      if c.year >= 1000 {
        ReadMonthly(NormalizeKey(key, Monthly), c.year, c.month);
      }
    }
  }
}

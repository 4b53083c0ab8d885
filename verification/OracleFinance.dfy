/**
 Selection and consolidation of finance facts (strategyos_mvp/oracle_finance.py): which facts a
 KPI reads, what each one is worth in the reporting currency, how flows are added up and how the
 latest balances are consolidated, and which facts are cited as the lineage of a metric.
 */
module OracleFinance {
  import opened Options
  import opened Sums
  import opened Seqs
  import opened Numerals
  import opened Calendar
  import opened Periods

  /** The account, entity and business unit a balance belongs to. */
  datatype Grain = Grain(bu: Option<string>, costCentre: Option<string>, account: Option<string>,
                         entity: Option<string>, balanceAccount: Option<string>)

  /** The date attribute a foreign-exchange rate is looked up by. */
  datatype RateDate = NoDate | Malformed | On(date: Date)

  /** `kind` is the lower-cased fact type; `amount` is None when missing or not finite; `reference` is
      None when empty. */
  datatype Fact = Fact(
    naturalKey: string, kind: string, periodKey: string, cadence: Cadence, amount: Option<real>,
    currency: string, reportingCurrency: string, grain: Grain, intercompany: bool,
    reference: Option<string>, rateDate: RateDate)

  datatype Period = Period(key: string, cadence: Cadence, start: Option<Date>, end: Option<Date>)

  datatype Rate = Rate(source: string, reporting: string, date: Date, value: Option<real>)

  datatype Snapshot = Snapshot(periods: seq<Period>, facts: seq<Fact>, rates: seq<Rate>, today: Date)

  /** The reporting period of a KPI run. */
  datatype Query = Query(key: string, cadence: Cadence, first: int, last: int)

  // ----- Windows and selection -----

  function PeriodFor(periods: seq<Period>, key: string, cadence: Cadence): Option<Period> {
    if periods == [] then None
    else if periods[0].key == key && periods[0].cadence == cadence then Some(periods[0])
    else PeriodFor(periods[1..], key, cadence)
  }

  function FactWindow(s: Snapshot, f: Fact): Window {
    match PeriodFor(s.periods, f.periodKey, f.cadence)
    case Some(p) => ResolveBounds(f.periodKey, f.cadence, p.start, p.end, s.today)
    case None => ResolveBounds(f.periodKey, f.cadence, None, None, s.today)
  }

  predicate Within(w: Window, q: Query) {
    w.Window? && w.first >= q.first && w.last <= q.last
  }

  function IsExact(q: Query, aliases: set<string>): Fact -> bool {
    (f: Fact) => f.kind in aliases && f.periodKey == q.key && f.cadence == q.cadence
  }

  function IsNested(s: Snapshot, q: Query, aliases: set<string>): Fact -> bool {
    (f: Fact) => f.kind in aliases && Within(FactWindow(s, f), q)
  }

  function HasCadence(cadence: Cadence): Fact -> bool {
    (f: Fact) => f.cadence == cadence
  }

  function MatchingFacts(s: Snapshot, q: Query, aliases: set<string>, preferExactCadence: bool): seq<Fact> {
    var exact := Filter(s.facts, IsExact(q, aliases));
    if exact != [] then exact
    else
      var nested := Filter(s.facts, IsNested(s, q, aliases));
      var sameCadence := Filter(nested, HasCadence(q.cadence));
      if preferExactCadence && sameCadence != [] then sameCadence else nested
  }

  // ----- Reporting amounts -----

  function HasReference(reference: Option<string>): Fact -> bool {
    (f: Fact) => reference.Some? && f.reference == reference
  }

  function Peers(s: Snapshot, f: Fact): seq<Fact> {
    Filter(s.facts, HasReference(f.reference))
  }

  function Raw(f: Fact): real { f.amount.Or(0.0) }

  /** Two sides of one elimination: same currency, same window, amounts that cancel. */
  predicate Cancels(s: Snapshot, f: Fact, peers: seq<Fact>) {
    && |peers| == 2
    && (forall p :: p in peers ==> p.currency == f.currency && p.amount.Some?)
    && Sum(peers, Raw) == 0.0
    && FactWindow(s, peers[0]) == FactWindow(s, peers[1])
  }

  function IsRate(f: Fact, date: Date): Rate -> bool {
    (r: Rate) => r.source == f.currency && r.reporting == f.reportingCurrency && r.date == date
                 && r.value.Some? && r.value.value > 0.0
  }

  /** The worth of a fact, given whether it cancels with its peer, its window and the known rates: no
      guessed, inverse or stale rate, and no amount left in a foreign currency. */
  function Convert(f: Fact, cancels: bool, window: Window, rates: seq<Rate>): Option<real> {
    if f.amount.None? then None
    else if f.intercompany then (if cancels then Some(0.0) else None)
    else if f.currency == f.reportingCurrency then f.amount
    else if f.rateDate.Malformed? || (f.rateDate.NoDate? && window.Raises?) then None
    else
      Priced(f.amount.value, Filter(rates, IsRate(f, if f.rateDate.On? then f.rateDate.date else window.last)))
  }

  /** An amount at the one rate there is. */
  function Priced(amount: real, matching: seq<Rate>): Option<real> {
    if |matching| != 1 then None else Some(amount * matching[0].value.Or(0.0))
  }

  function ReportingAmount(s: Snapshot, f: Fact): Option<real> {
    Convert(f, Cancels(s, f, Peers(s, f)), FactWindow(s, f), s.rates)
  }

  function Conversion(s: Snapshot): Fact -> Option<real> {
    (f: Fact) => ReportingAmount(s, f)
  }

  /** A flow over a period. */
  function SumMetric(s: Snapshot, q: Query, aliases: set<string>): Option<real> {
    Reported(MatchingFacts(s, q, aliases, true), Conversion(s))
  }

  // ----- Intercompany elimination -----

  /** If one side of a reference is eliminated, so is every flagged fact that carries the reference. */
  lemma EliminationIsSymmetric(s: Snapshot, f: Fact, g: Fact)
    requires f in s.facts && g in s.facts && f.intercompany && g.intercompany
    requires f.reference.Some? && f.reference == g.reference
    ensures ReportingAmount(s, f).Some? ==> ReportingAmount(s, f) == Some(0.0) == ReportingAmount(s, g)
  {
    assert Peers(s, f) == Peers(s, g);
    assert g in Peers(s, f);
  }

  function ReferenceOf(f: Fact): Option<string> { f.reference }

  /** The raw amount of an intercompany fact, which elimination takes out. */
  function Eliminated(f: Fact): real { if f.intercompany then Raw(f) else 0.0 }

  /** Both sides of every elimination in a list of facts are flagged, validly matched and in the list. */
  ghost predicate BothSides(s: Snapshot, facts: seq<Fact>) {
    && Converts(Conversion(s), facts)
    && (forall f :: f in facts && !f.intercompany ==> f.currency == f.reportingCurrency)
    && (forall f :: f in facts && f.intercompany ==>
          && multiset(Filter(facts, HasReference(f.reference))) == multiset(Peers(s, f))
          && (forall p :: p in Peers(s, f) ==> p.intercompany))
  }

  lemma SidesCancel(s: Snapshot, facts: seq<Fact>, reference: Option<string>)
    requires BothSides(s, facts)
    ensures ClassSum(facts, ReferenceOf, Eliminated)(reference) == 0.0
  {
    var g := InClass(ReferenceOf, reference, Eliminated);
    if f :| f in facts && f.intercompany && f.reference == reference {
      assert Conversion(s)(f).Some?;
      assert ReportingAmount(s, f).Some? && Cancels(s, f, Peers(s, f));
      var mine := Filter(facts, HasReference(reference));
      forall p | p in mine ensures Eliminated(p) == Raw(p) {
        assert p in multiset(mine) && p in multiset(Peers(s, f));
        assert p in Peers(s, f);
      }
      if reference.None? {
        FilterNone(s.facts, HasReference(f.reference));
        assert false;
      }
      forall x | x in facts ensures g(x) == if HasReference(reference)(x) then Eliminated(x) else 0.0 {
        assert ReferenceOf(x) == x.reference;
      }
      SumOfFilter(facts, HasReference(reference), Eliminated, g);
      SumCongruence(mine, Eliminated, Raw);
      SumPermutation(mine, Peers(s, f), Raw);
    } else {
      forall x | x in facts ensures g(x) == Nothing(x) {
        assert ReferenceOf(x) == x.reference;
        assert x.reference == reference ==> Eliminated(x) == 0.0;
      }
      SumCongruence(facts, g, Nothing);
      SumOfNothing(facts);
    }
  }

  function Nothing(f: Fact): real { 0.0 }

  lemma {:induction false} SumOfNothing(facts: seq<Fact>)
    ensures Sum(facts, Nothing) == 0.0
  {
    if facts != [] {
      SumOfNothing(facts[..|facts| - 1]);
    }
  }

  /** Elimination is neutral: with both sides of every reference present, eliminating does not change the total. */
  lemma EliminationIsNeutral(s: Snapshot, facts: seq<Fact>)
    requires BothSides(s, facts)
    ensures Sum(facts, Worth(Conversion(s))) == Sum(facts, Raw)
  {
    NothingIsLost(s, facts);
    forall f | f in facts ensures Raw(f) == Worth(Conversion(s))(f) + Eliminated(f) {
      KeptOrEliminated(s, facts, f);
    }
    SumIsAdditive(facts, Worth(Conversion(s)), Eliminated, Raw);
  }

  lemma KeptOrEliminated(s: Snapshot, facts: seq<Fact>, f: Fact)
    requires BothSides(s, facts) && f in facts
    ensures Raw(f) == Worth(Conversion(s))(f) + Eliminated(f)
  {
    assert Conversion(s)(f).Some?;
  }

  lemma NothingIsLost(s: Snapshot, facts: seq<Fact>)
    requires BothSides(s, facts)
    ensures Sum(facts, Eliminated) == 0.0
  {
    var references := set f | f in facts :: f.reference;
    forall f | f in facts ensures ReferenceOf(f) in references {
    }
    SumByClass(facts, references, ReferenceOf, Eliminated);
    forall r | r in references ensures ClassSum(facts, ReferenceOf, Eliminated)(r) == 0.0 {
      SidesCancel(s, facts, r);
    }
    TotalOfZero(references, ClassSum(facts, ReferenceOf, Eliminated));
  }

  // ----- The latest balances -----

  function EndOf(s: Snapshot): Fact -> int {
    (f: Fact) => var w := FactWindow(s, f); if w.Window? then w.last else 0
  }

  function LatestEnd(rows: seq<Fact>, end: Fact -> int): (latest: int)
    requires rows != []
    ensures forall f :: f in rows ==> end(f) <= latest
    ensures exists f :: f in rows && end(f) == latest
  {
    var last := end(rows[|rows| - 1]);
    if |rows| == 1 then last
    else
      var earlier := LatestEnd(rows[..|rows| - 1], end);
      if earlier > last then earlier else last
  }

  function GrainOf(f: Fact): Grain { f.grain }

  function EndsAt(end: Fact -> int, latest: int): Fact -> bool {
    (f: Fact) => end(f) == latest
  }

  /** The facts of a grain that end last; a balance is unambiguous when there is just one. */
  function LatestRows(facts: seq<Fact>, end: Fact -> int, g: Grain): seq<Fact> {
    var rows := Filter(facts, HasKey(GrainOf, g));
    if rows == [] then [] else Filter(rows, EndsAt(end, LatestEnd(rows, end)))
  }

  ghost predicate Determined(facts: seq<Fact>, end: Fact -> int, convert: Fact -> Option<real>, g: Grain) {
    |LatestRows(facts, end, g)| == 1 && convert(LatestRows(facts, end, g)[0]).Some?
  }

  function BalanceOf(facts: seq<Fact>, end: Fact -> int, convert: Fact -> Option<real>): Grain -> real {
    (g: Grain) => var rows := LatestRows(facts, end, g); if |rows| == 1 then convert(rows[0]).Or(0.0) else 0.0
  }

  /** The consolidated balance: the sum over grains of each grain's one latest fact, unavailable as soon
      as nothing matches, a grain has two latest facts, or one of them cannot be converted. */
  ghost function Consolidated(facts: seq<Fact>, end: Fact -> int, convert: Fact -> Option<real>): Option<real> {
    if facts != [] && forall g :: g in KeysOf(facts, GrainOf) ==> Determined(facts, end, convert, g)
    then Some(Total(KeysOf(facts, GrainOf), BalanceOf(facts, end, convert)))
    else None
  }

  method LatestMetric(s: Snapshot, q: Query, aliases: set<string>) returns (r: Option<real>)
    ensures r == Consolidated(MatchingFacts(s, q, aliases, false), EndOf(s), Conversion(s))
  {
    var facts := MatchingFacts(s, q, aliases, false);
    if facts == [] {
      return None;
    }
    var groups := GroupBy(facts, GrainOf);
    r := Consolidate(facts, groups, EndOf(s), Conversion(s));
  }

  /** The loop over the groups, which gives up at the first ambiguous one. */
  method Consolidate(facts: seq<Fact>, groups: map<Grain, seq<Fact>>, end: Fact -> int, convert: Fact -> Option<real>)
    returns (r: Option<real>)
    requires facts != [] && Grouped(facts, GrainOf, groups)
    ensures r == Consolidated(facts, end, convert)
  {
    var sum, missing := 0.0, false;
    var rest := groups.Keys;
    while rest != {}
      invariant rest <= groups.Keys
      invariant Collecting(facts, end, convert, groups.Keys, rest, sum, missing)
    {
      var g :| g in rest;
      GroupIsPresent(facts, GrainOf, g);
      var candidates := Filter(groups[g], EndsAt(end, LatestEnd(groups[g], end)));
      if |candidates| != 1 {
        assert !Determined(facts, end, convert, g);
        return None;
      }
      var amount := convert(candidates[0]);
      Collect(facts, end, convert, groups.Keys, rest, sum, missing, g);
      sum, missing := sum + amount.Or(0.0), missing || amount.None?;
      rest := rest - {g};
    }
    r := if missing then None else Some(sum);
  }

  /** Loop invariant of Consolidate: what is collected and what is left make up the whole. */
  ghost predicate Collecting(facts: seq<Fact>, end: Fact -> int, convert: Fact -> Option<real>,
                             grains: set<Grain>, rest: set<Grain>, sum: real, missing: bool)
  {
    && sum + Total(rest, BalanceOf(facts, end, convert)) == Total(grains, BalanceOf(facts, end, convert))
    && (missing <==> exists g :: g in grains - rest && !Determined(facts, end, convert, g))
  }

  lemma Collect(facts: seq<Fact>, end: Fact -> int, convert: Fact -> Option<real>,
                grains: set<Grain>, rest: set<Grain>, sum: real, missing: bool, g: Grain)
    requires Collecting(facts, end, convert, grains, rest, sum, missing)
    requires g in rest && rest <= grains && |LatestRows(facts, end, g)| == 1
    ensures var amount := convert(LatestRows(facts, end, g)[0]);
            Collecting(facts, end, convert, grains, rest - {g}, sum + amount.Or(0.0), missing || amount.None?)
  {
    TotalWithout(rest, g, BalanceOf(facts, end, convert));
    assert grains - (rest - {g}) == grains - rest + {g};
  }

  lemma SameEnd(a: seq<Fact>, b: seq<Fact>, end: Fact -> int, end': Fact -> int)
    requires SameBag(a, b) && a != [] && b != [] && forall f :: end(f) == end'(f)
    ensures LatestEnd(a, end) == LatestEnd(b, end')
  {
    SameBagMembers(a, b);
  }

  lemma SameLatestRows(a: seq<Fact>, b: seq<Fact>, end: Fact -> int, end': Fact -> int, g: Grain)
    requires SameBag(a, b) && forall f :: end(f) == end'(f)
    ensures |LatestRows(a, end, g)| == |LatestRows(b, end', g)|
    ensures |LatestRows(a, end, g)| == 1 ==> LatestRows(a, end, g) == LatestRows(b, end', g)
  {
    var p, q := Filter(a, HasKey(GrainOf, g)), Filter(b, HasKey(GrainOf, g));
    FilterSameBag(a, b, HasKey(GrainOf, g), HasKey(GrainOf, g));
    if p != [] {
      SameEnd(p, q, end, end');
      var latest := LatestEnd(p, end);
      FilterSameBag(p, q, EndsAt(end, latest), EndsAt(end', latest));
      if |LatestRows(a, end, g)| == 1 {
        SameBagSingleton(LatestRows(a, end, g), LatestRows(b, end', g));
      }
    }
  }

  /** Consolidation forgets the order of the facts. */
  lemma ConsolidationForgetsOrder(a: seq<Fact>, b: seq<Fact>, end: Fact -> int, end': Fact -> int,
                                  convert: Fact -> Option<real>, convert': Fact -> Option<real>)
    requires SameBag(a, b)
    requires forall f :: end(f) == end'(f)
    requires forall f :: convert(f) == convert'(f)
    ensures Consolidated(a, end, convert) == Consolidated(b, end', convert')
  {
    SameBagMembers(a, b);
    assert KeysOf(a, GrainOf) == KeysOf(b, GrainOf);
    forall g
      ensures Determined(a, end, convert, g) == Determined(b, end', convert', g)
      ensures BalanceOf(a, end, convert)(g) == BalanceOf(b, end', convert')(g)
    {
      SameLatestRows(a, b, end, end', g);
    }
    TotalCongruence(KeysOf(a, GrainOf), BalanceOf(a, end, convert), BalanceOf(b, end', convert'));
  }

  // ----- Nothing depends on the order of the facts -----

  ghost predicate Reordered(s: Snapshot, t: Snapshot) {
    t == s.(facts := t.facts) && SameBag(s.facts, t.facts)
  }

  lemma SameMatches(s: Snapshot, t: Snapshot, q: Query, aliases: set<string>, prefer: bool)
    requires Reordered(s, t)
    ensures SameBag(MatchingFacts(s, q, aliases, prefer), MatchingFacts(t, q, aliases, prefer))
  {
    FilterPermutation(s.facts, t.facts, IsExact(q, aliases));
    FilterPermutation(s.facts, t.facts, IsNested(s, q, aliases));
    FilterCongruence(t.facts, IsNested(s, q, aliases), IsNested(t, q, aliases));
    FilterPermutation(Filter(s.facts, IsNested(s, q, aliases)), Filter(t.facts, IsNested(s, q, aliases)),
                      HasCadence(q.cadence));
  }

  lemma SameConversion(s: Snapshot, t: Snapshot, f: Fact)
    requires Reordered(s, t)
    ensures ReportingAmount(s, f) == ReportingAmount(t, f)
  {
    assert FactWindow(s, f) == FactWindow(t, f) && s.rates == t.rates;
    FilterPermutation(s.facts, t.facts, HasReference(f.reference));
    SameCancelling(s, t, f, Peers(s, f), Peers(t, f));
  }

  lemma SameCancelling(s: Snapshot, t: Snapshot, f: Fact, a: seq<Fact>, b: seq<Fact>)
    requires s.periods == t.periods && s.today == t.today && SameBag(a, b)
    ensures Cancels(s, f, a) == Cancels(t, f, b)
  {
    SameBagMembers(a, b);
    SumPermutation(a, b, Raw);
    if |a| == 2 {
      assert a == [a[0], a[1]] && b == [b[0], b[1]];
      assert multiset{a[0], a[1]} == multiset{b[0], b[1]};
      assert (a[0] == b[0] && a[1] == b[1]) || (a[0] == b[1] && a[1] == b[0]);
      forall x ensures FactWindow(s, x) == FactWindow(t, x) {
      }
    }
  }

  /** The latest-balance KPI is the same for every order of the facts. */
  lemma LatestForgetsOrder(s: Snapshot, t: Snapshot, q: Query, aliases: set<string>)
    requires Reordered(s, t)
    ensures Consolidated(MatchingFacts(s, q, aliases, false), EndOf(s), Conversion(s))
         == Consolidated(MatchingFacts(t, q, aliases, false), EndOf(t), Conversion(t))
  {
    SameMatches(s, t, q, aliases, false);
    forall f ensures EndOf(s)(f) == EndOf(t)(f) {
      assert FactWindow(s, f) == FactWindow(t, f);
    }
    forall f ensures Conversion(s)(f) == Conversion(t)(f) {
      SameConversion(s, t, f);
    }
    ConsolidationForgetsOrder(MatchingFacts(s, q, aliases, false), MatchingFacts(t, q, aliases, false),
                              EndOf(s), EndOf(t), Conversion(s), Conversion(t));
  }

  /** So is every flow. */
  lemma SumForgetsOrder(s: Snapshot, t: Snapshot, q: Query, aliases: set<string>)
    requires Reordered(s, t)
    ensures SumMetric(s, q, aliases) == SumMetric(t, q, aliases)
  {
    SameMatches(s, t, q, aliases, true);
    forall f ensures Conversion(s)(f) == Conversion(t)(f) {
      SameConversion(s, t, f);
    }
    SameReport(MatchingFacts(s, q, aliases, true), MatchingFacts(t, q, aliases, true), Conversion(s), Conversion(t));
  }

  // ----- Quarters are made of months -----

  /** A fact of the month that holds day `d`, under the derived key and with the full month as its window. */
  predicate MonthFactOf(s: Snapshot, f: Fact, d: Date) {
    f.cadence == Monthly && f.periodKey == KeyOf(d, Monthly) && StandsFor(FactWindow(s, f), SpanOf(d, Monthly))
  }

  function QueryFor(d: Date, cadence: Cadence): Query {
    Query(KeyOf(d, cadence), cadence, SpanOf(d, cadence).first, SpanOf(d, cadence).last)
  }

  function InMonth(d: Date, aliases: set<string>): Fact -> bool {
    IsExact(QueryFor(d, Monthly), aliases)
  }

  lemma OtherMonth(d: Date, x: Date)
    requires KeyOf(x, Monthly) != KeyOf(d, Monthly)
    ensures !(SpanOf(x, Monthly).first >= SpanOf(d, Monthly).first &&
              SpanOf(x, Monthly).last <= SpanOf(d, Monthly).last)
  {
    KeysTellSpansApart(x, d, Monthly);
    SpansPartition(d, x, Monthly);
    SpansPartition(x, x, Monthly);
  }

  /** The first day of the `i`-th month (from 0) of the quarter that holds `d`. */
  function MonthOfQuarter(d: Date, i: nat): (m: Date)
    requires i < 3
    ensures YearOf(m) == YearOf(d) && CivilOf(m).month == 3 * QuarterOf(CivilOf(d).month) - 2 + i
  {
    DatesHaveFourDigitYears(d);
    QuarterMonths(CivilOf(d).month, QuarterOf(CivilOf(d).month));
    var month := 3 * QuarterOf(CivilOf(d).month) - 2 + i;
    MonthsFit(YearOf(d), month, month);
    CivilOfOrdinal(Civil(YearOf(d), month, 1));
    Ordinal(Civil(YearOf(d), month, 1))
  }

  predicate IsMonthOf(d: Date, key: string) {
    || key == KeyOf(MonthOfQuarter(d, 0), Monthly)
    || key == KeyOf(MonthOfQuarter(d, 1), Monthly)
    || key == KeyOf(MonthOfQuarter(d, 2), Monthly)
  }

  function InQuarter(d: Date, aliases: set<string>): Fact -> bool {
    (f: Fact) => f.kind in aliases && IsMonthOf(d, f.periodKey) && f.cadence == Monthly
  }

  /** The facts that can match the quarter of `d` or one of its months: those under one of the four keys at its
      cadence, and those whose window lies in the quarter. */
  predicate CanMatch(s: Snapshot, d: Date, aliases: set<string>, f: Fact) {
    || InQuarter(d, aliases)(f)
    || IsExact(QueryFor(d, Quarterly), aliases)(f)
    || IsNested(s, QueryFor(d, Quarterly), aliases)(f)
  }

  /** Every fact that can match is monthly, well keyed and covers its full month. */
  ghost predicate AllMonthly(s: Snapshot, d: Date, aliases: set<string>) {
    forall f :: f in s.facts && CanMatch(s, d, aliases, f) ==> exists x: Date :: MonthFactOf(s, f, x)
  }

  lemma MonthOfSameQuarter(d: Date, x: Date)
    ensures IsMonthOf(d, KeyOf(x, Monthly)) <==>
            YearOf(x) == YearOf(d) && QuarterOf(CivilOf(x).month) == QuarterOf(CivilOf(d).month)
  {
    QuarterMonths(CivilOf(x).month, QuarterOf(CivilOf(d).month));
    MonthKeys(x, MonthOfQuarter(d, 0));
    MonthKeys(x, MonthOfQuarter(d, 1));
    MonthKeys(x, MonthOfQuarter(d, 2));
  }

  lemma MonthsNest(year: int, from: int, month: int, to: int)
    requires year >= 1 && 1 <= from <= month <= to <= 12
    ensures MonthSpan(year, from, to).first <= MonthSpan(year, month, month).first
    ensures MonthSpan(year, month, month).last <= MonthSpan(year, from, to).last
  {
    MonthStep(year, month);
    MonthStep(year, to);
    MonthsAreOrdered(year, from, month);
    MonthsAreOrdered(year, month + 1, to + 1);
  }

  lemma MonthSpanWithin(x: Date, year: int, quarter: int)
    requires year >= 1 && 1 <= quarter <= 4
    ensures var inner, outer := SpanOf(x, Monthly), MonthSpan(year, 3 * quarter - 2, 3 * quarter);
            inner.first >= outer.first && inner.last <= outer.last
            <==> YearOf(x) == year && QuarterOf(CivilOf(x).month) == quarter
  {
    var month := CivilOf(x).month;
    QuarterSpanHas(x, year, quarter);
    MonthSpanHas(x, YearOf(x), month, month);
    QuarterMonths(month, quarter);
    if YearOf(x) == year && QuarterOf(month) == quarter {
      MonthsNest(year, 3 * quarter - 2, month, 3 * quarter);
    }
  }

  /** A full month lies within a quarter exactly when it is one of its three. */
  lemma MonthWithinQuarter(d: Date, x: Date, w: Window, q: Query)
    requires StandsFor(w, SpanOf(x, Monthly)) && Span(q.first, q.last) == SpanOf(d, Quarterly)
    ensures Within(w, q) <==> IsMonthOf(d, KeyOf(x, Monthly))
  {
    MonthOfSameQuarter(d, x);
    QuarterMonths(CivilOf(d).month, QuarterOf(CivilOf(d).month));
    MonthSpanWithin(x, YearOf(d), QuarterOf(CivilOf(d).month));
  }

  /** What lies in a month of the quarter lies in the quarter. */
  lemma MonthQueryNests(s: Snapshot, d: Date, i: nat, aliases: set<string>, f: Fact)
    requires i < 3 && IsNested(s, QueryFor(MonthOfQuarter(d, i), Monthly), aliases)(f)
    ensures IsNested(s, QueryFor(d, Quarterly), aliases)(f)
  {
    QuarterMonths(CivilOf(d).month, QuarterOf(CivilOf(d).month));
    MonthsNest(YearOf(d), 3 * QuarterOf(CivilOf(d).month) - 2, CivilOf(MonthOfQuarter(d, i)).month,
               3 * QuarterOf(CivilOf(d).month));
  }

  /** When what can match is monthly, a month of the quarter reads exactly the monthly facts under its key. */
  lemma MonthReadsItsKey(s: Snapshot, d: Date, i: nat, aliases: set<string>)
    requires i < 3 && AllMonthly(s, d, aliases)
    ensures MatchingFacts(s, QueryFor(MonthOfQuarter(d, i), Monthly), aliases, true)
         == Filter(s.facts, InMonth(MonthOfQuarter(d, i), aliases))
  {
    var m := MonthOfQuarter(d, i);
    var q := QueryFor(m, Monthly);
    if Filter(s.facts, InMonth(m, aliases)) == [] {
      forall f | f in s.facts ensures !IsNested(s, q, aliases)(f) {
        if IsNested(s, q, aliases)(f) {
          MonthQueryNests(s, d, i, aliases, f);
          assert CanMatch(s, d, aliases, f) && !InMonth(m, aliases)(f);
          var x: Date :| MonthFactOf(s, f, x);
          OtherMonth(m, x);
        }
      }
      FilterNone(s.facts, IsNested(s, q, aliases));
    }
  }

  lemma NestedInQuarter(s: Snapshot, d: Date, aliases: set<string>, f: Fact)
    requires AllMonthly(s, d, aliases) && f in s.facts
    ensures IsNested(s, QueryFor(d, Quarterly), aliases)(f) == InQuarter(d, aliases)(f)
  {
    if CanMatch(s, d, aliases, f) {
      var x: Date :| MonthFactOf(s, f, x);
      MonthWithinQuarter(d, x, FactWindow(s, f), QueryFor(d, Quarterly));
    }
  }

  /** When what can match is monthly, a quarter reads exactly the monthly facts of its three months. */
  lemma QuarterReadsItsMonths(s: Snapshot, d: Date, aliases: set<string>)
    requires AllMonthly(s, d, aliases)
    ensures MatchingFacts(s, QueryFor(d, Quarterly), aliases, true) == Filter(s.facts, InQuarter(d, aliases))
  {
    var q := QueryFor(d, Quarterly);
    forall f | f in s.facts && CanMatch(s, d, aliases, f) ensures f.cadence == Monthly {
      var x: Date :| MonthFactOf(s, f, x);
    }
    forall f | f in s.facts ensures !IsExact(q, aliases)(f) {
      assert IsExact(q, aliases)(f) ==> CanMatch(s, d, aliases, f);
    }
    FilterNone(s.facts, IsExact(q, aliases));
    FilterNone(Filter(s.facts, IsNested(s, q, aliases)), HasCadence(Quarterly));
    forall f | f in s.facts ensures IsNested(s, q, aliases)(f) == InQuarter(d, aliases)(f) {
      NestedInQuarter(s, d, aliases, f);
    }
    FilterCongruence(s.facts, IsNested(s, q, aliases), InQuarter(d, aliases));
  }

  /** The facts a month reads. */
  function MonthFacts(s: Snapshot, d: Date, aliases: set<string>): seq<Fact> {
    MatchingFacts(s, QueryFor(d, Monthly), aliases, true)
  }

  /** The quarter rolls up its months: unavailable when none of them has a fact or one fact of one of
      them cannot be converted, else the total of the three months, an empty one counting as zero. */
  lemma QuarterRollsUp(s: Snapshot, d: Date, aliases: set<string>)
    requires AllMonthly(s, d, aliases)
    ensures SumMetric(s, QueryFor(d, Quarterly), aliases) ==
            RolledUp(MonthFacts(s, MonthOfQuarter(d, 0), aliases), MonthFacts(s, MonthOfQuarter(d, 1), aliases),
                     MonthFacts(s, MonthOfQuarter(d, 2), aliases), Conversion(s))
    ensures forall i: nat :: i < 3 ==>
              SumMetric(s, QueryFor(MonthOfQuarter(d, i), Monthly), aliases)
              == Reported(MonthFacts(s, MonthOfQuarter(d, i), aliases), Conversion(s))
  {
    var m0, m1, m2 := MonthOfQuarter(d, 0), MonthOfQuarter(d, 1), MonthOfQuarter(d, 2);
    QuarterReadsItsMonths(s, d, aliases);
    MonthReadsItsKey(s, d, 0, aliases);
    MonthReadsItsKey(s, d, 1, aliases);
    MonthReadsItsKey(s, d, 2, aliases);
    QuarterSplits(s.facts, d, aliases);
    ReportedInParts(s.facts, InQuarter(d, aliases), InMonth(m0, aliases), InMonth(m1, aliases), InMonth(m2, aliases),
                    Conversion(s));
  }

  lemma QuarterSplits(facts: seq<Fact>, d: Date, aliases: set<string>)
    ensures Splits(facts, InQuarter(d, aliases), InMonth(MonthOfQuarter(d, 0), aliases),
                   InMonth(MonthOfQuarter(d, 1), aliases), InMonth(MonthOfQuarter(d, 2), aliases))
  {
    ThreeMonthsApart(d);
  }

  lemma ThreeMonthsApart(d: Date)
    ensures KeyOf(MonthOfQuarter(d, 0), Monthly) != KeyOf(MonthOfQuarter(d, 1), Monthly)
    ensures KeyOf(MonthOfQuarter(d, 0), Monthly) != KeyOf(MonthOfQuarter(d, 2), Monthly)
    ensures KeyOf(MonthOfQuarter(d, 1), Monthly) != KeyOf(MonthOfQuarter(d, 2), Monthly)
  {
    MonthKeys(MonthOfQuarter(d, 0), MonthOfQuarter(d, 1));
    MonthKeys(MonthOfQuarter(d, 0), MonthOfQuarter(d, 2));
    MonthKeys(MonthOfQuarter(d, 1), MonthOfQuarter(d, 2));
  }

  // ----- Lineage -----

  datatype Component =
    | RevenueActual | RevenuePlan | EbitdaActual | EbitdaPlan | OperatingCostActual | OperatingCostPlan
    | CashBalance | BoardFloor | CreditSales | CreditPurchases | CostOfSales
    | Receivables | Payables | Inventory | DebtBalance | NetDebt | CovenantMaxLeverage

  datatype Metric =
    | RevenueAttainment | EbitdaMargin | EbitdaAttainment | OperatingCostOfPlan
    | CashVsBoardFloor | CashFloorHeadroom | DsoDays | DpoDays | DioDays | CccDays
    | NetDebtToEbitda | CovenantHeadroom

  /** The fact types the KPI computation passes when it reads a component. */
  function ReadTypes(c: Component): set<string> {
    match c
    case RevenueActual => {"revenue"}
    case EbitdaActual => {"ebitda"}
    case OperatingCostActual => {"operating_cost", "opex", "operating_expense"}
    case CreditSales => {"credit_sales"}
    case CreditPurchases => {"credit_purchases"}
    case CostOfSales => {"cost_of_goods_sold", "cost_of_sales", "cogs"}
    case CashBalance => {"cash_balance"}
    case Receivables => {"accounts_receivable_balance", "ar_open_balance", "receivables_balance"}
    case Payables => {"accounts_payable_balance", "ap_open_balance", "payables_balance"}
    case Inventory => {"inventory_balance", "working_capital_inventory", "inventory_on_hand"}
    case DebtBalance => {"debt_balance", "borrowings", "loan_balance"}
    case _ => {}
  }

  /** Balances are read as the latest per grain, flows as sums that prefer the reporting cadence. */
  predicate IsBalance(c: Component) {
    c.CashBalance? || c.Receivables? || c.Payables? || c.Inventory? || c.DebtBalance?
  }

  /** The components the formula of a metric works on; net debt is debt less cash. */
  function Inputs(m: Metric): set<Component> {
    match m
    case RevenueAttainment => {RevenueActual, RevenuePlan}
    case EbitdaMargin => {EbitdaActual, RevenueActual}
    case EbitdaAttainment => {EbitdaActual, EbitdaPlan}
    case OperatingCostOfPlan => {OperatingCostActual, OperatingCostPlan}
    case CashVsBoardFloor => {CashBalance, BoardFloor}
    case CashFloorHeadroom => {CashBalance, BoardFloor}
    case DsoDays => {Receivables, CreditSales}
    case DpoDays => {Payables, CreditPurchases}
    case DioDays => {Inventory, CostOfSales}
    case CccDays => {Receivables, CreditSales, Inventory, CostOfSales, Payables, CreditPurchases}
    case NetDebtToEbitda => {DebtBalance, CashBalance, EbitdaActual}
    case CovenantHeadroom => {CovenantMaxLeverage, DebtBalance, CashBalance, EbitdaActual}
  }

  /** The facts whose amounts can enter a component. */
  function ReadFacts(s: Snapshot, q: Query, c: Component): seq<Fact> {
    MatchingFacts(s, q, ReadTypes(c), !IsBalance(c))
  }

  /** The components a metric is documented with, in order. */
  function ComponentAliases(m: Metric): seq<Component> {
    match m
    case RevenueAttainment => [RevenueActual, RevenuePlan]
    case EbitdaMargin => [EbitdaActual, RevenueActual]
    case EbitdaAttainment => [EbitdaActual, EbitdaPlan]
    case OperatingCostOfPlan => [OperatingCostActual, OperatingCostPlan]
    case CashVsBoardFloor => [CashBalance, BoardFloor]
    case CashFloorHeadroom => [CashBalance, BoardFloor]
    case DsoDays => [Receivables, CreditSales]
    case DpoDays => [Payables, CreditPurchases]
    case DioDays => [Inventory, CostOfSales]
    case CccDays => [Receivables, Inventory, Payables, CreditSales, CreditPurchases, CostOfSales]
    case NetDebtToEbitda => [DebtBalance, CashBalance, NetDebt, EbitdaActual]
    case CovenantHeadroom => [CovenantMaxLeverage, DebtBalance, CashBalance, NetDebt, EbitdaActual]
  }

  /** The source_fact_types table that a computation carries with it, under its own names. */
  datatype TypeKey =
    | KRevenue | KEbitda | KOperatingCost | KCash | KCreditSales | KCreditPurchases | KCostOfSales
    | KReceivable | KPayable | KInventory | KDebt

  function SourceFactTypes(k: TypeKey): set<string> {
    match k
    case KRevenue => {"revenue"}
    case KEbitda => {"ebitda"}
    case KOperatingCost => {"operating_cost", "opex", "operating_expense"}
    case KCash => {"cash_balance"}
    case KCreditSales => {"credit_sales"}
    case KCreditPurchases => {"credit_purchases"}
    case KCostOfSales => {"cost_of_goods_sold", "cost_of_sales", "cogs"}
    case KReceivable => {"accounts_receivable_balance", "ar_open_balance", "receivables_balance"}
    case KPayable => {"accounts_payable_balance", "ap_open_balance", "payables_balance"}
    case KInventory => {"inventory_balance", "working_capital_inventory", "inventory_on_hand"}
    case KDebt => {"debt_balance", "borrowings", "loan_balance"}
  }

  function TypeKeyOf(c: Component): Option<TypeKey> {
    match c
    case RevenueActual => Some(KRevenue)
    case EbitdaActual => Some(KEbitda)
    case OperatingCostActual => Some(KOperatingCost)
    case CreditSales => Some(KCreditSales)
    case CreditPurchases => Some(KCreditPurchases)
    case CostOfSales => Some(KCostOfSales)
    case CashBalance => Some(KCash)
    case Receivables => Some(KReceivable)
    case Payables => Some(KPayable)
    case Inventory => Some(KInventory)
    case DebtBalance => Some(KDebt)
    case _ => None
  }

  function LineageTypes(c: Component): set<string> {
    if TypeKeyOf(c).Some? then SourceFactTypes(TypeKeyOf(c).value) else {}
  }

  function CitedFacts(s: Snapshot, q: Query, c: Component): seq<Fact> {
    MatchingFacts(s, q, LineageTypes(c), false)
  }

  /** The exact-cadence preference only narrows what is read. */
  lemma PreferenceNarrows(s: Snapshot, q: Query, aliases: set<string>)
    ensures forall f :: f in MatchingFacts(s, q, aliases, true) ==> f in MatchingFacts(s, q, aliases, false)
  {
  }

  lemma TablesAgree(c: Component)
    ensures ReadTypes(c) == LineageTypes(c)
  {
  }

  lemma ReadIsCited(s: Snapshot, q: Query, c: Component, f: Fact)
    requires f in ReadFacts(s, q, c)
    ensures f in CitedFacts(s, q, c)
  {
    TablesAgree(c);
    PreferenceNarrows(s, q, ReadTypes(c));
  }

  lemma InputsAreDocumented(m: Metric, c: Component)
    requires c in Inputs(m)
    ensures c in ComponentAliases(m)
  {
  }

  ghost predicate Cites(facts: seq<Fact>, naturalKey: string) {
    exists f :: f in facts && f.naturalKey == naturalKey
  }

  ghost predicate CitesAll(facts: seq<Fact>, wanted: seq<Fact>) {
    forall f :: f in wanted ==> Cites(facts, f.naturalKey)
  }

  /** The lineage of a metric: the facts behind its documented components, each natural key once. */
  method MetricSourceFacts(s: Snapshot, q: Query, m: Metric) returns (facts: seq<Fact>)
    ensures forall i, j :: 0 <= i < j < |facts| ==> facts[i].naturalKey != facts[j].naturalKey
    ensures forall f :: f in facts ==> exists c :: c in ComponentAliases(m) && f in CitedFacts(s, q, c)
    ensures forall c :: c in ComponentAliases(m) ==> CitesAll(facts, CitedFacts(s, q, c))
    // Lineage is complete: whatever fact could enter a component of the formula is cited.
    ensures forall c :: c in Inputs(m) ==> CitesAll(facts, ReadFacts(s, q, c))
  {
    facts := [];
    var seen: set<string> := {};
    var components := ComponentAliases(m);
    for i := 0 to |components|
      invariant OncePerKey(facts, seen) && Sourced(s, q, components, i, facts)
    {
      ghost var before := facts;
      facts, seen := AddCitations(facts, seen, CitedFacts(s, q, components[i]));
      SourcedNext(s, q, components, i, before, facts);
    }
    assert forall c :: c in components ==> CitesAll(facts, CitedFacts(s, q, c));
    LineageIsComplete(s, q, m, facts);
  }

  /** The facts so far come from the components, and cite all facts of the first `n`. */
  ghost predicate Sourced(s: Snapshot, q: Query, components: seq<Component>, n: nat, facts: seq<Fact>)
    requires n <= |components|
  {
    && (forall f :: f in facts ==> exists c :: c in components && f in CitedFacts(s, q, c))
    && (forall k :: 0 <= k < n ==> CitesAll(facts, CitedFacts(s, q, components[k])))
  }

  lemma SourcedNext(s: Snapshot, q: Query, components: seq<Component>, i: nat, before: seq<Fact>, after: seq<Fact>)
    requires i < |components| && Sourced(s, q, components, i, before)
    requires before <= after && CitesAll(after, CitedFacts(s, q, components[i]))
    requires forall f :: f in after ==> f in before || f in CitedFacts(s, q, components[i])
    ensures Sourced(s, q, components, i + 1, after)
  {
    forall k | 0 <= k < i ensures CitesAll(after, CitedFacts(s, q, components[k])) {
      StillCited(before, after, CitedFacts(s, q, components[k]));
    }
    assert components[i] in components;
  }

  lemma LineageIsComplete(s: Snapshot, q: Query, m: Metric, facts: seq<Fact>)
    requires forall c :: c in ComponentAliases(m) ==> CitesAll(facts, CitedFacts(s, q, c))
    ensures forall c :: c in Inputs(m) ==> CitesAll(facts, ReadFacts(s, q, c))
  {
    forall c | c in Inputs(m) ensures CitesAll(facts, ReadFacts(s, q, c)) {
      InputsAreDocumented(m, c);
      assert CitesAll(facts, CitedFacts(s, q, c));
      forall f | f in ReadFacts(s, q, c) ensures Cites(facts, f.naturalKey) {
        ReadIsCited(s, q, c, f);
      }
    }
  }

  ghost predicate OncePerKey(facts: seq<Fact>, seen: set<string>) {
    && (forall k :: k in seen <==> Cites(facts, k))
    && (forall i, j :: 0 <= i < j < |facts| ==> facts[i].naturalKey != facts[j].naturalKey)
  }

  /** The inner loop: the facts of one component that are not cited yet. */
  method AddCitations(facts: seq<Fact>, seen: set<string>, cited: seq<Fact>)
    returns (facts': seq<Fact>, seen': set<string>)
    requires OncePerKey(facts, seen)
    ensures OncePerKey(facts', seen')
    ensures facts <= facts' && CitesAll(facts', cited)
    ensures forall f :: f in facts' ==> f in facts || f in cited
  {
    facts', seen' := facts, seen;
    for j := 0 to |cited|
      invariant OncePerKey(facts', seen')
      invariant facts <= facts' && CitesAll(facts', cited[..j])
      invariant forall f :: f in facts' ==> f in facts || f in cited
    {
      var f := cited[j];
      assert cited[..j + 1] == cited[..j] + [f];
      if f.naturalKey !in seen' {
        CiteMore(facts', f, cited[..j]);
        seen' := seen' + {f.naturalKey};
        facts' := facts' + [f];
      }
    }
    assert cited[..|cited|] == cited;
  }

  lemma CiteMore(facts: seq<Fact>, f: Fact, wanted: seq<Fact>)
    requires CitesAll(facts, wanted)
    ensures CitesAll(facts + [f], wanted + [f])
    ensures forall k :: Cites(facts + [f], k) <==> Cites(facts, k) || k == f.naturalKey
  {
    assert f in facts + [f];
    forall k | Cites(facts, k) ensures Cites(facts + [f], k) {
      var g :| g in facts && g.naturalKey == k;
      assert g in facts + [f];
    }
  }

  lemma StillCited(before: seq<Fact>, after: seq<Fact>, wanted: seq<Fact>)
    requires before <= after && CitesAll(before, wanted)
    ensures CitesAll(after, wanted)
  {
    forall f | f in wanted ensures Cites(after, f.naturalKey) {
      var g :| g in before && g.naturalKey == f.naturalKey;
      assert g in after;
    }
  }
}

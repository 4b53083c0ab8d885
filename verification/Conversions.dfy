/**
 What a fact is worth in the reporting currency (strategyos_mvp/oracle_finance.py), told from the rates and the
 facts of the snapshot, and how flows and balances follow the rates.
 */
module Conversions {
  import opened Options
  import opened Sums
  import opened Seqs
  import opened Calendar
  import opened Periods
  import opened OracleFinance

  // ----- One fact -----

  /** The day whose rate a foreign fact is converted at: the one it names, else the last day of its window. */
  function RateDay(s: Snapshot, f: Fact): Option<Date> {
    match f.rateDate
    case On(d) => Some(d)
    case Malformed => None
    case NoDate => var w := FactWindow(s, f); if w.Window? then Some(w.last) else None
  }

  /** A usable rate between the two currencies of a fact, on one day. */
  ghost predicate Quoted(r: Rate, f: Fact, d: Date) {
    && r.source == f.currency && r.reporting == f.reportingCurrency && r.date == d
    && exists x :: x > 0.0 && r.value == Some(x)
  }

  /** The one usable rate in the list. */
  ghost predicate OnlyQuote(rates: seq<Rate>, i: nat, f: Fact, d: Date) {
    i < |rates| && Quoted(rates[i], f, d) && forall j: nat :: j < |rates| && Quoted(rates[j], f, d) ==> j == i
  }

  predicate Foreign(f: Fact) {
    !f.intercompany && f.currency != f.reportingCurrency
  }

  lemma QuoteIsRate(r: Rate, f: Fact, d: Date)
    ensures Quoted(r, f, d) <==> IsRate(f, d)(r)
  {
    assert r.value.Some? ==> r.value == Some(r.value.value);
  }

  lemma QuoteIsOnly(rates: seq<Rate>, i: nat, f: Fact, d: Date)
    ensures OnlyQuote(rates, i, f, d) <==> OnlyAt(rates, IsRate(f, d), i)
    ensures OnlyQuote(rates, i, f, d) ==> Filter(rates, IsRate(f, d)) == [rates[i]]
  {
    forall r ensures Quoted(r, f, d) <==> IsRate(f, d)(r) {
      QuoteIsRate(r, f, d);
    }
    if OnlyAt(rates, IsRate(f, d), i) {
      FilterOnly(rates, IsRate(f, d), i);
    }
  }

  lemma TheQuote(rates: seq<Rate>, f: Fact, d: Date) returns (i: nat)
    requires |Filter(rates, IsRate(f, d))| == 1
    ensures OnlyQuote(rates, i, f, d) && Filter(rates, IsRate(f, d)) == [rates[i]]
  {
    i := FilterOne(rates, IsRate(f, d));
    QuoteIsOnly(rates, i, f, d);
  }

  /** The worth of a foreign fact, told from the rates. */
  ghost predicate WorthBy(s: Snapshot, f: Fact, d: Date, i: nat, v: real) {
    && RateDay(s, f) == Some(d) && OnlyQuote(s.rates, i, f, d)
    && f.amount.Some? && s.rates[i].value.Some? && v == f.amount.value * s.rates[i].value.value
  }

  lemma ConvertAt(f: Fact, cancels: bool, w: Window, rates: seq<Rate>, d: Date)
    requires Foreign(f) && f.amount.Some? && (f.rateDate == On(d) || (f.rateDate == NoDate && w.Window? && w.last == d))
    ensures Convert(f, cancels, w, rates) == Priced(f.amount.value, Filter(rates, IsRate(f, d)))
  {
  }

  lemma PricedAt(amount: real, r: Rate, v: real)
    requires r.value.Some? && v == amount * r.value.value
    ensures Priced(amount, [r]).Some? && Priced(amount, [r]).value == v
  {
  }

  lemma WorthOf(s: Snapshot, f: Fact, d: Date, i: nat, v: real)
    requires Foreign(f) && WorthBy(s, f, d, i, v)
    ensures ReportingAmount(s, f) == Some(v)
  {
    QuoteIsOnly(s.rates, i, f, d);
    ConvertAt(f, Cancels(s, f, Peers(s, f)), FactWindow(s, f), s.rates, d);
    PricedAt(f.amount.value, s.rates[i], v);
  }

  /** A foreign amount is worth the amount times the one usable rate of its day, and nothing else. */
  lemma ForeignWorth(s: Snapshot, f: Fact, v: real)
    requires Foreign(f)
    ensures ReportingAmount(s, f) == Some(v) <==> exists d, i: nat :: WorthBy(s, f, d, i, v)
  {
    if ReportingAmount(s, f) == Some(v) {
      var d := RateDay(s, f).value;
      var i := TheQuote(s.rates, f, d);
      assert WorthBy(s, f, d, i, v);
    }
    forall d, i: nat | WorthBy(s, f, d, i, v) ensures ReportingAmount(s, f) == Some(v) {
      WorthOf(s, f, d, i, v);
    }
  }

  /** Two facts, and no third, carry the reference of `f`; both are in its currency and window, and cancel. */
  ghost predicate Offset(s: Snapshot, f: Fact, i: nat, j: nat) {
    && i < j < |s.facts| && f.reference.Some?
    && (forall n: nat :: n < |s.facts| ==> (s.facts[n].reference == f.reference <==> n == i || n == j))
    && s.facts[i].currency == s.facts[j].currency == f.currency
    && s.facts[i].amount.Some? && s.facts[j].amount.Some?
    && s.facts[i].amount.value + s.facts[j].amount.value == 0.0
    && FactWindow(s, s.facts[i]) == FactWindow(s, s.facts[j])
  }

  lemma PeersOffset(s: Snapshot, f: Fact)
    ensures Cancels(s, f, Peers(s, f)) <==> exists i: nat, j: nat :: Offset(s, f, i, j)
  {
    var p := HasReference(f.reference);
    forall i: nat, j: nat | Offset(s, f, i, j) ensures Cancels(s, f, Peers(s, f)) {
      FilterBoth(s.facts, p, i, j);
      SumOfTwo(s.facts[i], s.facts[j]);
    }
    if Cancels(s, f, Peers(s, f)) {
      var i, j := FilterTwo(s.facts, p);
      FilterBoth(s.facts, p, i, j);
      assert s.facts[i] in Peers(s, f) && s.facts[j] in Peers(s, f);
      SumOfTwo(s.facts[i], s.facts[j]);
      assert Offset(s, f, i, j);
    }
  }

  lemma SumOfTwo(a: Fact, b: Fact)
    ensures Sum([a, b], Raw) == Raw(a) + Raw(b)
  {
    assert [a, b][..1] == [a] && [a][..0] == [];
    assert Sum([a], Raw) == Raw(a);
  }

  /** A flagged fact is worth zero, exactly when it has an amount and is offset. */
  lemma FlaggedWorth(s: Snapshot, f: Fact)
    requires f.intercompany
    ensures ReportingAmount(s, f).Some? <==> f.amount.Some? && exists i: nat, j: nat :: Offset(s, f, i, j)
    ensures ReportingAmount(s, f).Some? ==> ReportingAmount(s, f) == Some(0.0)
  {
    PeersOffset(s, f);
  }

  /** The worth of a fact is the same whatever the rates are. */
  ghost predicate IgnoresRates(s: Snapshot, f: Fact) {
    forall rates :: ReportingAmount(s.(rates := rates), f) == ReportingAmount(s, f)
  }

  lemma SameButRates(s: Snapshot, f: Fact, rates: seq<Rate>)
    ensures var t := s.(rates := rates);
            FactWindow(t, f) == FactWindow(s, f) && (Cancels(t, f, Peers(t, f)) <==> Cancels(s, f, Peers(s, f)))
  {
    var t := s.(rates := rates);
    assert forall g :: FactWindow(t, g) == FactWindow(s, g);
    assert Peers(t, f) == Peers(s, f);
  }

  /** The worth of a fact does not depend on the rates exactly when it has no amount, is flagged, is in the reporting
      currency already, or names no day: its date is malformed, or it has none and its window raises. */
  lemma RatesMatterExactly(s: Snapshot, f: Fact)
    ensures IgnoresRates(s, f) <==>
            || f.amount.None? || f.intercompany || f.currency == f.reportingCurrency
            || f.rateDate == Malformed || (f.rateDate == NoDate && FactWindow(s, f) == Raises)
    ensures !f.intercompany && f.currency == f.reportingCurrency ==> ReportingAmount(s, f) == f.amount
    ensures IgnoresRates(s, f) && Foreign(f) ==> ReportingAmount(s, f) == None
  {
    forall rates | !Foreign(f) || f.amount.None? || RateDay(s, f).None?
      ensures ReportingAmount(s.(rates := rates), f) == ReportingAmount(s, f)
    {
      SameButRates(s, f, rates);
    }
    if Foreign(f) && f.amount.Some? && RateDay(s, f).Some? {
      var d := RateDay(s, f).value;
      var none, one := s.(rates := []), s.(rates := [Rate(f.currency, f.reportingCurrency, d, Some(1.0))]);
      SameButRates(s, f, none.rates);
      SameButRates(s, f, one.rates);
      assert OnlyQuote(one.rates, 0, f, d);
      QuoteIsOnly(one.rates, 0, f, d);
      assert ReportingAmount(one, f).Some? && ReportingAmount(none, f).None?;
    }
  }

  // ----- All rates of a currency -----

  function ScaledRate(r: Rate, c: string, k: real): Rate {
    if r.source == c && r.value.Some? then r.(value := Some(r.value.value * k)) else r
  }

  /** The snapshot with every rate of a currency multiplied by the same number. */
  function Scaled(s: Snapshot, c: string, k: real): Snapshot {
    s.(rates := seq(|s.rates|, (i: nat) requires i < |s.rates| => ScaledRate(s.rates[i], c, k)))
  }

  lemma SameQuotes(s: Snapshot, c: string, k: real, f: Fact, d: Date, i: nat)
    requires k > 0.0
    ensures OnlyQuote(Scaled(s, c, k).rates, i, f, d) <==> OnlyQuote(s.rates, i, f, d)
  {
    var t := Scaled(s, c, k);
    forall j: nat | j < |s.rates| ensures Quoted(t.rates[j], f, d) <==> Quoted(s.rates[j], f, d) {
      SameQuote(s.rates[j], c, k, f, d);
    }
  }

  lemma SameQuote(r: Rate, c: string, k: real, f: Fact, d: Date)
    requires k > 0.0
    ensures Quoted(ScaledRate(r, c, k), f, d) <==> Quoted(r, f, d)
  {
    if r.source == c && r.value.Some? {
      var x := r.value.value;
      assert x > 0.0 ==> x * k > 0.0;
      assert x <= 0.0 ==> x * k <= 0.0;
      assert r.value == Some(x) && ScaledRate(r, c, k).value == Some(x * k);
    }
  }

  lemma ScaledBy(s: Snapshot, c: string, k: real, f: Fact, d: Date, i: nat, v: real, w: real)
    requires k > 0.0 && WorthBy(s, f, d, i, v) && w == if f.currency == c then v * k else v
    ensures WorthBy(Scaled(s, c, k), f, d, i, w)
  {
    SameQuotes(s, c, k, f, d, i);
    SameButRates(s, f, Scaled(s, c, k).rates);
    assert Scaled(s, c, k).rates[i] == ScaledRate(s.rates[i], c, k);
    var x := s.rates[i].value.value;
    assert f.amount.value * x * k == f.amount.value * (x * k);
  }

  lemma ScaledTo(s: Snapshot, c: string, k: real, f: Fact, v: real, w: real)
    requires k > 0.0 && Foreign(f) && ReportingAmount(s, f) == Some(v) && w == if f.currency == c then v * k else v
    ensures ReportingAmount(Scaled(s, c, k), f) == Some(w)
  {
    ForeignWorth(s, f, v);
    var d, i: nat :| WorthBy(s, f, d, i, v);
    assert WorthBy(Scaled(s, c, k), f, d, i, w) by {
      ScaledBy(s, c, k, f, d, i, v, w);
    }
    WorthOf(Scaled(s, c, k), f, d, i, w);
  }

  lemma ScaledForeign(s: Snapshot, c: string, k: real, f: Fact)
    requires k > 0.0 && Foreign(f) && ReportingAmount(s, f).Some?
    ensures ReportingAmount(Scaled(s, c, k), f).Some?
    ensures ReportingAmount(Scaled(s, c, k), f).value ==
            if f.currency == c then ReportingAmount(s, f).value * k else ReportingAmount(s, f).value
  {
    var v := ReportingAmount(s, f).value;
    ScaledTo(s, c, k, f, v, if f.currency == c then v * k else v);
  }

  lemma StillForeign(s: Snapshot, c: string, k: real, f: Fact)
    requires k > 0.0 && Foreign(f) && ReportingAmount(Scaled(s, c, k), f).Some?
    ensures ReportingAmount(s, f).Some?
  {
    var t := Scaled(s, c, k);
    var w := ReportingAmount(t, f).value;
    ForeignWorth(t, f, w);
    var d, i: nat :| WorthBy(t, f, d, i, w);
    SameQuotes(s, c, k, f, d, i);
    SameButRates(s, f, t.rates);
    WorthOf(s, f, d, i, f.amount.value * s.rates[i].value.value);
  }

  lemma HomeUnscaled(s: Snapshot, c: string, k: real, f: Fact)
    requires !Foreign(f)
    ensures ReportingAmount(Scaled(s, c, k), f) == ReportingAmount(s, f)
  {
    SameButRates(s, f, Scaled(s, c, k).rates);
  }

  /** Unflagged foreign facts of the currency are worth `k` times as much, and nothing else changes. */
  lemma ScaledWorth(s: Snapshot, c: string, k: real, f: Fact)
    requires k > 0.0
    ensures var before, after := ReportingAmount(s, f), ReportingAmount(Scaled(s, c, k), f);
            && (after.Some? <==> before.Some?)
            && (before.Some? ==>
                  after.value == if Foreign(f) && f.currency == c then before.value * k else before.value)
  {
    if !Foreign(f) {
      HomeUnscaled(s, c, k, f);
    } else if ReportingAmount(s, f).Some? {
      ScaledForeign(s, c, k, f);
    } else if ReportingAmount(Scaled(s, c, k), f).Some? {
      StillForeign(s, c, k, f);
    }
  }

  /** What the facts of the currency contribute: everything else counts as zero. */
  function Exposed(s: Snapshot, c: string): Fact -> Option<real> {
    (f: Fact) => if Foreign(f) && f.currency == c then ReportingAmount(s, f) else Some(0.0)
  }

  /** Every worth is another one and something more. */
  ghost predicate Follows(before: Fact -> Option<real>, after: Fact -> Option<real>, more: Fact -> Option<real>) {
    && (forall f :: after(f).Some? <==> before(f).Some?)
    && (forall f :: before(f).Some? ==> Worth(after)(f) == Worth(before)(f) + Worth(more)(f))
  }

  /** A multiple of what is exposed. */
  function Multiple(k: real, convert: Fact -> Option<real>): Fact -> Option<real> {
    (f: Fact) => Some(k * convert(f).Or(0.0))
  }

  lemma ScaledConversion(s: Snapshot, c: string, k: real, f: Fact)
    requires k > 0.0
    ensures var before, after := Conversion(s)(f), Conversion(Scaled(s, c, k))(f);
            && (after.Some? <==> before.Some?)
            && (before.Some? ==> after.value == before.value + Worth(Multiple(k - 1.0, Exposed(s, c)))(f))
  {
    ScaledWorth(s, c, k, f);
    if ReportingAmount(s, f).Some? {
      if Foreign(f) && f.currency == c {
        Rise(ReportingAmount(s, f).value, k);
      } else {
        assert Worth(Multiple(k - 1.0, Exposed(s, c)))(f) == (k - 1.0) * 0.0 == 0.0;
      }
    }
  }

  lemma Rise(x: real, k: real)
    ensures x * k == x + (k - 1.0) * x
  {
  }

  lemma ScaledConversions(s: Snapshot, c: string, k: real)
    requires k > 0.0
    ensures Follows(Conversion(s), Conversion(Scaled(s, c, k)), Multiple(k - 1.0, Exposed(s, c)))
  {
    forall f ensures Conversion(Scaled(s, c, k))(f).Some? <==> Conversion(s)(f).Some? {
      ScaledConversion(s, c, k, f);
    }
    var more := Worth(Multiple(k - 1.0, Exposed(s, c)));
    forall f | Conversion(s)(f).Some?
      ensures Worth(Conversion(Scaled(s, c, k)))(f) == Worth(Conversion(s))(f) + more(f)
    {
      ScaledConversion(s, c, k, f);
    }
  }

  lemma ScaledSelection(s: Snapshot, c: string, k: real, q: Query, aliases: set<string>, prefer: bool)
    ensures MatchingFacts(Scaled(s, c, k), q, aliases, prefer) == MatchingFacts(s, q, aliases, prefer)
    ensures forall f :: EndOf(s)(f) == EndOf(Scaled(s, c, k))(f)
  {
    var t := Scaled(s, c, k);
    forall f ensures FactWindow(t, f) == FactWindow(s, f) {
    }
    FilterCongruence(s.facts, IsNested(s, q, aliases), IsNested(t, q, aliases));
  }

  /** A total that is still available, or unavailable, and has risen by so much. */
  ghost predicate Risen(before: Option<real>, after: Option<real>, more: real) {
    && (after.Some? <==> before.Some?)
    && (before.Some? ==> after.value == before.value + more)
  }

  lemma ReportFollows(facts: seq<Fact>, before: Fact -> Option<real>, after: Fact -> Option<real>,
                      more: Fact -> Option<real>)
    requires Follows(before, after, more)
    ensures Risen(Reported(facts, before), Reported(facts, after), Sum(facts, Worth(more)))
  {
    if Converts(before, facts) {
      SumIsAdditive(facts, Worth(before), Worth(more), Worth(after));
    }
  }

  /** A flow rises by (k - 1) times what each of its foreign facts of the currency contributes. */
  lemma ScaledSum(s: Snapshot, c: string, k: real, q: Query, aliases: set<string>)
    requires k > 0.0
    ensures Risen(SumMetric(s, q, aliases), SumMetric(Scaled(s, c, k), q, aliases),
                  Sum(MatchingFacts(s, q, aliases, true), Worth(Multiple(k - 1.0, Exposed(s, c)))))
  {
    var facts, more := MatchingFacts(s, q, aliases, true), Multiple(k - 1.0, Exposed(s, c));
    var before, after := Conversion(s), Conversion(Scaled(s, c, k));
    assert Risen(Reported(facts, before), Reported(facts, after), Sum(facts, Worth(more))) by {
      ScaledConversions(s, c, k);
      ReportFollows(facts, before, after, more);
    }
    assert MatchingFacts(Scaled(s, c, k), q, aliases, true) == facts by {
      ScaledSelection(s, c, k, q, aliases, true);
    }
  }

  /** The latest balance of a query, as LatestMetric computes it. */
  ghost function Latest(s: Snapshot, q: Query, aliases: set<string>): Option<real> {
    Consolidated(MatchingFacts(s, q, aliases, false), EndOf(s), Conversion(s))
  }

  /** The sum over grains of what the latest fact of each yields. */
  ghost function LatestTotal(facts: seq<Fact>, end: Fact -> int, convert: Fact -> Option<real>): real {
    Total(KeysOf(facts, GrainOf), BalanceOf(facts, end, convert))
  }

  lemma GrainFollows(facts: seq<Fact>, end: Fact -> int, end': Fact -> int, before: Fact -> Option<real>,
                     after: Fact -> Option<real>, more: Fact -> Option<real>, g: Grain)
    requires (forall f :: end(f) == end'(f)) && Follows(before, after, more)
    ensures Determined(facts, end', after, g) <==> Determined(facts, end, before, g)
    ensures Determined(facts, end, before, g) ==>
              BalanceOf(facts, end', after)(g) == BalanceOf(facts, end, before)(g) + BalanceOf(facts, end, more)(g)
  {
    SameLatestRows(facts, facts, end, end', g);
    if Determined(facts, end, before, g) {
      var last := LatestRows(facts, end, g)[0];
      assert Worth(after)(last) == Worth(before)(last) + Worth(more)(last);
    }
  }

  lemma BalanceFollows(facts: seq<Fact>, end: Fact -> int, end': Fact -> int, before: Fact -> Option<real>,
                       after: Fact -> Option<real>, more: Fact -> Option<real>)
    requires (forall f :: end(f) == end'(f)) && Follows(before, after, more)
    ensures Risen(Consolidated(facts, end, before), Consolidated(facts, end', after), LatestTotal(facts, end, more))
  {
    forall g ensures Determined(facts, end', after, g) <==> Determined(facts, end, before, g) {
      GrainFollows(facts, end, end', before, after, more, g);
    }
    if Consolidated(facts, end, before).Some? {
      var b, a, m := BalanceOf(facts, end, before), BalanceOf(facts, end', after), BalanceOf(facts, end, more);
      forall g | g in KeysOf(facts, GrainOf) ensures a(g) == b(g) + m(g) {
        GrainFollows(facts, end, end', before, after, more, g);
      }
      TotalIsAdditive(KeysOf(facts, GrainOf), b, m, a);
    }
  }

  /** So does a balance, by (k - 1) times what each of its latest facts of the currency contributes. */
  lemma ScaledLatest(s: Snapshot, c: string, k: real, q: Query, aliases: set<string>)
    requires k > 0.0
    ensures Risen(Latest(s, q, aliases), Latest(Scaled(s, c, k), q, aliases),
                  LatestTotal(MatchingFacts(s, q, aliases, false), EndOf(s), Multiple(k - 1.0, Exposed(s, c))))
  {
    var facts, more := MatchingFacts(s, q, aliases, false), Multiple(k - 1.0, Exposed(s, c));
    var end, end' := EndOf(s), EndOf(Scaled(s, c, k));
    var before, after := Conversion(s), Conversion(Scaled(s, c, k));
    assert Risen(Consolidated(facts, end, before), Consolidated(facts, end', after), LatestTotal(facts, end, more)) by {
      ScaledConversions(s, c, k);
      ScaledSelection(s, c, k, q, aliases, false);
      BalanceFollows(facts, end, end', before, after, more);
    }
    assert MatchingFacts(Scaled(s, c, k), q, aliases, false) == facts by {
      ScaledSelection(s, c, k, q, aliases, false);
    }
  }

  // ----- Which facts are read -----

  ghost predicate UnderKey(q: Query, aliases: set<string>, f: Fact) {
    f.kind in aliases && f.periodKey == q.key && f.cadence == q.cadence
  }

  /** A fact whose window lies in the period of a query. */
  ghost predicate InPeriod(s: Snapshot, q: Query, aliases: set<string>, f: Fact) {
    f.kind in aliases && exists w :: w == FactWindow(s, f) && w.Window? && q.first <= w.first && w.last <= q.last
  }

  /** The facts under the key when there are any, else those in the period; a flow reads only those of its own cadence
      if there are any. */
  ghost predicate IsRead(s: Snapshot, q: Query, aliases: set<string>, flow: bool, f: Fact) {
    if exists g :: g in s.facts && UnderKey(q, aliases, g) then UnderKey(q, aliases, f)
    else
      && InPeriod(s, q, aliases, f)
      && (flow && (exists g :: g in s.facts && InPeriod(s, q, aliases, g) && g.cadence == q.cadence) ==>
            f.cadence == q.cadence)
  }

  /** The period of a fact: the first one with its key and cadence. */
  lemma {:induction false} PeriodIsFirst(periods: seq<Period>, key: string, cadence: Cadence, p: Period)
    ensures PeriodFor(periods, key, cadence) == Some(p) <==>
            exists i: nat :: FirstPeriod(periods, key, cadence, i) && periods[i] == p
  {
    if periods != [] {
      PeriodIsFirst(periods[1..], key, cadence, p);
      forall i: nat | i + 1 < |periods| && !(periods[0].key == key && periods[0].cadence == cadence)
        ensures FirstPeriod(periods[1..], key, cadence, i) <==> FirstPeriod(periods, key, cadence, i + 1)
      {
        assert forall j: nat :: 1 <= j < i + 1 ==> periods[1..][j - 1] == periods[j];
      }
    }
  }

  ghost predicate FirstPeriod(periods: seq<Period>, key: string, cadence: Cadence, i: nat) {
    && i < |periods| && periods[i].key == key && periods[i].cadence == cadence
    && forall j: nat :: j < i ==> periods[j].key != key || periods[j].cadence != cadence
  }

  /** The window of a fact is bounded by its period where that has both bounds, and by the rules of its key where there
      is no such period. */
  lemma WindowExactly(s: Snapshot, f: Fact, i: nat, first: Date, last: Date)
    ensures FirstPeriod(s.periods, f.periodKey, f.cadence, i)
            && s.periods[i].start == Some(first) && s.periods[i].end == Some(last) ==>
              FactWindow(s, f) == Window(first, last)
    ensures (forall p :: p in s.periods ==> p.key != f.periodKey || p.cadence != f.cadence) ==>
              FactWindow(s, f) == ResolveBounds(f.periodKey, f.cadence, None, None, s.today)
  {
    if FirstPeriod(s.periods, f.periodKey, f.cadence, i) {
      PeriodIsFirst(s.periods, f.periodKey, f.cadence, s.periods[i]);
    }
    var found := PeriodFor(s.periods, f.periodKey, f.cadence);
    if found.Some? {
      PeriodIsFirst(s.periods, f.periodKey, f.cadence, found.value);
    }
  }

  /** Every such fact is read as often as the snapshot holds it, and no other. */
  lemma ReadExactly(s: Snapshot, q: Query, aliases: set<string>, flow: bool, f: Fact)
    ensures multiset(MatchingFacts(s, q, aliases, flow))[f] ==
            if IsRead(s, q, aliases, flow, f) then multiset(s.facts)[f] else 0
  {
    forall g ensures UnderKey(q, aliases, g) <==> IsExact(q, aliases)(g) {
    }
    forall g ensures InPeriod(s, q, aliases, g) <==> IsNested(s, q, aliases)(g) {
    }
    var nested := Filter(s.facts, IsNested(s, q, aliases));
    FilterCount(s.facts, IsExact(q, aliases), f);
    FilterCount(s.facts, IsNested(s, q, aliases), f);
    FilterCount(nested, HasCadence(q.cadence), f);
    SomeOrNone(s.facts, IsExact(q, aliases));
    SomeOrNone(nested, HasCadence(q.cadence));
  }

  lemma SomeOrNone(facts: seq<Fact>, p: Fact -> bool)
    ensures Filter(facts, p) == [] <==> forall g :: g in facts ==> !p(g)
  {
    if Filter(facts, p) != [] {
      assert Filter(facts, p)[0] in Filter(facts, p);
    }
  }

  ghost predicate EndsBefore(s: Snapshot, f: Fact, g: Fact) {
    var v, w := FactWindow(s, f), FactWindow(s, g);
    w.Window? && (v.Window? ==> v.last < w.last)
  }

  /** The one fact of a grain that ends after all others of it. */
  ghost predicate LastOf(s: Snapshot, facts: seq<Fact>, g: Grain, i: nat) {
    && i < |facts| && facts[i].grain == g
    && forall j: nat :: j < |facts| && j != i && facts[j].grain == g ==> EndsBefore(s, facts[j], facts[i])
  }

  function LatestIn(end: Fact -> int, g: Grain, latest: int): Fact -> bool {
    (f: Fact) => f.grain == g && end(f) == latest
  }

  lemma LatestRowsOf(facts: seq<Fact>, end: Fact -> int, g: Grain, latest: int)
    ensures Filter(Filter(facts, HasKey(GrainOf, g)), EndsAt(end, latest)) == Filter(facts, LatestIn(end, g, latest))
  {
    FilterTwice(facts, HasKey(GrainOf, g), EndsAt(end, latest), LatestIn(end, g, latest));
  }

  /** The one element of a grain that ends after all others of it. */
  ghost predicate EndsLast(facts: seq<Fact>, end: Fact -> int, g: Grain, i: nat) {
    && i < |facts| && facts[i].grain == g
    && forall j: nat :: j < |facts| && j != i && facts[j].grain == g ==> end(facts[j]) < end(facts[i])
  }

  lemma LastIsLatest(facts: seq<Fact>, end: Fact -> int, g: Grain, i: nat)
    requires EndsLast(facts, end, g, i)
    ensures LatestRows(facts, end, g) == [facts[i]]
  {
    var rows := Filter(facts, HasKey(GrainOf, g));
    assert facts[i] in rows;
    var latest := LatestEnd(rows, end);
    assert forall f :: f in rows ==> end(f) <= end(facts[i]);
    assert latest == end(facts[i]);
    LatestRowsOf(facts, end, g, latest);
    FilterOnly(facts, LatestIn(end, g, latest), i);
  }

  lemma LatestIsLast(facts: seq<Fact>, end: Fact -> int, g: Grain) returns (i: nat)
    requires |LatestRows(facts, end, g)| == 1
    ensures EndsLast(facts, end, g, i)
  {
    var rows := Filter(facts, HasKey(GrainOf, g));
    var latest := LatestEnd(rows, end);
    assert |Filter(facts, LatestIn(end, g, latest))| == 1 by {
      LatestRowsOf(facts, end, g, latest);
    }
    i := FilterOne(facts, LatestIn(end, g, latest));
    forall j: nat | j < |facts| && j != i && facts[j].grain == g ensures end(facts[j]) < latest {
      EndsByLatest(facts, end, g, j);
      assert !LatestIn(end, g, latest)(facts[j]);
    }
  }

  lemma EndsByLatest(facts: seq<Fact>, end: Fact -> int, g: Grain, j: nat)
    requires j < |facts| && facts[j].grain == g
    ensures facts[j] in Filter(facts, HasKey(GrainOf, g))
    ensures end(facts[j]) <= LatestEnd(Filter(facts, HasKey(GrainOf, g)), end)
  {
    assert HasKey(GrainOf, g)(facts[j]);
  }

  lemma LastOfIsLast(s: Snapshot, facts: seq<Fact>, g: Grain, i: nat)
    ensures LastOf(s, facts, g, i) <==> EndsLast(facts, EndOf(s), g, i)
  {
  }

  /** A grain contributes the worth of its one latest fact, and makes the balance unavailable when it has none. */
  lemma LatestOfGrain(s: Snapshot, facts: seq<Fact>, g: Grain, v: real)
    ensures Determined(facts, EndOf(s), Conversion(s), g) && BalanceOf(facts, EndOf(s), Conversion(s))(g) == v
            <==> exists i: nat :: LastOf(s, facts, g, i) && ReportingAmount(s, facts[i]) == Some(v)
  {
    forall i: nat | LastOf(s, facts, g, i) ensures LatestRows(facts, EndOf(s), g) == [facts[i]] {
      LastOfIsLast(s, facts, g, i);
      LastIsLatest(facts, EndOf(s), g, i);
    }
    if |LatestRows(facts, EndOf(s), g)| == 1 {
      var i := LatestIsLast(facts, EndOf(s), g);
      LastOfIsLast(s, facts, g, i);
      LastIsLatest(facts, EndOf(s), g, i);
      assert Conversion(s)(facts[i]) == ReportingAmount(s, facts[i]);
    }
  }

  /** A grain with its one latest fact, and a worth of it. */
  ghost predicate Settled(s: Snapshot, facts: seq<Fact>, g: Grain) {
    exists i: nat, v :: LastOf(s, facts, g, i) && ReportingAmount(s, facts[i]) == Some(v)
  }

  lemma SettledGrain(s: Snapshot, facts: seq<Fact>, g: Grain)
    ensures Settled(s, facts, g) <==> Determined(facts, EndOf(s), Conversion(s), g)
  {
    if i: nat, v :| LastOf(s, facts, g, i) && ReportingAmount(s, facts[i]) == Some(v) {
      LatestOfGrain(s, facts, g, v);
    }
    LatestOfGrain(s, facts, g, BalanceOf(facts, EndOf(s), Conversion(s))(g));
  }

  /** A balance is available exactly when something is read and each grain has its one latest fact, with a worth. */
  lemma LatestAvailable(s: Snapshot, q: Query, aliases: set<string>)
    ensures var facts := MatchingFacts(s, q, aliases, false);
            Latest(s, q, aliases).Some? <==>
            (exists f :: f in facts) && (forall f :: f in facts ==> Settled(s, facts, f.grain))
  {
    var facts := MatchingFacts(s, q, aliases, false);
    NonEmpty(facts);
    forall g ensures Settled(s, facts, g) <==> Determined(facts, EndOf(s), Conversion(s), g) {
      SettledGrain(s, facts, g);
    }
    GrainsOf(facts);
  }

  lemma GrainsOf(facts: seq<Fact>)
    ensures forall f :: f in facts ==> f.grain in KeysOf(facts, GrainOf)
    ensures forall g :: g in KeysOf(facts, GrainOf) ==> exists f :: f in facts && f.grain == g
  {
    forall f | f in facts ensures f.grain in KeysOf(facts, GrainOf) {
      assert GrainOf(f) in KeysOf(facts, GrainOf);
    }
  }

  /** A flow is available exactly when something is read and all of it has a worth. */
  lemma SumAvailable(s: Snapshot, q: Query, aliases: set<string>)
    ensures var facts := MatchingFacts(s, q, aliases, true);
            SumMetric(s, q, aliases).Some? <==>
            (exists f :: f in facts) && (forall f :: f in facts ==> ReportingAmount(s, f).Some?)
  {
    NonEmpty(MatchingFacts(s, q, aliases, true));
  }

  /** The facts read for a component are the ones its value is made of: a balance for cash, receivables, payables,
      inventory and debt, a flow for the rest. */
  lemma ComponentsRead(s: Snapshot, q: Query, c: Component)
    ensures if c in {CashBalance, Receivables, Payables, Inventory, DebtBalance}
            then Latest(s, q, ReadTypes(c)) == Consolidated(ReadFacts(s, q, c), EndOf(s), Conversion(s))
            else SumMetric(s, q, ReadTypes(c)) == Reported(ReadFacts(s, q, c), Conversion(s))
  {
  }
}

/**
 The formulas of the KPI metrics (strategyos_mvp/oracle_finance.py): which components each one works on, when it is
 available, and what it is.
 */
module MetricFormulas {
  import opened Options
  import opened OracleFinance

  const MIN_MEANINGFUL_EBITDA: real := 0.01

  /** What the components of a computation are worth; None when unavailable. */
  type Values = Component -> Option<real>

  function Ratio(numerator: Option<real>, denominator: Option<real>): Option<real> {
    if numerator.None? || denominator.None? || denominator.value == 0.0 then None
    else Some(numerator.value / denominator.value)
  }

  function Percent(numerator: Option<real>, denominator: Option<real>): Option<real> {
    var ratio := Ratio(numerator, denominator);
    if ratio.None? then None else Some(ratio.value * 100.0)
  }

  function Abs(x: real): real { if x < 0.0 then -x else x }

  function Leverage(numerator: Option<real>, denominator: Option<real>): Option<real> {
    if numerator.None? || denominator.None? then None
    else if denominator.value <= 0.0 || Abs(denominator.value) < MIN_MEANINGFUL_EBITDA then None
    else Some(numerator.value / denominator.value)
  }

  function Difference(left: Option<real>, right: Option<real>): Option<real> {
    if left.None? || right.None? then None else Some(left.value - right.value)
  }

  function InDays(balance: Option<real>, flow: Option<real>, days: int): Option<real> {
    var ratio := Ratio(balance, flow);
    if ratio.None? then None else Some(ratio.value * days as real)
  }

  function Cycle(dso: Option<real>, dio: Option<real>, dpo: Option<real>): Option<real> {
    if dso.None? || dio.None? || dpo.None? then None else Some(dso.value + dio.value - dpo.value)
  }

  function LeverageOf(v: Values): Option<real> {
    Leverage(Difference(v(DebtBalance), v(CashBalance)), v(EbitdaActual))
  }

  /** compute_oracle_pilot_kpis, one metric at a time */
  function MetricValue(m: Metric, v: Values, days: int): Option<real> {
    match m
    case RevenueAttainment => Percent(v(RevenueActual), v(RevenuePlan))
    case EbitdaMargin => Percent(v(EbitdaActual), v(RevenueActual))
    case EbitdaAttainment => Percent(v(EbitdaActual), v(EbitdaPlan))
    case OperatingCostOfPlan => Percent(v(OperatingCostActual), v(OperatingCostPlan))
    case CashVsBoardFloor => Percent(v(CashBalance), v(BoardFloor))
    case CashFloorHeadroom => Difference(v(CashBalance), v(BoardFloor))
    case DsoDays => InDays(v(Receivables), v(CreditSales), days)
    case DpoDays => InDays(v(Payables), v(CreditPurchases), days)
    case DioDays => InDays(v(Inventory), v(CostOfSales), days)
    case CccDays =>
      Cycle(InDays(v(Receivables), v(CreditSales), days), InDays(v(Inventory), v(CostOfSales), days),
            InDays(v(Payables), v(CreditPurchases), days))
    case NetDebtToEbitda => LeverageOf(v)
    case CovenantHeadroom => Difference(v(CovenantMaxLeverage), LeverageOf(v))
  }

  // ----- Availability -----

  /** The components a metric divides by. */
  function Divisors(m: Metric): set<Component> {
    match m
    case RevenueAttainment => {RevenuePlan}
    case EbitdaMargin => {RevenueActual}
    case EbitdaAttainment => {EbitdaPlan}
    case OperatingCostOfPlan => {OperatingCostPlan}
    case CashVsBoardFloor => {BoardFloor}
    case CashFloorHeadroom => {}
    case DsoDays => {CreditSales}
    case DpoDays => {CreditPurchases}
    case DioDays => {CostOfSales}
    case CccDays => {CreditSales, CreditPurchases, CostOfSales}
    case NetDebtToEbitda => {EbitdaActual}
    case CovenantHeadroom => {EbitdaActual}
  }

  /** A metric is available exactly when all its inputs are, none it divides by is zero, and the earnings a debt is
      compared with are at least a hundredth. */
  lemma AvailableExactly(m: Metric, v: Values, days: int)
    ensures MetricValue(m, v, days).Some? <==>
            && (forall c :: c in Inputs(m) ==> v(c).Some?)
            && (forall c :: c in Divisors(m) ==> v(c) != Some(0.0))
            && (m in {NetDebtToEbitda, CovenantHeadroom} ==> v(EbitdaActual).value >= 0.01)
  {
  }

  // ----- The inputs of a formula -----

  /** Two computations that differ at most in one component. */
  ghost predicate DifferAt(v: Values, w: Values, c: Component) {
    forall d :: d != c ==> v(d) == w(d)
  }

  /** Some change of the component alone changes the metric. */
  ghost predicate Matters(m: Metric, c: Component) {
    exists v: Values, w: Values, days ::
      DifferAt(v, w, c) && MetricValue(m, v, days) != MetricValue(m, w, days)
  }

  /** A metric is the same for all computations that agree on its inputs. */
  lemma InputsSuffice(m: Metric, v: Values, w: Values, days: int)
    requires forall c :: c in Inputs(m) ==> v(c) == w(c)
    ensures MetricValue(m, v, days) == MetricValue(m, w, days)
  {
  }

  function Ones(): Values { c => Some(1.0) }

  function Without(c: Component): Values { d => if d == c then None else Some(1.0) }

  lemma OnesGiveValues(m: Metric)
    ensures MetricValue(m, Ones(), 1).Some?
  {
    AvailableExactly(m, Ones(), 1);
  }

  lemma WithoutGivesNone(m: Metric, c: Component)
    requires c in Inputs(m)
    ensures MetricValue(m, Without(c), 1).None?
  {
    AvailableExactly(m, Without(c), 1);
    assert Without(c)(c) == None;
  }

  /** The inputs of a metric are exactly the components that matter to it. */
  lemma InputsExactly(m: Metric, c: Component)
    ensures Matters(m, c) <==> c in Inputs(m)
  {
    if c in Inputs(m) {
      OnesGiveValues(m);
      WithoutGivesNone(m, c);
      assert DifferAt(Ones(), Without(c), c);
    } else {
      forall v: Values, w: Values, days | DifferAt(v, w, c)
        ensures MetricValue(m, v, days) == MetricValue(m, w, days)
      {
        InputsSuffice(m, v, w, days);
      }
    }
  }

  // ----- What a metric is -----

  /** x is so many hundredths of the denominator. */
  ghost predicate IsPercent(x: real, numerator: Option<real>, denominator: Option<real>) {
    numerator.Some? && denominator.Some? && x * denominator.value == 100.0 * numerator.value
  }

  /** x days of the flow of a period make the balance. */
  ghost predicate IsDays(x: real, balance: Option<real>, flow: Option<real>, days: int) {
    balance.Some? && flow.Some? && x * flow.value == balance.value * days as real
  }

  lemma PercentEquation(numerator: Option<real>, denominator: Option<real>)
    requires Percent(numerator, denominator).Some?
    ensures IsPercent(Percent(numerator, denominator).value, numerator, denominator)
  {
    var n, d := numerator.value, denominator.value;
    var r := n / d;
    assert r * d == n;
    assert r * 100.0 * d == 100.0 * (r * d);
  }

  lemma DaysEquation(balance: Option<real>, flow: Option<real>, days: int)
    requires InDays(balance, flow, days).Some?
    ensures IsDays(InDays(balance, flow, days).value, balance, flow, days)
  {
    var b, f, k := balance.value, flow.value, days as real;
    var r := b / f;
    assert r * f == b;
    assert r * k * f == r * f * k;
  }

  lemma LeverageEquation(numerator: Option<real>, denominator: Option<real>)
    requires Leverage(numerator, denominator).Some?
    ensures Leverage(numerator, denominator).value * denominator.value == numerator.value
  {
  }

  /** The shares of a metric and what they are shares of. */
  function ShareOf(m: Metric): Option<(Component, Component)> {
    match m
    case RevenueAttainment => Some((RevenueActual, RevenuePlan))
    case EbitdaMargin => Some((EbitdaActual, RevenueActual))
    case EbitdaAttainment => Some((EbitdaActual, EbitdaPlan))
    case OperatingCostOfPlan => Some((OperatingCostActual, OperatingCostPlan))
    case CashVsBoardFloor => Some((CashBalance, BoardFloor))
    case _ => None
  }

  /** A percentage is what its name says. */
  lemma PercentagesAreShares(m: Metric, v: Values, days: int)
    requires MetricValue(m, v, days).Some? && ShareOf(m).Some?
    ensures IsPercent(MetricValue(m, v, days).value, v(ShareOf(m).value.0), v(ShareOf(m).value.1))
  {
    PercentEquation(v(ShareOf(m).value.0), v(ShareOf(m).value.1));
  }

  /** Days of sales, of purchases and of stock. */
  lemma DaysAreRatios(v: Values, days: int)
    ensures MetricValue(DsoDays, v, days).Some? ==>
              IsDays(MetricValue(DsoDays, v, days).value, v(Receivables), v(CreditSales), days)
    ensures MetricValue(DpoDays, v, days).Some? ==>
              IsDays(MetricValue(DpoDays, v, days).value, v(Payables), v(CreditPurchases), days)
    ensures MetricValue(DioDays, v, days).Some? ==>
              IsDays(MetricValue(DioDays, v, days).value, v(Inventory), v(CostOfSales), days)
  {
    if MetricValue(DsoDays, v, days).Some? {
      DaysEquation(v(Receivables), v(CreditSales), days);
    }
    if MetricValue(DpoDays, v, days).Some? {
      DaysEquation(v(Payables), v(CreditPurchases), days);
    }
    if MetricValue(DioDays, v, days).Some? {
      DaysEquation(v(Inventory), v(CostOfSales), days);
    }
  }

  lemma CycleAddsUp(dso: Option<real>, dio: Option<real>, dpo: Option<real>)
    requires Cycle(dso, dio, dpo).Some?
    ensures dso.Some? && dio.Some? && dpo.Some?
    ensures Cycle(dso, dio, dpo).value + dpo.value == dso.value + dio.value
  {
  }

  /** The cash cycle and the days of purchases make the days of sales and of stock. */
  lemma CashCycleAddsUp(v: Values, days: int)
    requires MetricValue(CccDays, v, days).Some?
    ensures MetricValue(DsoDays, v, days).Some? && MetricValue(DioDays, v, days).Some?
    ensures MetricValue(DpoDays, v, days).Some?
    ensures MetricValue(CccDays, v, days).value + MetricValue(DpoDays, v, days).value
         == MetricValue(DsoDays, v, days).value + MetricValue(DioDays, v, days).value
  {
    CycleAddsUp(MetricValue(DsoDays, v, days), MetricValue(DioDays, v, days), MetricValue(DpoDays, v, days));
  }

  /** The floor and the headroom over it make the cash; earnings times the leverage make the net debt; the leverage and
      the headroom under it make the covenant's limit. */
  lemma HeadroomsAddUp(v: Values, days: int)
    ensures MetricValue(CashFloorHeadroom, v, days).Some? ==>
              v(BoardFloor).Or(0.0) + MetricValue(CashFloorHeadroom, v, days).value == v(CashBalance).Or(0.0)
    ensures MetricValue(NetDebtToEbitda, v, days).Some? ==>
              MetricValue(NetDebtToEbitda, v, days).value * v(EbitdaActual).Or(0.0)
              == v(DebtBalance).Or(0.0) - v(CashBalance).Or(0.0)
    ensures MetricValue(CovenantHeadroom, v, days).Some? ==>
              && MetricValue(NetDebtToEbitda, v, days).Some?
              && MetricValue(CovenantHeadroom, v, days).value + MetricValue(NetDebtToEbitda, v, days).value
                 == v(CovenantMaxLeverage).Or(0.0)
  {
    if LeverageOf(v).Some? {
      LeverageEquation(Difference(v(DebtBalance), v(CashBalance)), v(EbitdaActual));
    }
  }

  /** The documented components of a metric are its inputs, and net debt where it is made of debt and cash. */
  lemma DocumentedExactly(m: Metric, c: Component)
    ensures c in ComponentAliases(m) <==>
            c in Inputs(m) || (c == NetDebt && DebtBalance in Inputs(m) && CashBalance in Inputs(m))
  {
  }
}

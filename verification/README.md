# StrategyOS kernels, verified

A Dafny model of the deterministic kernels of StrategyOS: the period and consolidation engine of the
Oracle finance pilot, the ledgers that must balance, the state machines whose transactions interleave,
and the small tree and string algorithms that guard citations and numbers. Every file is one module;
`dafny verify dfyconfig.toml` checks the whole project.

| module | models |
|---|---|
| `Calendar`, `Periods` | civil dates as day numbers, ISO week dates, period keys and the windows they name |
| `OracleFinance`, `Conversions`, `MetricFormulas`, `DuplicatePayments` | fact selection, currency and intercompany elimination, balances and flows, quarter roll-up, the metric formulas and their lineage, the duplicate-payment detector |
| `RecoveryLedger`, `InvoiceReconciliation` | receipts against reversals, invoice headers against lines |
| `InferenceAudit`, `InferenceRuns`, `LateAdmission` | two-phase budget reservations under an advisory lock, over all interleavings |
| `DecisionLog` | the append-only decision log, its fold into records and the velocity summary |
| `AuthorityMatrix` | normalization and optimistic saves with an audit log, to the database and to a file |
| `LoginLimiter` | the sliding-window login limiter |
| `PublicLocator`, `RecordSearch` | the locator parser and the bounded record search over JSON trees |
| `ClaimContracts`, `ApprovedEvidence` | acceptance of numerical claims, and the evidence they are checked against |
| `KnowledgeGraph` | the in-memory graph and its entity-resolution edges |
| `Sums`, `Seqs`, `Sorting`, `Strings`, `Numerals`, `Json`, `Options` | shared vocabulary: sums and selections that forget order, sorting, numerals, JSON |

Conventions. `Decimal` and `float` amounts are exact rationals (`real`); `None` is an `Option`; an
exception is a value of the result type or `None`, and leaves the state unchanged. A Postgres
transaction is one atomic step, and `now()` in it is the time the transaction started, which need not
follow lock order. Identifiers that the code only compares are natural numbers. A loop of the source
is a loop here, tied by its invariants to a function of its input, and the laws are proved about that
function; an object or table that the source updates is a class. Where a lemma talks about a run, the
run is an arbitrary sequence of steps of arbitrarily many clients.

Where the code falls short of what one would expect, the model follows the code and states exactly when:

- Period keys do not resolve back to their window for the week of 9999-12-27, and monthly and quarterly keys
  do not for years below 1000, which are printed without leading zeros and read back at a fixed width
  (`Periods.KeyResolvesToSpan`, `LastWeekRaises`); normalizing a monthly key loses such a year too
  (`NormalizingKeepsTheMonth`).
- A negative index below the length of the list it meets raises instead of giving None
  (`PublicLocator.RaisesExactly`, `NegativeIndexRaises`).
- A transaction that waits too long for the admission lock can exceed its day's quota, because a later admission
  has already purged the reservation it should have seen. A bound on the wait keeps every history within every
  limit if and only if it is at most 29 days and a microsecond (`LateAdmission.LagBoundIsExact`).
- Vendor id, vendor name and invoice of the duplicate-payment findings are the same for every order of the facts if
  and only if the legs of each reported group spell them alike (`DuplicatePayments.NamesForgetOrder`,
  `NameDependsOnOrder`). Their identifiers tell them apart if and only if no two repeated groups have first legs whose
  vendor and invoice texts are the same or can be confused at a colon (`IdsDifferExactly`). Two amounts of one invoice,
  two vendors without an id, or a colon in a vendor id make them collide (`AmountsCollide`, `UnknownVendorsCollide`,
  `ColonsCollide`).
- Normalizing an authority matrix is idempotent except for a document all of whose domains are unknown: it is
  stored without domains and read back with all of them (`AuthorityMatrix.NormalizeTwice`,
  `UnknownDomainsAreWidened`).
- The SAME edges, with identity, are transitive if and only if, for every vendor with two values, any holder of the one
  and any holder of the other share a value (`KnowledgeGraph.TransitiveExactly`); a vendor with two master rows can break that
  (`TwoRowsBreakTransitivity`).
- A rounding of a rounding need not be a rounding of the original figure. It is one if and only if it stays within
  half a percent of it and, at a coarser quantum, the intermediate figure was no tie or had not been rounded away
  from zero; at a finer quantum, if the intermediate figure is nearest there too (`ClaimContracts.ChainsExactly`,
  `SupportIsNotTransitive`).

## Model

| member | source | states |
|---|---|---|
| `Calendar.CivilOfOrdinal` | strategyos_mvp/oracle_finance.py:2009-2031 | The civil date of the day number of a civil date is that date: with `CivilOf`'s own contract, day numbers and valid civil dates correspond one to one, which is what lets windows be intervals of day numbers. |
| `Calendar.DaysBeforeYearClosed` | strategyos_mvp/oracle_finance.py:2009-2031 | The recursive count of days before a year equals the leap-year closed form datetime uses. |
| `Calendar.IsoYearBracketsWeek` | strategyos_mvp/oracle_finance.py:2009-2031 | A week belongs to the ISO year whose first Monday is the last one not after it, so week numbers run from 1 to 53. |
| `Calendar.IsoWeekFollowsThursday` | strategyos_mvp/oracle_finance.py:2009-2031 | Section 4.1.4 of ISO 8601:2004: the ISO year of a date is the calendar year of its week's Thursday, and the week number counts Thursdays of that year. |
| `Periods.SpansPartition` | strategyos_mvp/oracle_finance.py:2336-2370 | For every cadence the spans partition the calendar: a date lies in its span, and two dates have the same span exactly when one lies in the other's. |
| `Periods.CadenceIsInferred` | strategyos_mvp/oracle_finance.py:2417-2424 | The cadence read off a derived key is the cadence it was derived for, for every date. |
| `Periods.KeyResolvesToSpan` | strategyos_mvp/oracle_finance.py:2336-2370 | The window resolved from a derived key is the day, ISO week, month or quarter of its date if and only if the year fills four digits (month, quarter) or the last day of the week exists (week); what happens otherwise is stated case by case. |
| `Periods.DailyKeyResolves` | strategyos_mvp/oracle_finance.py:2336-2370 | A daily key resolves to its one day, without exception. |
| `Periods.WeeklyKeyResolves` | strategyos_mvp/oracle_finance.py:2336-2370 | A weekly key resolves to Monday through Sunday of its ISO week when that Sunday is a date, and raises otherwise. |
| `Periods.MonthlyKeyResolves` | strategyos_mvp/oracle_finance.py:2336-2393 | A monthly key with a four-digit year resolves to the first through the last day of its month, leap years included. |
| `Periods.QuarterlyKeyResolves` | strategyos_mvp/oracle_finance.py:2336-2370 | A quarterly key with a four-digit year resolves to its three months. |
| `Periods.KeysTellSpansApart` | strategyos_mvp/oracle_finance.py:2009-2031 | Two dates share a key exactly when they share a span, for every cadence. |
| `Periods.DerivedKeysAreNormal` | strategyos_mvp/oracle_finance.py:2396-2404 | A derived monthly key is a fixed point of key normalization. |
| `Periods.LastWeekRaises` | strategyos_mvp/oracle_finance.py:2336-2370 | The weekly keys of the last five dates there are raise. |
| `Periods.GivenBounds` | strategyos_mvp/oracle_finance.py:2336-2370 | What a row's own dates do to the window of a derived key, for every key: two of them are the window; a start alone replaces the first day of a quarter and both of a day, never that of a week or month; an end alone replaces the last day, also where the key alone would raise for want of a Sunday. |
| `Periods.WeekTextExactly` | strategyos_mvp/oracle_finance.py:2349-2355 | Any text before and after -W resolves to Monday through Sunday of a week if and only if the two read as that Monday's ISO year and week; a window it gives always has seven days. |
| `Periods.IsoWeekExactly` | strategyos_mvp/oracle_finance.py:2351 | An ISO year and week name a Monday if and only if its ISO date is day 1 of that week, so week 53 of a short year and week 0 name none. |
| `Periods.MonthTextExactly` | strategyos_mvp/oracle_finance.py:2373-2393 | Four digits, a dash and two digits are read as a month if and only if that year and month exist. |
| `Periods.QuarterTextExactly` | strategyos_mvp/oracle_finance.py:2361-2368 | Four digits, -Q and a number resolve to the three months of that quarter if it exists, and raise otherwise. |
| `Periods.DateTextResolves` | strategyos_mvp/oracle_finance.py:2336-2370 | The text of a date resolves to that date by day and quarter, to its month by month, and by week to the seven days from today. |
| `Periods.PlainKeyResolves` | strategyos_mvp/oracle_finance.py:2336-2370 | A key without a dash stands for the row's start, or today, up to the row's end or that day (by week, six days on). |
| `Periods.NormalizingKeepsTheMonth` | strategyos_mvp/oracle_finance.py:2396-2404 | Normalizing a key keeps the month it names if and only if it names none or its year has four digits; a shorter year leaves a key that names no month. |
| `Periods.NormalizeTwice` | strategyos_mvp/oracle_finance.py:2396-2404 | Normalization is idempotent, for every key and cadence. |
| `Numerals.ReadIntExactly` | strategyos_mvp/oracle_finance.py:2373-2380 | A text is read as n if and only if, without surrounding space and one sign, it is digits with single underscores between them that stand for n in base ten. |
| `OracleFinance.EliminationIsSymmetric` | strategyos_mvp/oracle_finance.py:2089-2102 | If one flagged side of an elimination reference reports zero, every flagged fact of that reference does. |
| `OracleFinance.EliminationIsNeutral` | strategyos_mvp/oracle_finance.py:2089-2102 | Over any facts in the reporting currency that hold both validly matched, flagged sides of every reference, the sum of reporting amounts is the sum of raw amounts. |
| `OracleFinance.LatestMetric` | strategyos_mvp/oracle_finance.py:2140-2177 | A balance is unavailable exactly when no fact matches, a grain has several facts at its latest date or a selected fact does not convert; otherwise it is the sum over grains of each grain's one latest fact. |
| `OracleFinance.Consolidate` | strategyos_mvp/oracle_finance.py:2160-2177 | The loop over the groups computes that consolidation whatever the order of the groups, though it gives up at the first ambiguous one. |
| `OracleFinance.ConsolidationForgetsOrder` | strategyos_mvp/oracle_finance.py:2140-2177 | Consolidating a permutation of the facts gives the same balance. |
| `OracleFinance.LatestForgetsOrder` | strategyos_mvp/oracle_finance.py:2140-2177 | The balance KPI, selection, elimination and conversion included, is the same for every order of the snapshot's facts. |
| `OracleFinance.SumForgetsOrder` | strategyos_mvp/oracle_finance.py:2116-2137 | So is every flow KPI. |
| `OracleFinance.MonthReadsItsKey` | strategyos_mvp/oracle_finance.py:2180-2220 | When all facts that can match a quarter or its months are monthly, well keyed and cover full months, a month of the quarter reads exactly the monthly facts under its own key. |
| `OracleFinance.QuarterReadsItsMonths` | strategyos_mvp/oracle_finance.py:2180-2220 | Under the same condition the quarter reads exactly the monthly facts of its three months. |
| `OracleFinance.QuarterRollsUp` | strategyos_mvp/oracle_finance.py:2116-2137 | Under the same condition, whatever else the snapshot holds, the quarterly sum is the sum of its three monthly sums, an empty month counting as zero; one unconvertible fact makes its month and the quarter unavailable. |
| `Conversions.ForeignWorth` | strategyos_mvp/oracle_finance.py:2103-2113 | An unflagged foreign fact is worth v if and only if its rate date, or the last day of its window when it names none, has exactly one rate with its two currencies and a positive value in the snapshot, and v is its amount times that value. |
| `Conversions.FlaggedWorth` | strategyos_mvp/oracle_finance.py:2092-2100 | A flagged fact is worth zero if and only if it has an amount and exactly two facts carry its reference, in its currency and one window, with amounts that cancel; else it is worth nothing known. |
| `Conversions.RatesMatterExactly` | strategyos_mvp/oracle_finance.py:2089-2113 | The worth of a fact is the same for all rates if and only if it has no amount, is flagged, is in the reporting currency, or names no day (a malformed date, or none and a window that raises); in the reporting currency it is the amount, and without a day it is unavailable. |
| `Conversions.ScaledWorth` | strategyos_mvp/oracle_finance.py:2108-2113 | Multiplying every rate of a currency by k multiplies what its unflagged foreign facts are worth by k, and changes no other worth. |
| `Conversions.ScaledSum` | strategyos_mvp/oracle_finance.py:2116-2137 | A flow then rises by (k - 1) times what each of its foreign facts in that currency contributes, and is available as before. |
| `Conversions.ScaledLatest` | strategyos_mvp/oracle_finance.py:2140-2177 | So does a balance, by what the latest fact of each grain contributes. |
| `Conversions.ReadExactly` | strategyos_mvp/oracle_finance.py:2180-2220 | What a query reads: each fact of its types under its key at its cadence if there is one, else each whose window lies in the period, a flow preferring those of its own cadence; every one as often as the snapshot holds it. |
| `Conversions.LatestOfGrain` | strategyos_mvp/oracle_finance.py:2160-2174 | A grain contributes the worth of the one fact whose window ends after those of all its others, and makes the balance unavailable when there is none such or it has no worth. |
| `Conversions.LatestAvailable` | strategyos_mvp/oracle_finance.py:2156-2177 | A balance is available if and only if something is read and every grain read has its one latest fact, with a worth. |
| `Conversions.SumAvailable` | strategyos_mvp/oracle_finance.py:2134-2137 | A flow is available if and only if something is read and every fact read has a worth. |
| `Conversions.WindowExactly` | strategyos_mvp/oracle_finance.py:2213-2220 | A fact is bounded by the first period of the snapshot with its key and cadence where that has both bounds, and by the rules of its key alone where there is no such period. |
| `Conversions.ComponentsRead` | strategyos_mvp/oracle_finance.py:516-590 | Cash, receivables, payables, inventory and debt are read as balances, every other component as a flow, of exactly its read facts. |
| `OracleFinance.TablesAgree` | strategyos_mvp/oracle_finance.py:661-710 | The fact types a component is read with are among the fact types its lineage is looked up with, although the two tables are written separately. |
| `OracleFinance.ReadIsCited` | strategyos_mvp/oracle_finance.py:2553-2587 | A fact that can enter a component is among the facts cited for it, although reading prefers the exact cadence and citing does not. |
| `OracleFinance.InputsAreDocumented` | strategyos_mvp/oracle_finance.py:2523-2550 | Every component a metric's formula uses is among its documented components. |
| `OracleFinance.AddCitations` | strategyos_mvp/oracle_finance.py:2553-2587 | The inner loop keeps what was cited, adds every wanted natural key and cites each key once. |
| `OracleFinance.MetricSourceFacts` | strategyos_mvp/oracle_finance.py:2553-2587 | The lineage holds each natural key once, only facts cited for a documented component, and all of their keys. |
| `OracleFinance.LineageIsComplete` | strategyos_mvp/oracle_finance.py:516-591 | For each KPI metric, every fact whose amount can enter one of its components has its natural key in the metric's source facts. |
| `MetricFormulas.InputsExactly` | strategyos_mvp/oracle_finance.py:661-680 | The inputs of a formula are exactly the components some change of which alone changes the metric. |
| `MetricFormulas.AvailableExactly` | strategyos_mvp/oracle_finance.py:2284-2325 | A metric is available if and only if all its inputs are, none it divides by is zero, and for leverage and its covenant the earnings are at least a hundredth. |
| `MetricFormulas.PercentagesAreShares` | strategyos_mvp/oracle_finance.py:2284-2294 | A percentage times its denominator is a hundred times its numerator. |
| `MetricFormulas.DaysAreRatios` | strategyos_mvp/oracle_finance.py:2311-2315 | Days of sales, purchases and stock times the flow are the balance times the days of the period. |
| `MetricFormulas.CashCycleAddsUp` | strategyos_mvp/oracle_finance.py:2318-2325 | The cash cycle and the days of purchases add up to the days of sales and of stock. |
| `MetricFormulas.HeadroomsAddUp` | strategyos_mvp/oracle_finance.py:2297-2308 | Floor and headroom make the cash; leverage times earnings makes debt less cash; leverage and covenant headroom make the covenant's limit. |
| `MetricFormulas.DocumentedExactly` | strategyos_mvp/oracle_finance.py:2523-2550 | The documented components of a metric are exactly its inputs, and net debt where debt and cash are. |
| `DuplicatePayments.GroupExcess` | strategyos_mvp/oracle_finance.py:1204-1260 | In a group of equal amounts, sum less maximum is (legs - 1) times the amount. |
| `DuplicatePayments.Detect` | strategyos_mvp/oracle_finance.py:1204-1260 | The detector reports exactly the keys with several eligible legs and a positive surplus, each once and in the order of their first legs, with vendor id, vendor name and invoice of its first leg, its evidence drawn from its legs, claiming (legs - 1) times the amount. |
| `DuplicatePayments.FindingGathers` | strategyos_mvp/oracle_finance.py:1206-1218 | The legs of a finding are exactly the eligible payments with the letters and digits, case apart, of its first leg's vendor (id, else name) and invoice, its amount and its currency. |
| `DuplicatePayments.FindingPrints` | strategyos_mvp/oracle_finance.py:1227-1231 | A finding prints its first leg's vendor id, else supplier key, else unknown; its vendor name, else Unknown vendor; and its invoice number, else its reference. |
| `DuplicatePayments.FindingsAreInOrder` | strategyos_mvp/oracle_finance.py:1204-1222 | Of two findings, the first leg of the earlier one comes before every leg of the later one. |
| `DuplicatePayments.RecoverableIsTheSurplus` | strategyos_mvp/oracle_finance.py:1204-1260 | Over positive eligible payments, the recoverable total of the findings is everything paid less one payment per distinct (vendor, invoice, amount, currency). |
| `DuplicatePayments.ClaimsForgetOrder` | strategyos_mvp/oracle_finance.py:1204-1260 | Which keys are reported and what each claims is the same for every order of the facts. |
| `DuplicatePayments.NamesForgetOrder` | strategyos_mvp/oracle_finance.py:1227-1231 | Over the whole list of facts: the findings bear the same vendor id, vendor name and invoice for every order if and only if the legs of each reported group spell them alike. |
| `DuplicatePayments.NameDependsOnOrder` | strategyos_mvp/oracle_finance.py:1204-1260 | Two spellings of one vendor in one group give two names in two orders. |
| `DuplicatePayments.SameIdExactly` | strategyos_mvp/oracle_finance.py:1227-1233 | Two findings share their identifier exactly when they print the same vendor and invoice texts, or the longer vendor text is the shorter one, a colon and the beginning of the other's invoice text. |
| `DuplicatePayments.IdsDifferExactly` | strategyos_mvp/oracle_finance.py:1204-1260 | For every list of facts: findings of different keys have different identifiers if and only if no two repeated groups have first legs whose vendor and invoice texts coincide in that way. |
| `DuplicatePayments.AmountsCollide` | strategyos_mvp/oracle_finance.py:1227-1233 | Two amounts of one vendor and invoice give two findings with one identifier. |
| `DuplicatePayments.UnknownVendorsCollide` | strategyos_mvp/oracle_finance.py:1227-1233 | So do two vendors without an id whose payments agree otherwise. |
| `DuplicatePayments.ColonsCollide` | strategyos_mvp/oracle_finance.py:1227-1233 | So do two vendors and two invoices when the vendor id of one holds a colon. |
| `RecoveryLedger.SilentWhenSound` | strategyos_mvp/recovery_ledger.py:8-28 | The validating pass raises nothing exactly when equal ids carry equal events and every event is individually sound. |
| `RecoveryLedger.SeenAreFirsts` | strategyos_mvp/recovery_ledger.py:11-15 | What is remembered under an id is the first event of the stream that carries it. |
| `RecoveryLedger.ConflictsAreReported` | strategyos_mvp/recovery_ledger.py:12-15 | A conflict is reported for an id exactly when two different events carry it. |
| `RecoveryLedger.ObjectionsAreReported` | strategyos_mvp/recovery_ledger.py:16-28 | Every other complaint is the first objection to the first event of its id, and all of those are reported. |
| `RecoveryLedger.ComplaintsExactly` | strategyos_mvp/recovery_ledger.py:17-30 | Which complaint an identifier gets from the first event that carries it: the first of amount, scope, evidence and kind that fails. |
| `RecoveryLedger.CitedExactly` | strategyos_mvp/recovery_ledger.py:17-30 | What is cited, also when review is needed: the first events whose amount, scope and evidence pass, of whatever kind. |
| `RecoveryLedger.SettlesWhenAffordable` | strategyos_mvp/recovery_ledger.py:29-33 | The greedy reversal pass refuses nothing exactly when every reversal names a receipt of its case and each receipt's reversals sum to at most its amount, whatever their order; then each receipt is lowered by its reversals. |
| `RecoveryLedger.SilentWhenBalanced` | strategyos_mvp/recovery_ledger.py:8-35 | Both passes are silent exactly when the set of events balances. |
| `RecoveryLedger.CaseBalanceIsOutstanding` | strategyos_mvp/recovery_ledger.py:36-37 | What remains on the receipts of a case is its receipts less its reversals over unique events. |
| `RecoveryLedger.CaseBalancesAddUp` | strategyos_mvp/recovery_ledger.py:36-41 | The case balances add up to all receipts less all reversals. |
| `RecoveryLedger.Reconcile` | strategyos_mvp/recovery_ledger.py:8-42 | The whole loop: "reconciled" if and only if the set of events balances, then the recovered total, the totals by case and the unique count in terms of that set; else which complaints are raised. |
| `RecoveryLedger.ReorderedOrReplayed` | strategyos_mvp/recovery_ledger.py:8-42 | Any reordering with any exact replays has the same set of events, hence the same verdict and totals. |
| `InvoiceReconciliation.Reconcile` | strategyos_mvp/invoice_reconciliation.py:7-29 | A report is given exactly when every header and line is identified once and all money is finite, else the first offending row's error; the report lists exactly the invoices off by more than 0.01 in order of difference, and the sorted missing and orphan ids. |
| `InvoiceReconciliation.HeaderBlame` | strategyos_mvp/invoice_reconciliation.py:9-13 | The error of the first header that is not accepted: its id when missing, empty or used before, else its money. |
| `InvoiceReconciliation.LineBlame` | strategyos_mvp/invoice_reconciliation.py:14-22 | The error of the first line that is not accepted: a missing invoice or number, both used before together, else its money. |
| `InvoiceReconciliation.MismatchesTell` | strategyos_mvp/invoice_reconciliation.py:23-25 | A mismatch is an invoice with a header and lines whose lines sum to more than 0.01 above or below the header; it shows both amounts and lines less header. |
| `InvoiceReconciliation.MismatchesInOrder` | strategyos_mvp/invoice_reconciliation.py:26 | The mismatches come by the size of the difference, largest first, and equal ones by invoice id. |
| `InvoiceReconciliation.ReadHeaders` | strategyos_mvp/invoice_reconciliation.py:8-13 | The loop accepts exactly valid headers, blames the first that is not, and yields each header's amount. |
| `InvoiceReconciliation.ReadLines` | strategyos_mvp/invoice_reconciliation.py:14-22 | The loop accepts exactly valid lines and yields per invoice the sum of its lines. |
| `InvoiceReconciliation.SortedIds` | strategyos_mvp/invoice_reconciliation.py:28-29 | A set of ids becomes the one ascending list of them, however the set is visited. |
| `InvoiceReconciliation.CoverageAddsUp` | strategyos_mvp/invoice_reconciliation.py:27-29 | Covered and missing ids partition the headers, covered and orphan ids the lines. |
| `InvoiceReconciliation.ReconciliationBalances` | strategyos_mvp/invoice_reconciliation.py:22-26 | The sum of lines differs from covered headers plus orphan totals plus listed differences by at most 0.01 for each covered invoice that is not listed. |
| `InvoiceReconciliation.VerdictForgetsOrder` | strategyos_mvp/invoice_reconciliation.py:7-21 | Whether a report is given does not depend on the order of the rows. |
| `InvoiceReconciliation.ReportForgetsOrder` | strategyos_mvp/invoice_reconciliation.py:23-29 | The whole report, lists in their order included, is the same for every order of headers and lines. |
| `InferenceAudit.AuditStore.Admit` | strategyos_mvp/inference_audit.py:65-83 | The admission transaction purges, forgets expired payloads, and reserves the units exactly when request count and units of the day allow it, else records a blocked row of zero units. |
| `InferenceAudit.AuditStore.Usage` | strategyos_mvp/inference_audit.py:75-77 | The tenant's rows and units counted from the start of the transaction's UTC day. |
| `InferenceAudit.AuditStore.Finish` | strategyos_mvp/inference_audit.py:86-100 | The finish update touches only the status and response of the tenant's own row, if it is still there. |
| `InferenceAudit.BudgetIsOfTheDay` | strategyos_mvp/inference_audit.py:75 | A row counts against a budget if and only if it is the tenant's and of the transaction's UTC day or a later one. |
| `InferenceAudit.AdmittedExactly` | strategyos_mvp/inference_audit.py:73-76 | With no later row of its tenant, a call is admitted if and only if the tenant's rows of its UTC day are fewer than the request limit and their units and its own fit the quota. |
| `InferenceAudit.PayloadsLastAWeek` | strategyos_mvp/inference_audit.py:73-82 | An admission erases exactly the payloads created more than a week before it and drops exactly the rows older than 30 days; a new row holds a prompt only if it was admitted and sealed. |
| `InferenceAudit.FinishWritesOutcome` | strategyos_mvp/inference_audit.py:97-100 | A finish sets completed or failed and the response of its own row, and nothing else in the table. |
| `InferenceAudit.FinishKeepsReservations` | strategyos_mvp/inference_audit.py:86-100 | Finishing an admitted call changes no reservation of any tenant. |
| `InferenceAudit.ReserveKeepsLimits` | strategyos_mvp/inference_audit.py:75-77 | An admission that sees every reservation of its tenant's day keeps all days of all tenants within quota and request limit. |
| `InferenceAudit.AdmissionKeepsLimits` | strategyos_mvp/inference_audit.py:65-83 | Whatever the order of start times and locks, an admission keeps the table's reservations within the limits on every day. |
| `InferenceRuns.RunKeepsInvariant` | strategyos_mvp/inference_audit.py:49-100 | Every reachable state keeps the invariant that ties rows, calls, reservations and provider calls together. |
| `InferenceRuns.BudgetsHold` | strategyos_mvp/inference_audit.py:49-100 | Over every interleaving, audit required or not: reserved units and admitted rows of any tenant and day stay within the limits, blocked rows hold zero units and their calls never reach the provider, and a call that reaches it was admitted if and only if it did not bypass the audit, which happens only when none is required and the caller is unscoped or the store is down. |
| `InferenceRuns.EntryExactly` | strategyos_mvp/inference_audit.py:51-62 | Which calls are refused, bypass the audit, or are audited with the prompt sealed or not, by scope, key, store and whether an audit is required. |
| `InferenceRuns.CallsWereBegun` | strategyos_mvp/inference_audit.py:63-83 | In every run each call stems from one begin step, and what it reserved is its own tenant, the time it began and one unit per character of the prompt plus four per token of output. |
| `InferenceRuns.ProvidedExactly` | strategyos_mvp/inference_audit.py:84-88 | The provider calls of a run are exactly the cleared calls that were handed over. |
| `InferenceRuns.UnderWayExactly` | strategyos_mvp/inference_audit.py:85-100 | A call is under way exactly from its provide step to its finish step. |
| `InferenceRuns.ProvidedOnce` | strategyos_mvp/inference_audit.py:84-88 | No call reaches the provider twice. |
| `InferenceRuns.OutcomeIsRecorded` | strategyos_mvp/inference_audit.py:89-100 | In every run, finishing a call under way records its outcome in its own row when the store is up, and changes no other row. |
| `InferenceRuns.HistoryWithinLimits` | strategyos_mvp/inference_audit.py:65-83 | When no admission waits longer for the lock than 29 days and a microsecond, the limits hold for everything ever reserved, purged rows included. |
| `LateAdmission.LateAdmissionExceedsQuota` | strategyos_mvp/inference_audit.py:74-77 | For any longer bound there is a run within it whose history exceeds a quota. |
| `LateAdmission.LagBoundIsExact` | strategyos_mvp/inference_audit.py:65-83 | All runs that keep a bound on the wait keep their history within all limits if and only if the bound is at most 29 days and a microsecond. |
| `DecisionLog.DecisionStore.Append` | strategyos_mvp/decision_lifecycle.py:32-59 | An event is appended exactly when no precondition objects; a repeated request returns the recorded event, and a refusal changes nothing. |
| `DecisionLog.ReplayExactly` | strategyos_mvp/decision_lifecycle.py:43-46 | A complete request is a replay if and only if the log holds an event of its decision and kind with an equal payload, and a conflict if and only if it holds one with another payload. |
| `DecisionLog.RecordedExactly` | strategyos_mvp/decision_lifecycle.py:32-55 | A request is recorded if and only if it is complete, no event of its decision and kind is in the log, the log justifies its event and its effect key is new in its decision. |
| `DecisionLog.RefusedExactly` | strategyos_mvp/decision_lifecycle.py:47-53 | Why a request that nothing answers yet is refused: incomplete, not surfaced, not approved or without evidence, each in terms of the log. |
| `DecisionLog.RecordedTells` | strategyos_mvp/decision_lifecycle.py:54-59 | What is recorded is what was requested, at the end of the log under the number and time drawn. |
| `DecisionLog.RepeatsReplay` | strategyos_mvp/decision_lifecycle.py:43-46 | On every run: once a request is recorded, repeating it replays and leaves the log alone however much later, and another payload for its decision and kind conflicts. |
| `DecisionLog.AppendKeepsWellFormed` | strategyos_mvp/decision_lifecycle.py:32-59 | An append keeps at most one event per decision and kind, ids increasing, and every event justified by an earlier one. |
| `DecisionLog.ReachableLogs` | strategyos_mvp/decision_lifecycle.py:32-59 | Every log reachable by appends with increasing ids is well formed. |
| `DecisionLog.LogsOnlyGrow` | strategyos_mvp/decision_lifecycle.py:32-59 | No recorded event ever changes: an earlier log is a prefix of every later one. |
| `DecisionLog.EventsFollowTheirCause` | strategyos_mvp/decision_lifecycle.py:40-52 | In a well-formed log a decision follows its surfacing in id order, and a verified action follows an approval and carries evidence. |
| `DecisionLog.Read` | strategyos_mvp/decision_lifecycle.py:62-84 | The fold over the time-sorted events yields one record per decision, in order of first appearance. |
| `DecisionLog.RecordTellsLog` | strategyos_mvp/decision_lifecycle.py:62-84 | The record of a decision says exactly what the log holds of it: its times, title, choice, owner and whether an action was verified. |
| `DecisionLog.RecordListsEvents` | strategyos_mvp/decision_lifecycle.py:62-84 | The event ids of a record are those of the decision's events in the log, each once, by time and then id. |
| `DecisionLog.Summarize` | strategyos_mvp/decision_velocity.py:16-46 | The loop sorts every record into samples, pending and invalid, in order. |
| `DecisionLog.SummaryOfLog` | strategyos_mvp/decision_velocity.py:16-46 | Read then summarized, a well-formed log lists a decision as invalid exactly when its times are out of order, and as pending exactly when it is open and not invalid. |
| `DecisionLog.PendingEntries` | strategyos_mvp/decision_velocity.py:16-46 | Each decision is listed as pending at most once, and its entry gives the state, age and event ids that the log has for it. |
| `DecisionLog.ChronologyOfOrderedLog` | strategyos_mvp/decision_velocity.py:16-46 | If times do not decrease along ids, nothing is invalid and the pending list is exactly the non-declined decisions without a verified action. |
| `LoginLimiter.Limiter.Enforce` | strategyos_mvp/idp.py:171-183 | An attempt is accepted exactly when fewer than ten lie in the window; the stored list is the pruned one, with the attempt if accepted, and other clients' lists are untouched. |
| `LoginLimiter.RecentIsAcceptedHistory` | strategyos_mvp/idp.py:171-183 | Under a non-decreasing clock the pruned list is exactly the accepted history inside the current window. |
| `LoginLimiter.AcceptedExactly` | strategyos_mvp/idp.py:171-183 | A call is accepted exactly when the closed minute up to it holds fewer than ten accepted ones. |
| `LoginLimiter.AtMostTenPerMinute` | strategyos_mvp/idp.py:171-183 | Every closed 60-second interval, wherever it starts, holds at most ten accepted attempts of a client. |
| `LoginLimiter.ClientsAreIndependent` | strategyos_mvp/idp.py:171-183 | Dropping all calls of other clients changes nothing for a client. |
| `PublicLocator.Resolve` | strategyos_mvp/llm_qa.py:2108-2144 | The nested loops compute the parser's meaning, exceptions included. |
| `PublicLocator.PartOfBrackets` | strategyos_mvp/llm_qa.py:2119-2143 | A segment made of a key and bracketed indices is read as that key and those indices, in order. |
| `PublicLocator.ResolvePrinted` | strategyos_mvp/llm_qa.py:2108-2144 | For every JSON tree and every path of plain keys and integer indices, resolving the printed locator is walking the path. |
| `PublicLocator.LocatorForms` | strategyos_mvp/llm_qa.py:2109-2115 | No locator gives None and the packet's name the packet; a path is walked without the prefix as with it, unless it reads as one of those. |
| `PublicLocator.UnclosedIsNone` | strategyos_mvp/llm_qa.py:2131-2133 | A bracket that is not closed gives None. |
| `PublicLocator.NoIntegerIsNone` | strategyos_mvp/llm_qa.py:2134-2137 | A bracket that holds no integer gives None, whatever follows. |
| `PublicLocator.NaturalIndicesNeverRaise` | strategyos_mvp/llm_qa.py:2108-2144 | With natural-number indices nothing raises: missing keys and out-of-range indices give None. |
| `PublicLocator.RaisesExactly` | strategyos_mvp/llm_qa.py:2108-2144 | A path raises if and only if one of its indices falls below the negative length of the list it meets. |
| `PublicLocator.NegativeIndexRaises` | strategyos_mvp/llm_qa.py:2108-2144 | The locator `a[-1]` raises on an empty list. |
| `RecordSearch.ResolveRecord` | strategyos_mvp/citation_resolver.py:217-251 | A record is returned exactly when the locator is well formed, the file resolves, at most 10000 paths lead to the root, an object or a list, none of them longer than 30, and exactly one path leads to an object that carries the locator in an id field; that object is returned. |
| `RecordSearch.ListPaths` | strategyos_mvp/citation_resolver.py:229-245 | The survey of a tree, told from its paths: its nodes are the root and the paths that lead to an object or a list, its height is the longest of them, and a carrier is matched as often as paths lead to it. |
| `RecordSearch.UniqueExactly` | strategyos_mvp/citation_resolver.py:229-247 | A tree fits if and only if none of those paths is longer than 30, no more than 10000 of them are distinct, and exactly one path leads to a carrier. |
| `RecordSearch.LocatorsExactly` | strategyos_mvp/citation_resolver.py:219 | A locator is a letter or digit and at most 159 letters, digits, underscores, dots, colons and hyphens. |
| `RecordSearch.CarriesExactly` | strategyos_mvp/citation_resolver.py:239 | An object carries a locator in an entry named id or ending in _id whose value is that text. |
| `RecordSearch.Search` | strategyos_mvp/citation_resolver.py:229-251 | The worklist loop equals the recursive survey of the tree and terminates on the size of the pending trees. |
| `RecordSearch.SurveyIsRootAndKids` | strategyos_mvp/citation_resolver.py:229-251 | The survey of a tree is its root and the surveys of the values the loop descends into. |
| `AuthorityMatrix.NormalizeDocument` | strategyos_mvp/authority_matrix.py:70-99 | The loop over the subjects keeps the first of each cleaned id, in order, and raises at the first invalid right of a kept subject or when none is kept. |
| `AuthorityMatrix.NormalizeExactly` | strategyos_mvp/authority_matrix.py:70-99 | Normalizing raises if and only if no entry is kept or a kept one holds an unknown right for a domain of the document; else the subjects are the first entries of each clean id with a colon, in order, with their texts or defaults and a right for every domain, none where the entry names none. |
| `AuthorityMatrix.NormalizeMakesNormal` | strategyos_mvp/authority_matrix.py:70-99 | A normalized document has subjects with clean ids, each once, and a right for exactly its domains. |
| `AuthorityMatrix.NormalIsReadBack` | strategyos_mvp/authority_matrix.py:106-112 | A normalized document never raises when read back, and comes back unchanged unless it has no domains. |
| `AuthorityMatrix.NormalizeTwice` | strategyos_mvp/authority_matrix.py:70-99 | Normalizing twice is normalizing once if and only if the document names a known domain or none at all. |
| `AuthorityMatrix.UnknownDomainsAreWidened` | strategyos_mvp/authority_matrix.py:73 | A document whose one domain is unknown normalizes, but not to itself the second time. |
| `AuthorityMatrix.MatrixTable.Prepare` | strategyos_mvp/authority_matrix.py:169-176 | The read, the expected-version check, normalization and stamping before the transaction. |
| `AuthorityMatrix.PreparedWrites` | strategyos_mvp/authority_matrix.py:169-176 | A save is prepared if and only if the matrix reads, the expected version is absent or current, and the document normalizes; it will write that document under the next version, dated and signed. |
| `AuthorityMatrix.CurrentShows` | strategyos_mvp/authority_matrix.py:150-166 | What is read back of a row is its document under the version, date and signature of the row. |
| `AuthorityMatrix.PreparedReads` | strategyos_mvp/authority_matrix.py:169-176 | A prepared save has read what the commits so far left, will write a normal document of the next version, and meets the version it expected. |
| `AuthorityMatrix.MatrixTable.Commit` | strategyos_mvp/authority_matrix.py:177-200 | The transaction stores row and audit entry exactly when no row exists or its version is the one read, else changes nothing. |
| `AuthorityMatrix.RunIsConsistent` | strategyos_mvp/authority_matrix.py:150-205 | Over every interleaving of clients, each commit was computed from exactly what the commits before it left, and the audit log is that history. |
| `AuthorityMatrix.VersionsAreConsecutive` | strategyos_mvp/authority_matrix.py:169-205 | Committed versions are consecutive, the stored document is the last audit entry, and a save that named a version replaced exactly that one. |
| `AuthorityMatrix.StaleSavesChangeNothing` | strategyos_mvp/authority_matrix.py:180-193 | A save commits exactly when the matrix it read is still the current one, and otherwise changes nothing stored. |
| `AuthorityMatrix.AuditOnlyGrows` | strategyos_mvp/authority_matrix.py:194-198 | What is in the audit log stays there. |
| `AuthorityMatrix.MatrixFile.WriteFile` | strategyos_mvp/authority_matrix.py:115-147 | Under the file lock: a save succeeds exactly when the expected version matches and the document normalizes, then takes the next version and appends it to the log; otherwise nothing changes. |
| `ClaimContracts.UnsupportedQuantities` | strategyos_mvp/claim_contracts.py:73-95 | The loops report exactly the claims that are neither approved nor a display rounding, in their own text, of an approved amount. |
| `ClaimContracts.ClaimsSupported` | strategyos_mvp/claim_contracts.py:98-99 | Supported means that no claim is unsupported. |
| `ClaimContracts.UnitIsWritten` | strategyos_mvp/claim_contracts.py:50-60 | Unit by unit, the literals that carry it: percentage points and basis points by their suffix, then money by its currency, then percent, counts and plain numbers. |
| `ClaimContracts.ValueIsWritten` | strategyos_mvp/claim_contracts.py:51-55 | The value of a literal is its coefficient times ten to the power of its scale less its digits. |
| `ClaimContracts.OtherUnitsExactly` | strategyos_mvp/claim_contracts.py:73-95 | A claim that is no money amount is accepted if and only if an approved literal of the same unit and value or an approved table states it. |
| `ClaimContracts.RatiosStandAlone` | strategyos_mvp/claim_contracts.py:57-60 | Percent, percentage points and basis points never support each other. |
| `ClaimContracts.RoundHalfUpIsNearest` | strategyos_mvp/claim_contracts.py:92 | The rounding yields the nearest integer, and no other, a tie going away from zero. |
| `ClaimContracts.RoundsExactly` | strategyos_mvp/claim_contracts.py:81-94 | A literal is accepted for a fact if and only if currencies agree, the fact is not zero, the value is the multiple of the literal's quantum nearest to the fact with ties away from zero, and it is within half a percent. |
| `ClaimContracts.RoundedIsClose` | strategyos_mvp/claim_contracts.py:81-94 | An accepted rounding is within half a quantum and half a percent of the fact, of the same sign and currency. |
| `ClaimContracts.AcceptedClaims` | strategyos_mvp/claim_contracts.py:73-95 | Every accepted claim is an approved one or such a rounding of an approved amount by a literal of its own text. |
| `ClaimContracts.SupportIsMonotone` | strategyos_mvp/claim_contracts.py:73-99 | More evidence never makes a supported claim unsupported. |
| `ClaimContracts.TextSupportsItself` | strategyos_mvp/claim_contracts.py:73-99 | Every text supports itself. |
| `ClaimContracts.TextsAreJudgedAlone` | strategyos_mvp/claim_contracts.py:76-95 | A literal of one candidate text licenses no claim of another. |
| `ClaimContracts.ChainsExactly` | strategyos_mvp/claim_contracts.py:81-94 | For all literals and facts: a rounding of a rounding of a fact is accepted for the fact if and only if it stays within half a percent and, at a coarser quantum, the intermediate value was no tie or was not rounded away from zero, or, at a finer one, the intermediate value is nearest there too. |
| `ClaimContracts.SupportIsNotTransitive` | strategyos_mvp/claim_contracts.py:81-94 | 1.01M passes for 1005K and 1005K for 1004.5K, but not 1.01M for 1004.5K. |
| `ApprovedEvidence.Extract` | strategyos_mvp/claim_contracts.py:102-130 | The recursion that extends one list yields the evidence of a JSON value. |
| `ApprovedEvidence.EvidenceExactly` | strategyos_mvp/claim_contracts.py:102-130 | A line is evidence if and only if a text or number on a path through no excluded entry yields it, or an object on such a path types one of its numbers with it: percent by name, else SAR by name, else the currency of the object. |
| `ApprovedEvidence.ExcludedExactly` | strategyos_mvp/claim_contracts.py:104 | The excluded entries: the question, prompt, histories and contexts by name, case apart. |
| `ApprovedEvidence.PrunedEvidence` | strategyos_mvp/claim_contracts.py:102-130 | Removing questions, prompts, histories and contexts at every depth leaves the evidence as it was. |
| `ApprovedEvidence.QuestionsAreNoEvidence` | strategyos_mvp/claim_contracts.py:102-130 | Values that differ only in such entries yield the same evidence. |
| `ApprovedEvidence.OtherEntriesAreEvidence` | strategyos_mvp/claim_contracts.py:106-117 | What any other entry yields, and the typed line of a number in it, is evidence. |
| `KnowledgeGraph.StructuralGraph.AddNode` | strategyos_mvp/knowledge_graph.py:41-45 | A node is added without its empty properties, unless its id is taken. |
| `KnowledgeGraph.StructuralGraph.AddEdge` | strategyos_mvp/knowledge_graph.py:47-50 | An edge likewise, by source, target and label. |
| `KnowledgeGraph.Pairwise` | strategyos_mvp/knowledge_graph.py:256-261 | The nested loops pair each value with every later one and nothing else. |
| `KnowledgeGraph.StructuralGraph.EntityResolutionEdges` | strategyos_mvp/knowledge_graph.py:203-215 | Resolution leaves every node and edge unchanged and adds exactly the vendors and edges that rows sharing an identifier call for, in whatever order the groups come. |
| `KnowledgeGraph.EdgeIsLink` | strategyos_mvp/knowledge_graph.py:203-215 | A SAME edge comes from two rows that share the field, and carries the hash of the value they share. |
| `KnowledgeGraph.EdgesExactly` | strategyos_mvp/knowledge_graph.py:203-215 | Two nodes are joined exactly when two rows, one for each, share the field. |
| `KnowledgeGraph.SameEdgesExactly` | strategyos_mvp/knowledge_graph.py:203-215 | Distinct vendors are joined exactly when they hold the same value. |
| `KnowledgeGraph.TaxAndBankEdges` | strategyos_mvp/knowledge_graph.py:204-215 | Distinct vendors are joined by a tax edge exactly when two of their rows have one tax id, and by a bank edge exactly when two have one bank account. |
| `KnowledgeGraph.VendorNodesExactly` | strategyos_mvp/knowledge_graph.py:209-212 | Resolution adds a vendor node exactly for rows that share an identifier with another, with the id and name of such a row. |
| `KnowledgeGraph.NoSelfEdges` | strategyos_mvp/knowledge_graph.py:203-215 | With one master row per vendor no vendor is joined to itself. |
| `KnowledgeGraph.SameEntityIsSymmetric` | strategyos_mvp/knowledge_graph.py:213-215 | Being joined is symmetric. |
| `KnowledgeGraph.SameEntityIsTransitive` | strategyos_mvp/knowledge_graph.py:203-215 | Where the rows of each vendor agree, as they do with one row per vendor, joined or equal is transitive, hence an equivalence. |
| `KnowledgeGraph.TransitiveExactly` | strategyos_mvp/knowledge_graph.py:203-215 | Joined or equal is transitive if and only if, in the master, for every vendor that holds two different values, any holder of the one and any holder of the other are equal or share a value. |
| `KnowledgeGraph.OneRowMakesEquivalence` | strategyos_mvp/knowledge_graph.py:203-215 | With one master row per vendor joined or equal is an equivalence relation. |
| `KnowledgeGraph.TwoRowsBreakTransitivity` | strategyos_mvp/knowledge_graph.py:203-215 | A vendor with two rows of different tax ids joins two vendors that share nothing. |
| `KnowledgeGraph.ReplayChangesNothing` | strategyos_mvp/knowledge_graph.py:41-50 | Running resolution again changes neither a node nor an edge, also when the findings were added in between. |
| `KnowledgeGraph.StructuralGraph.AddFindings` | strategyos_mvp/knowledge_graph.py:218-239 | The finding layer adds exactly the nodes and edges of the findings. |
| `KnowledgeGraph.FindingLayerExactly` | strategyos_mvp/knowledge_graph.py:218-239 | After the finding layer the graph holds exactly what it held and, for each finding, its node, its vendors, its sources and the edges to them. |
| `KnowledgeGraph.FindingLayerTells` | strategyos_mvp/knowledge_graph.py:218-239 | A new node carries the finding's own properties, a vendor's id and name, or a source's path and digest; an edge to a source carries the citation's locator. |
| `KnowledgeGraph.FindingsLeaveStructure` | strategyos_mvp/knowledge_graph.py:218-239 | It leaves every node and edge as it was, and every edge it adds starts at a finding. |

## Left out

- Period keys and texts: month-name keys such as JAN-24 and other datetime texts, and which of a row's dates is taken; today is a parameter.
- Finance engine: a fact whose window would raise is treated as matching no period and as ending before every other, where the source raises; the 28-digit decimal context, the conversion to float at output, the lookup of manual inputs, KPI presentation and the detectors other than duplicate payments are not modelled.
- OracleFinance.QuarterRollsUp: the facts that can match are monthly with derived keys and full-month windows, because a quarter also reads facts of its own cadence, or days and weeks of its own, which no month reads.
- DuplicatePayments.RecoverableIsTheSurplus: conservation is per detector; the same payment may be found by another detector too.
- DuplicatePayments.Detect: equal evidence items are cited once by the source (oracle_finance.py:1891-1910); the model keeps the legs of a group with their multiplicity.
- RecoveryLedger.Reconcile: the error list is left unsorted, and which reversals are refused when several compete is not specified beyond the order of the loop.
- Files: path resolution and SHA-256 are a map from path to digest; AES-GCM seals and the effect-key hash are booleans and plain values.
- InferenceAudit: the columns for subject, provider, model, digests and duration; the schema lock; tokens of text are counted by their given length.
- DecisionLog: one tenant and run; the medians and rounded hours computed from the samples; authorization.
- AuthorityMatrix: one tenant and one backend; `authority_decision` and request classification; a crash between replacing the file and appending to its log; Unicode case and whitespace.
- LoginLimiter: how the client key is read from headers; token issue, expiry and logout.
- PublicLocator: the guards around the resolver and `int()` of non-ASCII digits.
- RecordSearch: the text excerpt cut from a record and the other locator kinds.
- ClaimContracts: the regular expressions that find literals and table headings; the model starts from the literals and the claims of the headings.
- ApprovedEvidence.PrunedEvidence: entries inside a value stored under `currency` are kept, because its whole text is used as the unit.
- ApprovedEvidence: the delta lines that a row's own headings type are a function of the row's text.
- KnowledgeGraph: evidence, purchase-order, invoice and contract nodes, which only add more nodes by the same two methods; splitting a finding's vendor text at slashes; JSON export.
- InvoiceReconciliation: finding and verifying the workbooks and wording the answer; rows without the required columns.
- FastAPI routes, identity provider pages, LLM transport, OCR, Postgres, Neo4j and Qdrant themselves, presentation and read models.

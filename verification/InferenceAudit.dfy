/**
 Inference budgets (strategyos_mvp/inference_audit.py): every audited call reserves its units in
 one transaction under an advisory lock, runs the provider only when admitted, and is finished by
 a second transaction.  A transaction's time is its start, so admissions can take the lock in
 another order than their times; rows older than 30 days are purged by every admission.
 */
module InferenceAudit {

  /** Microseconds since the epoch. */
  type Time = int

  const DAY: int := 86_400_000_000
  const RETENTION: int := 30 * DAY
  const PAYLOAD_LIFE: int := 7 * DAY

  function DayOf(t: Time): int { t / DAY }
  function StartOfDay(t: Time): Time { t / DAY * DAY }

  type Id = nat

  /** Tenants are only compared with each other. */
  type Tenant = nat

  /** What a purge may not change: who reserved how much, and when. */
  datatype Claim = Claim(tenant: Tenant, created: Time, units: nat)

  datatype Status = Started | Completed | Failed | BudgetBlocked

  datatype Row = Row(claim: Claim, status: Status, promptSealed: bool, responseSealed: bool, expires: Time)

  type Table = map<Id, Row>

  datatype Limits = Limits(quota: nat, requests: nat)

  // ----- Sums over rows -----

  ghost function Tally(ids: set<Id>, f: Id -> nat): nat {
    if ids == {} then 0 else var x :| x in ids; Tally(ids - {x}, f) + f(x)
  }

  lemma {:induction false} TallyWithout(ids: set<Id>, x: Id, f: Id -> nat)
    requires x in ids
    ensures Tally(ids, f) == Tally(ids - {x}, f) + f(x)
    decreases |ids|
  {
    var y :| y in ids && Tally(ids, f) == Tally(ids - {y}, f) + f(y);
    if y != x {
      TallyWithout(ids - {y}, x, f);
      TallyWithout(ids - {x}, y, f);
      assert ids - {y} - {x} == ids - {x} - {y};
    }
  }

  /** Every row that weighs something is among the others and weighs no less there. */
  lemma {:induction false} TallyCovered(ids: set<Id>, others: set<Id>, f: Id -> nat, g: Id -> nat)
    requires forall x :: x in ids && f(x) > 0 ==> x in others && f(x) <= g(x)
    ensures Tally(ids, f) <= Tally(others, g)
    decreases |ids|
  {
    if ids != {} {
      var x :| x in ids;
      TallyWithout(ids, x, f);
      if f(x) > 0 {
        TallyWithout(others, x, g);
        TallyCovered(ids - {x}, others - {x}, f, g);
      } else {
        TallyCovered(ids - {x}, others, f, g);
      }
    }
  }

  // ----- The admission transaction -----

  function Purged(rows: Table, now: Time): Table {
    map id | id in rows && rows[id].claim.created >= now - RETENTION :: rows[id]
  }

  function Forgotten(rows: Table, now: Time): Table {
    map id | id in rows ::
      if rows[id].expires < now then rows[id].(promptSealed := false, responseSealed := false) else rows[id]
  }

  /** The rows a budget check looks at: those of the tenant from the start of the transaction's day on. */
  predicate InBudget(c: Claim, tenant: Tenant, now: Time) {
    c.tenant == tenant && c.created >= StartOfDay(now)
  }

  function BudgetUnits(rows: Table, tenant: Tenant, now: Time): Id -> nat {
    (id: Id) => if id in rows && InBudget(rows[id].claim, tenant, now) then rows[id].claim.units else 0
  }

  function BudgetCount(rows: Table, tenant: Tenant, now: Time): Id -> nat {
    (id: Id) => if id in rows && InBudget(rows[id].claim, tenant, now) then 1 else 0
  }

  ghost predicate Allowed(rows: Table, limits: Limits, claim: Claim) {
    && Tally(rows.Keys, BudgetCount(rows, claim.tenant, claim.created)) < limits.requests
    && Tally(rows.Keys, BudgetUnits(rows, claim.tenant, claim.created)) + claim.units <= limits.quota
  }

  function NewRow(claim: Claim, allowed: bool, sealed: bool): Row {
    Row(if allowed then claim else claim.(units := 0), if allowed then Started else BudgetBlocked,
        sealed && allowed, false, claim.created + PAYLOAD_LIFE)
  }

  ghost function Admitted(rows: Table, limits: Limits, id: Id, claim: Claim, sealed: bool): Table {
    var kept := Forgotten(Purged(rows, claim.created), claim.created);
    kept[id := NewRow(claim, Allowed(kept, limits, claim), sealed)]
  }

  function Finished(rows: Table, id: Id, tenant: Tenant, ok: bool, sealed: bool): Table {
    if id in rows && rows[id].claim.tenant == tenant
    then rows[id := rows[id].(status := if ok then Completed else Failed, responseSealed := sealed)]
    else rows
  }

  /** The audit table and its two transactions. */
  class AuditStore {
    var rows: Table

    constructor ()
      ensures rows == map[]
    {
      rows := map[];
    }

    /** SELECT count(*), coalesce(sum(reserved_units), 0) for the tenant and day. */
    method Usage(tenant: Tenant, now: Time) returns (count: nat, used: nat)
      ensures count == Tally(rows.Keys, BudgetCount(rows, tenant, now))
      ensures used == Tally(rows.Keys, BudgetUnits(rows, tenant, now))
    {
      count, used := 0, 0;
      var ids := rows.Keys;
      while ids != {}
        invariant ids <= rows.Keys
        invariant count + Tally(ids, BudgetCount(rows, tenant, now)) == Tally(rows.Keys, BudgetCount(rows, tenant, now))
        invariant used + Tally(ids, BudgetUnits(rows, tenant, now)) == Tally(rows.Keys, BudgetUnits(rows, tenant, now))
      {
        var id :| id in ids;
        TallyWithout(ids, id, BudgetCount(rows, tenant, now));
        TallyWithout(ids, id, BudgetUnits(rows, tenant, now));
        if InBudget(rows[id].claim, tenant, now) {
          count, used := count + 1, used + rows[id].claim.units;
        }
        ids := ids - {id};
      }
    }

    /** Purge, forget expired payloads, check the budget and insert the reservation. */
    method Admit(limits: Limits, id: Id, claim: Claim, sealed: bool) returns (allowed: bool)
      requires id !in rows
      modifies this
      ensures rows == Admitted(old(rows), limits, id, claim, sealed)
      ensures allowed == Allowed(Forgotten(Purged(old(rows), claim.created), claim.created), limits, claim)
    {
      rows := Purged(rows, claim.created);
      rows := Forgotten(rows, claim.created);
      var count, used := Usage(claim.tenant, claim.created);
      allowed := count < limits.requests && used + claim.units <= limits.quota;
      rows := rows[id := NewRow(claim, allowed, sealed)];
    }

    /** Record the outcome of a call; a row that is gone or not the tenant's is left alone. */
    method Finish(id: Id, tenant: Tenant, ok: bool, sealed: bool)
      modifies this
      ensures rows == Finished(old(rows), id, tenant, ok, sealed)
    {
      if id in rows && rows[id].claim.tenant == tenant {
        rows := rows[id := rows[id].(status := if ok then Completed else Failed, responseSealed := sealed)];
      }
    }
  }

  // ----- One tenant, one day -----

  predicate OnDay(c: Claim, tenant: Tenant, day: int) {
    c.tenant == tenant && DayOf(c.created) == day
  }

  function DayUnits(claims: map<Id, Claim>, tenant: Tenant, day: int): Id -> nat {
    (id: Id) => if id in claims && OnDay(claims[id], tenant, day) then claims[id].units else 0
  }

  function DayCount(claims: map<Id, Claim>, tenant: Tenant, day: int): Id -> nat {
    (id: Id) => if id in claims && OnDay(claims[id], tenant, day) then 1 else 0
  }

  /** What the tenants have reserved stays within the limits, on every day. */
  ghost predicate WithinLimits(claims: map<Id, Claim>, limits: Limits) {
    forall tenant, day ::
      && Tally(claims.Keys, DayUnits(claims, tenant, day)) <= limits.quota
      && Tally(claims.Keys, DayCount(claims, tenant, day)) <= limits.requests
  }

  /** The reservations of a table: the rows that were not blocked. */
  function Reservations(rows: Table): map<Id, Claim> {
    map id | id in rows && !rows[id].status.BudgetBlocked? :: rows[id].claim
  }

  ghost predicate BlockedHoldNothing(rows: Table) {
    forall id :: id in rows && rows[id].status.BudgetBlocked? ==> rows[id].claim.units == 0
  }

  lemma FewerClaims(claims: map<Id, Claim>, fewer: map<Id, Claim>, limits: Limits)
    requires WithinLimits(claims, limits)
    requires forall id :: id in fewer ==> id in claims && fewer[id] == claims[id]
    ensures WithinLimits(fewer, limits)
  {
    forall tenant, day
      ensures Tally(fewer.Keys, DayUnits(fewer, tenant, day)) <= limits.quota
      ensures Tally(fewer.Keys, DayCount(fewer, tenant, day)) <= limits.requests
    {
      TallyCovered(fewer.Keys, claims.Keys, DayUnits(fewer, tenant, day), DayUnits(claims, tenant, day));
      TallyCovered(fewer.Keys, claims.Keys, DayCount(fewer, tenant, day), DayCount(claims, tenant, day));
    }
  }

  /** The day's claims of a tenant that the budget check could still see. */
  ghost predicate Visible(claims: map<Id, Claim>, kept: Table, claim: Claim) {
    forall id :: id in claims && InBudget(claims[id], claim.tenant, claim.created) ==>
      id in kept && kept[id].claim == claims[id]
  }

  lemma SameDayIsInBudget(c: Claim, claim: Claim)
    requires OnDay(c, claim.tenant, DayOf(claim.created))
    ensures InBudget(c, claim.tenant, claim.created)
  {
  }

  lemma OneMoreClaim(claims: map<Id, Claim>, id: Id, claim: Claim, tenant: Tenant, day: int)
    requires id !in claims
    ensures var claims' := claims[id := claim];
            && Tally(claims'.Keys, DayUnits(claims', tenant, day))
               <= Tally(claims.Keys, DayUnits(claims, tenant, day))
                  + (if OnDay(claim, tenant, day) then claim.units else 0)
            && Tally(claims'.Keys, DayCount(claims', tenant, day))
               <= Tally(claims.Keys, DayCount(claims, tenant, day)) + (if OnDay(claim, tenant, day) then 1 else 0)
  {
    var claims' := claims[id := claim];
    TallyWithout(claims'.Keys, id, DayUnits(claims', tenant, day));
    TallyWithout(claims'.Keys, id, DayCount(claims', tenant, day));
    assert claims'.Keys - {id} == claims.Keys;
    TallyCovered(claims.Keys, claims.Keys, DayUnits(claims', tenant, day), DayUnits(claims, tenant, day));
    TallyCovered(claims.Keys, claims.Keys, DayCount(claims', tenant, day), DayCount(claims, tenant, day));
  }

  /** An admission that saw the day's claims keeps them within the limits. */
  lemma ReserveKeepsLimits(claims: map<Id, Claim>, kept: Table, limits: Limits, id: Id, claim: Claim)
    requires WithinLimits(claims, limits) && id !in claims
    requires Allowed(kept, limits, claim) && Visible(claims, kept, claim)
    ensures WithinLimits(claims[id := claim], limits)
  {
    DayIsCovered(claims, kept, claim);
    var claims' := claims[id := claim];
    forall tenant, day
      ensures Tally(claims'.Keys, DayUnits(claims', tenant, day)) <= limits.quota
      ensures Tally(claims'.Keys, DayCount(claims', tenant, day)) <= limits.requests
    {
      OneMoreClaim(claims, id, claim, tenant, day);
      assert Tally(claims.Keys, DayUnits(claims, tenant, day)) <= limits.quota;
    }
  }

  lemma DayIsCovered(claims: map<Id, Claim>, kept: Table, claim: Claim)
    requires Visible(claims, kept, claim)
    ensures Tally(claims.Keys, DayUnits(claims, claim.tenant, DayOf(claim.created)))
         <= Tally(kept.Keys, BudgetUnits(kept, claim.tenant, claim.created))
    ensures Tally(claims.Keys, DayCount(claims, claim.tenant, DayOf(claim.created)))
         <= Tally(kept.Keys, BudgetCount(kept, claim.tenant, claim.created))
  {
    forall id | id in claims && OnDay(claims[id], claim.tenant, DayOf(claim.created))
      ensures id in kept && kept[id].claim == claims[id] && InBudget(claims[id], claim.tenant, claim.created)
    {
      SameDayIsInBudget(claims[id], claim);
    }
    var day := DayOf(claim.created);
    TallyCovered(claims.Keys, kept.Keys, DayUnits(claims, claim.tenant, day),
                 BudgetUnits(kept, claim.tenant, claim.created));
    TallyCovered(claims.Keys, kept.Keys, DayCount(claims, claim.tenant, day),
                 BudgetCount(kept, claim.tenant, claim.created));
  }

  lemma ReservationsInsert(kept: Table, id: Id, row: Row)
    requires id !in kept
    ensures Reservations(kept[id := row]) ==
            if row.status.BudgetBlocked? then Reservations(kept) else Reservations(kept)[id := row.claim]
  {
  }

  /** A purge drops claims and changes none. */
  lemma KeptRows(rows: Table, now: Time)
    ensures var kept := Forgotten(Purged(rows, now), now);
            && (forall id :: id in kept <==> id in rows && rows[id].claim.created >= now - RETENTION)
            && (forall id :: id in kept ==> kept[id].claim == rows[id].claim && kept[id].status == rows[id].status)
  {
  }

  // ----- No call is refused that fits -----

  /** Days are the UTC days of 24 hours. */
  lemma DaysOfADay(t: Time, day: int)
    ensures DayOf(t) == day <==> day * 86_400_000_000 <= t < (day + 1) * 86_400_000_000
  {
  }

  /** The budget counts the tenant's rows of the day of the transaction and of later days. */
  lemma BudgetIsOfTheDay(c: Claim, tenant: Tenant, now: Time)
    ensures InBudget(c, tenant, now) <==> c.tenant == tenant && DayOf(c.created) >= DayOf(now)
  {
  }

  function ClaimsOf(rows: Table): map<Id, Claim> {
    map id | id in rows :: rows[id].claim
  }

  ghost predicate NoneLater(rows: Table, claim: Claim) {
    forall id :: id in rows && rows[id].claim.tenant == claim.tenant ==>
      DayOf(rows[id].claim.created) <= DayOf(claim.created)
  }

  /** What is kept of a day's rows is all of them. */
  lemma DayIsKept(rows: Table, claim: Claim, id: Id)
    requires id in rows && OnDay(rows[id].claim, claim.tenant, DayOf(claim.created))
    ensures rows[id].claim.created >= claim.created - RETENTION
  {
  }

  /** The budget check on the kept rows looks at exactly the tenant's rows of the day. */
  ghost predicate SeesTheDay(rows: Table, kept: Table, claim: Claim) {
    && (forall id :: id in kept && InBudget(kept[id].claim, claim.tenant, claim.created) ==>
          id in rows && OnDay(rows[id].claim, claim.tenant, DayOf(claim.created)))
    && (forall id :: id in rows && OnDay(rows[id].claim, claim.tenant, DayOf(claim.created)) ==>
          id in kept && kept[id].claim == rows[id].claim)
  }

  lemma KeptSeesTheDay(rows: Table, claim: Claim)
    requires NoneLater(rows, claim)
    ensures SeesTheDay(rows, Forgotten(Purged(rows, claim.created), claim.created), claim)
  {
    KeptRows(rows, claim.created);
    forall id | id in rows && OnDay(rows[id].claim, claim.tenant, DayOf(claim.created))
      ensures rows[id].claim.created >= claim.created - RETENTION
    {
      DayIsKept(rows, claim, id);
    }
    forall c: Claim ensures InBudget(c, claim.tenant, claim.created) <==>
                            c.tenant == claim.tenant && DayOf(c.created) >= DayOf(claim.created) {
      BudgetIsOfTheDay(c, claim.tenant, claim.created);
    }
  }

  lemma DayTallies(rows: Table, kept: Table, claim: Claim)
    requires SeesTheDay(rows, kept, claim)
    ensures Tally(kept.Keys, BudgetCount(kept, claim.tenant, claim.created))
         == Tally(rows.Keys, DayCount(ClaimsOf(rows), claim.tenant, DayOf(claim.created)))
    ensures Tally(kept.Keys, BudgetUnits(kept, claim.tenant, claim.created))
         == Tally(rows.Keys, DayUnits(ClaimsOf(rows), claim.tenant, DayOf(claim.created)))
  {
    var day := DayOf(claim.created);
    forall id | id in rows && OnDay(rows[id].claim, claim.tenant, day)
      ensures InBudget(rows[id].claim, claim.tenant, claim.created)
    {
      SameDayIsInBudget(rows[id].claim, claim);
    }
    SameTally(kept.Keys, rows.Keys, BudgetCount(kept, claim.tenant, claim.created),
              DayCount(ClaimsOf(rows), claim.tenant, day));
    SameTally(kept.Keys, rows.Keys, BudgetUnits(kept, claim.tenant, claim.created),
              DayUnits(ClaimsOf(rows), claim.tenant, day));
  }

  lemma SameTally(ids: set<Id>, others: set<Id>, f: Id -> nat, g: Id -> nat)
    requires forall x :: x in ids && f(x) > 0 ==> x in others && g(x) == f(x)
    requires forall x :: x in others && g(x) > 0 ==> x in ids && f(x) == g(x)
    ensures Tally(ids, f) == Tally(others, g)
  {
    TallyCovered(ids, others, f, g);
    TallyCovered(others, ids, g, f);
  }

  /** With no later row of its tenant, a call is admitted exactly when the tenant's rows of its UTC day are fewer than
      the requests allowed and their units and its own fit the quota; what was purged or is of another day is no
      reason to refuse it. */
  lemma AdmittedExactly(rows: Table, limits: Limits, claim: Claim)
    requires NoneLater(rows, claim)
    ensures Allowed(Forgotten(Purged(rows, claim.created), claim.created), limits, claim) <==>
            && Tally(rows.Keys, DayCount(ClaimsOf(rows), claim.tenant, DayOf(claim.created))) < limits.requests
            && Tally(rows.Keys, DayUnits(ClaimsOf(rows), claim.tenant, DayOf(claim.created))) + claim.units
               <= limits.quota
  {
    KeptSeesTheDay(rows, claim);
    DayTallies(rows, Forgotten(Purged(rows, claim.created), claim.created), claim);
  }

  /** What is sealed in a row expires a week after its creation. */
  ghost predicate LastsAWeek(row: Row) {
    row.expires == row.claim.created + 7 * 86_400_000_000
  }

  /** An admission leaves the payloads of the last week alone and erases all others; no row older than 30 days stays,
      and the new row holds a prompt only if it was admitted. */
  lemma PayloadsLastAWeek(rows: Table, limits: Limits, id: Id, claim: Claim, sealed: bool, other: Id)
    requires id !in rows && forall k :: k in rows ==> LastsAWeek(rows[k])
    ensures var rows' := Admitted(rows, limits, id, claim, sealed);
            && (forall k :: k in rows' ==> LastsAWeek(rows'[k]))
            && (other != id ==>
                 (other in rows' <==>
                  other in rows && claim.created - rows[other].claim.created <= 30 * 86_400_000_000))
            && (other != id && other in rows' ==>
                 var recent := claim.created - rows[other].claim.created <= 7 * 86_400_000_000;
                 && rows'[other].promptSealed == (recent && rows[other].promptSealed)
                 && rows'[other].responseSealed == (recent && rows[other].responseSealed))
            && (rows'[id].promptSealed <==> sealed && rows'[id].status == Started)
            && !rows'[id].responseSealed
  {
  }

  /** A finish writes the outcome and the response of its own row, and nothing else anywhere. */
  lemma FinishWritesOutcome(rows: Table, id: Id, tenant: Tenant, ok: bool, sealed: bool, other: Id)
    requires id in rows && rows[id].claim.tenant == tenant && other in rows
    ensures var rows' := Finished(rows, id, tenant, ok, sealed);
            && rows'.Keys == rows.Keys && (other != id ==> rows'[other] == rows[other])
            && (ok <==> rows'[id].status == Completed) && (!ok <==> rows'[id].status == Failed)
            && (sealed <==> rows'[id].responseSealed) && rows'[id].promptSealed == rows[id].promptSealed
            && rows'[id].claim == rows[id].claim && rows'[id].expires == rows[id].expires
  {
  }

  /** Whatever the order of times and locks, an admission keeps the table's reservations within the limits. */
  lemma AdmissionKeepsLimits(rows: Table, limits: Limits, id: Id, claim: Claim, sealed: bool)
    requires id !in rows && WithinLimits(Reservations(rows), limits)
    ensures WithinLimits(Reservations(Admitted(rows, limits, id, claim, sealed)), limits)
  {
    var kept := Forgotten(Purged(rows, claim.created), claim.created);
    KeptRows(rows, claim.created);
    FewerClaims(Reservations(rows), Reservations(kept), limits);
    ReservationsInsert(kept, id, NewRow(claim, Allowed(kept, limits, claim), sealed));
    if Allowed(kept, limits, claim) {
      ReserveKeepsLimits(Reservations(kept), kept, limits, id, claim);
    }
  }

  /** Finishing an admitted call changes no reservation. */
  lemma FinishKeepsReservations(rows: Table, id: Id, tenant: Tenant, ok: bool, sealed: bool)
    requires id in rows ==> !rows[id].status.BudgetBlocked?
    ensures Reservations(Finished(rows, id, tenant, ok, sealed)) == Reservations(rows)
  {
  }
}

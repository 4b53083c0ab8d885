/**
 How long an admission of the inference audit (strategyos_mvp/inference_audit.py) may wait for the lock:
 a run whose history exceeds a quota when one waits a microsecond longer than the bound, and with it
 the exact bound.
 */
module LateAdmission {
  import opened InferenceAudit
  import opened InferenceRuns

  /** An admission finds nothing in its budget when no kept row is its tenant's. */
  lemma FreshBudget(rows: Table, limits: Limits, claim: Claim)
    requires forall id :: id in rows ==> rows[id].claim.tenant != claim.tenant
    ensures Allowed(rows, limits, claim) <==> 0 < limits.requests && claim.units <= limits.quota
  {
    TallyCovered(rows.Keys, {}, BudgetCount(rows, claim.tenant, claim.created), _ => 0);
    TallyCovered(rows.Keys, {}, BudgetUnits(rows, claim.tenant, claim.created), _ => 0);
  }

  // Two calls of one tenant, two units each, start at the two ends of day 0.  The first is admitted at once; the second
  // waits until a call of another tenant has purged the first one's row.

  const TIGHT: Limits := Limits(3, 10)
  const READY: Env := Env(true, Valid, true)
  const EARLY: Claim := Claim(7, 0, 2)
  const LATE: Claim := Claim(7, DAY - 1, 2)
  const OTHER: Claim := Claim(8, RETENTION + 1, 2)

  function Called(claim: Claim, waiting: bool): Call {
    Call(claim.tenant, claim.units, READY, if waiting then Waiting(claim.created, true) else Cleared)
  }

  function Reserved(claim: Claim): Row { NewRow(claim, true, true) }

  /** A run within the lag, and where it gets. */
  ghost predicate Reaches(steps: seq<Step>, s: System, lag: int) {
    Run(INITIAL, steps, TIGHT, true) == s && TimelyRun(steps, TIGHT, true, lag)
  }

  lemma ReachMore(steps: seq<Step>, s: System, step: Step, t: System, lag: int)
    requires Reaches(steps, s, lag) && Timely(s, step, lag) && Next(s, step, TIGHT, true) == t
    ensures Reaches(steps + [step], t, lag)
  {
    var more := steps + [step];
    assert more[..|steps|] == steps;
    forall i | 0 <= i < |more| ensures Timely(Run(INITIAL, more[..i], TIGHT, true), more[i], lag) {
      assert i < |steps| ==> more[..i] == steps[..i];
    }
  }

  /** The lock is given to a call that sees no row of its tenant. */
  lemma LockAlone(s: System, id: Id, claim: Claim)
    requires id in s.calls && s.calls[id] == Called(claim, true) && claim.units <= 3
    requires forall k :: k in s.rows ==>
               s.rows[k].claim.tenant != claim.tenant || s.rows[k].claim.created < claim.created - RETENTION
    ensures Next(s, Lock(id), TIGHT, true) ==
            s.(rows := Forgotten(Purged(s.rows, claim.created), claim.created)[id := Reserved(claim)],
               calls := s.calls[id := Called(claim, false)],
               admitted := s.admitted[id := claim])
  {
    KeptRows(s.rows, claim.created);
    FreshBudget(Forgotten(Purged(s.rows, claim.created), claim.created), TIGHT, claim);
  }

  lemma FirstIsAdmitted(lag: int) returns (steps: seq<Step>)
    requires lag >= 0
    ensures Reaches(steps,
                    System(0, map[1 := Reserved(EARLY)], map[1 := Called(EARLY, false)], map[1 := EARLY], {}), lag)
  {
    var waiting := System(0, map[], map[1 := Called(EARLY, true)], map[], {});
    ReachMore([], INITIAL, Begin(1, 7, 2, 0, READY), waiting, lag);
    LockAlone(waiting, 1, EARLY);
    steps := [] + [Begin(1, 7, 2, 0, READY)] + [Lock(1)];
    ReachMore([] + [Begin(1, 7, 2, 0, READY)], waiting, Lock(1), Next(waiting, Lock(1), TIGHT, true), lag);
  }

  const BOTH_BEGUN: map<Id, Call> := map[1 := Called(EARLY, false), 2 := Called(LATE, true)]

  lemma SecondBegins(lag: int) returns (steps: seq<Step>)
    requires lag >= 0
    ensures Reaches(steps, System(RETENTION + 1, map[1 := Reserved(EARLY)], BOTH_BEGUN, map[1 := EARLY], {}), lag)
  {
    var before := FirstIsAdmitted(lag);
    var s0 := System(0, map[1 := Reserved(EARLY)], map[1 := Called(EARLY, false)], map[1 := EARLY], {});
    var s1 := s0.(clock := DAY - 1);
    var s2 := s1.(calls := BOTH_BEGUN);
    ReachMore(before, s0, Tick(DAY - 1), s1, lag);
    ReachMore(before + [Tick(DAY - 1)], s1, Begin(2, 7, 2, 0, READY), s2, lag);
    steps := before + [Tick(DAY - 1)] + [Begin(2, 7, 2, 0, READY)];
    ReachMore(steps, s2, Tick(RETENTION + 2 - DAY), s2.(clock := RETENTION + 1), lag);
    steps := steps + [Tick(RETENTION + 2 - DAY)];
  }

  lemma NothingKept(rows: Table, now: Time)
    requires forall id :: id in rows ==> rows[id].claim.created < now - RETENTION
    ensures Forgotten(Purged(rows, now), now) == map[]
  {
    KeptRows(rows, now);
  }

  const ALL_BEGUN: map<Id, Call> := BOTH_BEGUN[3 := Called(OTHER, false)]

  lemma OtherBegins(lag: int) returns (steps: seq<Step>)
    requires lag >= 0
    ensures Reaches(steps, System(RETENTION + 1, map[1 := Reserved(EARLY)], BOTH_BEGUN[3 := Called(OTHER, true)],
                                  map[1 := EARLY], {}), lag)
  {
    var before := SecondBegins(lag);
    var s := System(RETENTION + 1, map[1 := Reserved(EARLY)], BOTH_BEGUN, map[1 := EARLY], {});
    var t := s.(calls := BOTH_BEGUN[3 := Called(OTHER, true)]);
    ReachMore(before, s, Begin(3, 8, 2, 0, READY), t, lag);
    steps := before + [Begin(3, 8, 2, 0, READY)];
  }

  lemma OtherPurges(lag: int) returns (steps: seq<Step>)
    requires lag >= 0
    ensures Reaches(steps,
                    System(RETENTION + 1, map[3 := Reserved(OTHER)], ALL_BEGUN, map[1 := EARLY, 3 := OTHER], {}), lag)
  {
    var before := OtherBegins(lag);
    var s := System(RETENTION + 1, map[1 := Reserved(EARLY)], BOTH_BEGUN[3 := Called(OTHER, true)],
                    map[1 := EARLY], {});
    LockAlone(s, 3, OTHER);
    NothingKept(s.rows, OTHER.created);
    assert s.calls[3 := Called(OTHER, false)] == ALL_BEGUN;
    ReachMore(before, s, Lock(3), Next(s, Lock(3), TIGHT, true), lag);
    steps := before + [Lock(3)];
  }

  lemma SecondIsAdmitted(lag: int) returns (steps: seq<Step>, s: System)
    requires lag > LONGEST_LAG
    ensures Reaches(steps, s, lag) && s.admitted == map[1 := EARLY, 3 := OTHER, 2 := LATE]
  {
    var before := OtherPurges(lag);
    var s0 := System(RETENTION + 1, map[3 := Reserved(OTHER)], ALL_BEGUN, map[1 := EARLY, 3 := OTHER], {});
    LockAlone(s0, 2, LATE);
    s := Next(s0, Lock(2), TIGHT, true);
    ReachMore(before, s0, Lock(2), s, lag);
    steps := before + [Lock(2)];
  }

  lemma FourUnits(admitted: map<Id, Claim>)
    requires 1 in admitted && 2 in admitted && admitted[1] == EARLY && admitted[2] == LATE
    ensures Tally(admitted.Keys, DayUnits(admitted, 7, 0)) >= 4
  {
    var f := DayUnits(admitted, 7, 0);
    TallyWithout(admitted.Keys, 1, f);
    TallyWithout(admitted.Keys - {1}, 2, f);
    assert f(1) == 2 && f(2) == 2;
  }

  /** A lag longer than the bound can exceed a quota. */
  lemma LateAdmissionExceedsQuota(lag: int)
    requires lag > LONGEST_LAG
    ensures exists steps ::
              TimelyRun(steps, TIGHT, true, lag) && !WithinLimits(Run(INITIAL, steps, TIGHT, true).admitted, TIGHT)
  {
    var steps, s := SecondIsAdmitted(lag);
    FourUnits(s.admitted);
    assert Tally(s.admitted.Keys, DayUnits(s.admitted, 7, 0)) > TIGHT.quota;
    assert !WithinLimits(s.admitted, TIGHT);
  }

  /** Whatever the limits, no run within the lag reserves more than them on any day of any tenant. */
  ghost predicate KeepsHistory(lag: int) {
    forall steps, limits, required :: TimelyRun(steps, limits, required, lag) ==>
      WithinLimits(Run(INITIAL, steps, limits, required).admitted, limits)
  }

  lemma ShorterLag(steps: seq<Step>, limits: Limits, required: bool, lag: int, longer: int)
    requires TimelyRun(steps, limits, required, lag) && lag <= longer
    ensures TimelyRun(steps, limits, required, longer)
  {
    forall i | 0 <= i < |steps| ensures Timely(Run(INITIAL, steps[..i], limits, required), steps[i], longer) {
      assert Timely(Run(INITIAL, steps[..i], limits, required), steps[i], lag);
    }
  }

  /** The history keeps all limits under a bound on the lag exactly when that bound is at most 29 days and a
      microsecond. */
  lemma LagBoundIsExact(lag: int)
    ensures KeepsHistory(lag) <==> lag <= LONGEST_LAG
  {
    if lag <= LONGEST_LAG {
      forall steps, limits, required | TimelyRun(steps, limits, required, lag)
        ensures WithinLimits(Run(INITIAL, steps, limits, required).admitted, limits)
      {
        ShorterLag(steps, limits, required, lag, LONGEST_LAG);
        HistoryWithinLimits(steps, limits, required);
      }
    } else {
      LateAdmissionExceedsQuota(lag);
    }
  }
}

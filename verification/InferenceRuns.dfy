/**
 Runs of the inference audit (strategyos_mvp/inference_audit.py): calls of many tenants that begin,
 wait for the lock, reach the provider and finish in any order, on a clock that only moves forward.
 */
module InferenceRuns {
  import opened InferenceAudit

  // ----- Interleavings -----

  datatype KeyState = Missing | Invalid | Valid

  /** What a caller brings: a scoped principal, a configured key, a reachable store. */
  datatype Env = Env(scoped: bool, key: KeyState, storeUp: bool)

  datatype Entry = Refuse | Bypass | Audit(sealed: bool)

  /** The checks before any transaction: without an audit a call runs only when none is required. */
  function EntryOf(required: bool, env: Env): Entry {
    if !env.scoped then (if required then Refuse else Bypass)
    else if env.key.Invalid? || (env.key.Missing? && required) then Refuse
    else if !env.storeUp then (if required then Refuse else Bypass)
    else Audit(env.key.Valid?)
  }

  datatype Phase = Waiting(start: Time, sealed: bool) | Cleared | Calling | Ended

  datatype Call = Call(tenant: Tenant, units: nat, env: Env, phase: Phase)

  /** A call that runs without an audit: none is required, and the caller is not scoped or the store is down. */
  predicate Bypassed(call: Call, required: bool) {
    !required && (!call.env.scoped || !call.env.storeUp)
  }

  /** `admitted` is the history of reservations, which no purge touches; `provided` are the provider calls. */
  datatype System = System(clock: Time, rows: Table, calls: map<Id, Call>, admitted: map<Id, Claim>, provided: set<Id>)

  datatype Step =
    | Tick(elapsed: nat)
    | Begin(id: Id, tenant: Tenant, promptLength: nat, maxOutput: nat, env: Env)
    | Lock(id: Id)
    | Provide(id: Id)
    | Finish(id: Id, ok: bool, storeUp: bool, sealed: bool)

  ghost function Next(s: System, step: Step, limits: Limits, required: bool): System {
    match step
    case Tick(elapsed) => s.(clock := s.clock + elapsed)
    case Begin(id, tenant, promptLength, maxOutput, env) =>
      if id in s.calls then s
      else
        (match EntryOf(required, env)
         case Refuse => s
         case Bypass => s.(calls := s.calls[id := Call(tenant, 0, env, Cleared)])
         case Audit(sealed) =>
           s.(calls := s.calls[id := Call(tenant, promptLength + 4 * maxOutput, env, Waiting(s.clock, sealed))]))
    case Lock(id) =>
      if id !in s.calls || !s.calls[id].phase.Waiting? then s
      else
        var call := s.calls[id];
        var claim := Claim(call.tenant, call.phase.start, call.units);
        var kept := Forgotten(Purged(s.rows, claim.created), claim.created);
        var allowed := Allowed(kept, limits, claim);
        s.(rows := Admitted(s.rows, limits, id, claim, call.phase.sealed),
           calls := s.calls[id := call.(phase := if allowed then Cleared else Ended)],
           admitted := if allowed then s.admitted[id := claim] else s.admitted)
    case Provide(id) =>
      if id !in s.calls || !s.calls[id].phase.Cleared? then s
      else s.(calls := s.calls[id := s.calls[id].(phase := Calling)], provided := s.provided + {id})
    case Finish(id, ok, storeUp, sealed) =>
      if id !in s.calls || !s.calls[id].phase.Calling? then s
      else
        s.(calls := s.calls[id := s.calls[id].(phase := Ended)],
           rows := if storeUp then Finished(s.rows, id, s.calls[id].tenant, ok, sealed) else s.rows)
  }

  ghost function Run(s: System, steps: seq<Step>, limits: Limits, required: bool): System {
    if steps == [] then s
    else Next(Run(s, steps[..|steps| - 1], limits, required), steps[|steps| - 1], limits, required)
  }

  const INITIAL: System := System(0, map[], map[], map[], {})

  /** A table row was inserted by its own call; a blocked one holds no units, ended its call and stands for no
      reservation and no provider call. */
  ghost predicate RowAccounted(s: System, id: Id) {
    id in s.rows ==>
      && id in s.calls && !s.calls[id].phase.Waiting?
      && (s.rows[id].status.BudgetBlocked? ==>
            s.calls[id].phase.Ended? && s.rows[id].claim.units == 0 && id !in s.provided && id !in s.admitted)
      && (!s.rows[id].status.BudgetBlocked? ==> id in s.admitted && s.admitted[id] == s.rows[id].claim)
  }

  /** A waiting call has reserved nothing yet; one that gets as far as the provider was admitted, or runs without an
      audit, and not both. */
  ghost predicate CallAccounted(s: System, id: Id, required: bool) {
    && (id in s.admitted || id in s.provided ==> id in s.calls && !s.calls[id].phase.Waiting?)
    && (id in s.calls && s.calls[id].phase.Waiting? ==>
         s.calls[id].phase.start <= s.clock && !Bypassed(s.calls[id], required))
    && (id in s.calls && (s.calls[id].phase.Cleared? || s.calls[id].phase.Calling? || id in s.provided) ==>
          (id in s.admitted <==> !Bypassed(s.calls[id], required)))
  }

  ghost predicate Accounted(s: System, id: Id, required: bool) {
    RowAccounted(s, id) && CallAccounted(s, id, required)
  }

  /** What every reachable state satisfies. */
  ghost predicate Invariant(s: System, limits: Limits, required: bool) {
    && WithinLimits(Reservations(s.rows), limits)
    && forall id :: Accounted(s, id, required)
  }

  lemma LockKeepsAccount(s: System, id: Id, other: Id, limits: Limits, required: bool)
    requires id in s.calls && s.calls[id].phase.Waiting?
    requires Accounted(s, id, required) && Accounted(s, other, required)
    ensures Accounted(Next(s, Lock(id), limits, required), other, required)
  {
    KeptRows(s.rows, s.calls[id].phase.start);
  }

  lemma LockKeepsInvariant(s: System, id: Id, limits: Limits, required: bool)
    requires Invariant(s, limits, required) && id in s.calls && s.calls[id].phase.Waiting?
    ensures Invariant(Next(s, Lock(id), limits, required), limits, required)
  {
    var call := s.calls[id];
    assert Accounted(s, id, required);
    forall other ensures Accounted(Next(s, Lock(id), limits, required), other, required) {
      LockKeepsAccount(s, id, other, limits, required);
    }
    AdmissionKeepsLimits(s.rows, limits, id, Claim(call.tenant, call.phase.start, call.units), call.phase.sealed);
  }

  /** The other steps reserve nothing. */
  lemma StepKeepsAccount(s: System, step: Step, other: Id, limits: Limits, required: bool)
    requires !step.Lock? && Accounted(s, other, required)
    ensures Accounted(Next(s, step, limits, required), other, required)
  {
  }

  lemma StepKeepsInvariant(s: System, step: Step, limits: Limits, required: bool)
    requires !step.Lock? && Invariant(s, limits, required)
    ensures Invariant(Next(s, step, limits, required), limits, required)
  {
    forall other ensures Accounted(Next(s, step, limits, required), other, required) {
      StepKeepsAccount(s, step, other, limits, required);
    }
    if step.Finish? && step.id in s.calls && s.calls[step.id].phase.Calling? {
      assert Accounted(s, step.id, required);
      FinishKeepsReservations(s.rows, step.id, s.calls[step.id].tenant, step.ok, step.sealed);
    }
  }

  lemma NextKeepsInvariant(s: System, step: Step, limits: Limits, required: bool)
    requires Invariant(s, limits, required)
    ensures Invariant(Next(s, step, limits, required), limits, required)
  {
    if !step.Lock? {
      StepKeepsInvariant(s, step, limits, required);
    } else if step.id in s.calls && s.calls[step.id].phase.Waiting? {
      LockKeepsInvariant(s, step.id, limits, required);
    }
  }

  lemma {:induction false} RunKeepsInvariant(steps: seq<Step>, limits: Limits, required: bool)
    ensures Invariant(Run(INITIAL, steps, limits, required), limits, required)
  {
    if steps == [] {
      NothingReserved(limits);
    } else {
      RunKeepsInvariant(steps[..|steps| - 1], limits, required);
      NextKeepsInvariant(Run(INITIAL, steps[..|steps| - 1], limits, required), steps[|steps| - 1], limits, required);
    }
  }

  lemma NothingReserved(limits: Limits)
    ensures WithinLimits(map[], limits) && Reservations(INITIAL.rows) == map[]
  {
  }

  /** Over every interleaving: each tenant's reserved units and admitted rows of any one day stay within
      the limits, blocked rows hold nothing and their calls never reach the provider, and a call that reaches it
      was admitted exactly when it did not run without an audit, whether an audit is required or not. */
  lemma BudgetsHold(steps: seq<Step>, limits: Limits, required: bool)
    ensures var s := Run(INITIAL, steps, limits, required);
            && WithinLimits(Reservations(s.rows), limits)
            && BlockedHoldNothing(s.rows)
            && (forall id :: id in s.rows && s.rows[id].status.BudgetBlocked? ==> id !in s.provided)
            && (forall id :: id in s.provided ==>
                 id in s.calls && (id in s.admitted <==> !Bypassed(s.calls[id], required)))
            && (required ==> forall id :: id in s.provided ==> id in s.admitted)
  {
    RunKeepsInvariant(steps, limits, required);
    InvariantAccounts(Run(INITIAL, steps, limits, required), limits, required);
  }

  lemma InvariantAccounts(s: System, limits: Limits, required: bool)
    requires Invariant(s, limits, required)
    ensures BlockedHoldNothing(s.rows)
    ensures forall id :: id in s.rows && s.rows[id].status.BudgetBlocked? ==> id !in s.provided
    ensures forall id :: id in s.provided ==> id in s.calls && (id in s.admitted <==> !Bypassed(s.calls[id], required))
  {
    forall id | id in s.rows && s.rows[id].status.BudgetBlocked?
      ensures s.rows[id].claim.units == 0 && id !in s.provided
    {
      assert Accounted(s, id, required);
    }
    forall id | id in s.provided ensures id in s.calls && (id in s.admitted <==> !Bypassed(s.calls[id], required)) {
      assert Accounted(s, id, required);
    }
  }

  // ----- What becomes of a call -----

  /** Which calls are refused, run without an audit, or are audited, with their prompt sealed or not. */
  lemma EntryExactly(required: bool, env: Env)
    ensures EntryOf(required, env) == Refuse <==>
            || (required && (!env.scoped || env.key != Valid || !env.storeUp))
            || (env.scoped && env.key == Invalid)
    ensures EntryOf(required, env) == Bypass <==>
            !required && (!env.scoped || (env.key != Invalid && !env.storeUp))
    ensures forall sealed :: EntryOf(required, env) == Audit(sealed) <==>
            && env.scoped && env.storeUp && env.key != Invalid && (required ==> env.key == Valid)
            && (sealed <==> env.key == Valid)
  {
  }

  /** A call as its begin left it at a given time: its tenant and circumstances; if it is audited, the units it will
      reserve, one for each character of the prompt and four for each token of output; while it waits, its start, and
      its prompt to be sealed exactly with a valid key. */
  ghost predicate BegunBy(call: Call, step: Step, id: Id, clock: Time, required: bool) {
    && step.Begin? && step.id == id && call.tenant == step.tenant && call.env == step.env
    && (!Bypassed(call, required) ==> call.units == step.promptLength + step.maxOutput * 4)
    && (call.phase.Waiting? ==> call.phase.start == clock && (call.phase.sealed <==> call.env.key == Valid))
  }

  /** What a call has reserved are its own units, in its own name, at the time it began. */
  ghost predicate ReservedBy(s: System, id: Id, clock: Time) {
    id in s.admitted ==>
      id in s.calls && s.admitted[id] == Claim(s.calls[id].tenant, clock, s.calls[id].units)
  }

  ghost predicate BegunAt(steps: seq<Step>, i: nat, limits: Limits, required: bool, id: Id) {
    var s := Run(INITIAL, steps, limits, required);
    && i < |steps| && id in s.calls
    && BegunBy(s.calls[id], steps[i], id, Run(INITIAL, steps[..i], limits, required).clock, required)
    && ReservedBy(s, id, Run(INITIAL, steps[..i], limits, required).clock)
  }

  lemma BegunStays(s: System, step: Step, limits: Limits, required: bool, id: Id, begin: Step, clock: Time)
    requires Invariant(s, limits, required) && id in s.calls
    requires BegunBy(s.calls[id], begin, id, clock, required) && ReservedBy(s, id, clock)
    ensures var t := Next(s, step, limits, required);
            id in t.calls && BegunBy(t.calls[id], begin, id, clock, required) && ReservedBy(t, id, clock)
  {
    assert Accounted(s, id, required);
  }

  lemma BegunNow(s: System, step: Step, limits: Limits, required: bool, id: Id)
    requires Invariant(s, limits, required) && id !in s.calls && id in Next(s, step, limits, required).calls
    ensures var t := Next(s, step, limits, required);
            BegunBy(t.calls[id], step, id, s.clock, required) && ReservedBy(t, id, s.clock)
  {
    assert Accounted(s, id, required);
  }

  /** In every run each call stems from a begin step, and what it reserved is what that step asked for. */
  lemma {:induction false} CallsWereBegun(steps: seq<Step>, limits: Limits, required: bool, id: Id) returns (i: nat)
    requires id in Run(INITIAL, steps, limits, required).calls
    ensures BegunAt(steps, i, limits, required, id)
  {
    var init, last := steps[..|steps| - 1], steps[|steps| - 1];
    RunKeepsInvariant(init, limits, required);
    var s := Run(INITIAL, init, limits, required);
    if id in s.calls {
      i := CallsWereBegun(init, limits, required, id);
      assert init[..i] == steps[..i];
      BegunStays(s, last, limits, required, id, init[i], Run(INITIAL, init[..i], limits, required).clock);
    } else {
      i := |init|;
      BegunNow(s, last, limits, required, id);
    }
  }

  /** The i-th step hands a cleared call to the provider. */
  ghost predicate Provides(steps: seq<Step>, i: nat, limits: Limits, required: bool, id: Id) {
    && i < |steps| && steps[i] == Provide(id)
    && var s := Run(INITIAL, steps[..i], limits, required); id in s.calls && s.calls[id].phase.Cleared?
  }

  /** The provider calls of a run are exactly those of its provide steps. */
  lemma {:induction false} ProvidedExactly(steps: seq<Step>, limits: Limits, required: bool, id: Id)
    ensures id in Run(INITIAL, steps, limits, required).provided <==>
            exists i: nat :: Provides(steps, i, limits, required, id)
  {
    if steps != [] {
      var init := steps[..|steps| - 1];
      ProvidedExactly(init, limits, required, id);
      forall i: nat | i < |init|
        ensures Provides(init, i, limits, required, id) <==> Provides(steps, i, limits, required, id)
      {
        assert init[..i] == steps[..i];
      }
      assert steps[..|init|] == init;
      var s := Run(INITIAL, init, limits, required);
      assert id in Next(s, steps[|init|], limits, required).provided <==>
             id in s.provided || Provides(steps, |init|, limits, required, id);
    }
  }

  /** What the phase of a call says about it. */
  ghost predicate PhaseTells(s: System, id: Id, required: bool) {
    id in s.calls ==>
      match s.calls[id].phase
      case Waiting(_, _) => id !in s.provided && id !in s.admitted && !Bypassed(s.calls[id], required)
      case Cleared => id !in s.provided && (id in s.admitted || Bypassed(s.calls[id], required))
      case Calling => id in s.provided
      case Ended => id in s.provided || (id !in s.admitted && !Bypassed(s.calls[id], required))
  }

  lemma {:induction false} PhasesTell(steps: seq<Step>, limits: Limits, required: bool, id: Id)
    ensures PhaseTells(Run(INITIAL, steps, limits, required), id, required)
  {
    if steps != [] {
      var init := steps[..|steps| - 1];
      PhasesTell(init, limits, required, id);
      RunKeepsInvariant(init, limits, required);
      assert Accounted(Run(INITIAL, init, limits, required), id, required);
      NextPhase(Run(INITIAL, init, limits, required), steps[|steps| - 1], limits, required, id);
    }
  }

  lemma NextPhase(s: System, step: Step, limits: Limits, required: bool, id: Id)
    requires PhaseTells(s, id, required) && Accounted(s, id, required)
    ensures PhaseTells(Next(s, step, limits, required), id, required)
  {
  }

  /** The i-th step finishes a call that is under way. */
  ghost predicate Finishes(steps: seq<Step>, i: nat, limits: Limits, required: bool, id: Id) {
    && i < |steps| && steps[i].Finish? && steps[i].id == id
    && var s := Run(INITIAL, steps[..i], limits, required); id in s.calls && s.calls[id].phase.Calling?
  }

  lemma FinishedWasProvided(steps: seq<Step>, limits: Limits, required: bool, id: Id, i: nat)
    requires Finishes(steps, i, limits, required, id)
    ensures id in Run(INITIAL, steps, limits, required).provided
  {
    PhasesTell(steps[..i], limits, required, id);
    ProvidedExactly(steps[..i], limits, required, id);
    var k: nat :| Provides(steps[..i], k, limits, required, id);
    assert steps[..i][..k] == steps[..k];
    assert Provides(steps, k, limits, required, id);
    ProvidedExactly(steps, limits, required, id);
  }

  ghost predicate UnderWay(s: System, id: Id) {
    id in s.calls && s.calls[id].phase.Calling?
  }

  lemma UnderWayStep(s: System, step: Step, limits: Limits, required: bool, id: Id)
    requires PhaseTells(s, id, required)
    ensures var t := Next(s, step, limits, required);
            && (id in s.provided ==> id in t.provided)
            && (UnderWay(t, id) <==>
                (UnderWay(s, id) && !(step.Finish? && step.id == id)) || (id !in s.provided && id in t.provided))
  {
  }

  /** A call is under way from its provide step to its finish step. */
  lemma {:induction false} UnderWayExactly(steps: seq<Step>, limits: Limits, required: bool, id: Id)
    ensures UnderWay(Run(INITIAL, steps, limits, required), id) <==>
            && id in Run(INITIAL, steps, limits, required).provided
            && forall i: nat :: !Finishes(steps, i, limits, required, id)
  {
    if steps != [] {
      var init, last := steps[..|steps| - 1], |steps| - 1;
      var s := Run(INITIAL, init, limits, required);
      UnderWayExactly(init, limits, required, id);
      PhasesTell(init, limits, required, id);
      UnderWayStep(s, steps[last], limits, required, id);
      forall i: nat | i < last
        ensures Finishes(init, i, limits, required, id) <==> Finishes(steps, i, limits, required, id)
      {
        assert init[..i] == steps[..i];
      }
      assert steps[..last] == init;
      assert Finishes(steps, last, limits, required, id) <==>
             UnderWay(s, id) && steps[last].Finish? && steps[last].id == id;
      if i: nat :| Finishes(init, i, limits, required, id) {
        FinishedWasProvided(init, limits, required, id, i);
      }
    }
  }

  /** No call reaches the provider twice. */
  lemma ProvidedOnce(steps: seq<Step>, limits: Limits, required: bool, id: Id, i: nat, j: nat)
    requires Provides(steps, i, limits, required, id) && Provides(steps, j, limits, required, id)
    ensures i == j
  {
    if i != j {
      var k, l := if i < j then i else j, if i < j then j else i;
      assert steps[..l][..k] == steps[..k];
      assert Provides(steps[..l], k, limits, required, id);
      ProvidedExactly(steps[..l], limits, required, id);
      PhasesTell(steps[..l], limits, required, id);
      assert false;
    }
  }

  /** In every run, the outcome of a call under way is written to its row if the store is up, and to no other; the row
      is left alone if the store is down. */
  lemma OutcomeIsRecorded(steps: seq<Step>, limits: Limits, required: bool, id: Id,
                          ok: bool, storeUp: bool, sealed: bool)
    ensures var s := Run(INITIAL, steps, limits, required);
            var t := Next(s, Finish(id, ok, storeUp, sealed), limits, required);
            && t.rows.Keys == s.rows.Keys
            && (forall other :: other in s.rows && (other != id || !storeUp) ==> t.rows[other] == s.rows[other])
            && (storeUp && id in s.rows && id in s.calls && s.calls[id].phase.Calling? ==>
                  && t.rows[id].status == (if ok then Completed else Failed)
                  && t.rows[id].responseSealed == sealed && t.rows[id].claim == s.rows[id].claim)
  {
    var s := Run(INITIAL, steps, limits, required);
    RunKeepsInvariant(steps, limits, required);
    assert Accounted(s, id, required);
    if id in s.calls && s.calls[id].phase.Calling? && id in s.rows {
      var i := CallsWereBegun(steps, limits, required, id);
      FinishWritesOutcome(s.rows, id, s.calls[id].tenant, ok, sealed, id);
    }
  }

  // ----- The budget over the whole history -----

  /** The longest an admission may wait for the lock without missing a reservation of its own day. */
  const LONGEST_LAG: int := RETENTION - DAY + 1

  /** An admission whose transaction started at most `lag` before it got the lock. */
  ghost predicate Timely(s: System, step: Step, lag: int) {
    step.Lock? && step.id in s.calls && s.calls[step.id].phase.Waiting? ==>
      s.clock - s.calls[step.id].phase.start <= lag
  }

  ghost predicate TimelyRun(steps: seq<Step>, limits: Limits, required: bool, lag: int) {
    forall i :: 0 <= i < |steps| ==> Timely(Run(INITIAL, steps[..i], limits, required), steps[i], lag)
  }

  /** A reservation is still in the table, or it is older than the retention. */
  ghost predicate Remembered(s: System) {
    forall id :: id in s.admitted ==>
      (id in s.rows && s.rows[id].claim == s.admitted[id]) || s.admitted[id].created < s.clock - RETENTION
  }

  lemma RecentClaimsAreVisible(s: System, claim: Claim)
    requires Remembered(s) && claim.created <= s.clock && s.clock - claim.created <= LONGEST_LAG
    ensures Visible(s.admitted, Forgotten(Purged(s.rows, claim.created), claim.created), claim)
  {
    KeptRows(s.rows, claim.created);
    assert StartOfDay(claim.created) > claim.created - DAY;
  }

  lemma LockKeepsHistory(s: System, id: Id, limits: Limits, required: bool)
    requires Invariant(s, limits, required) && Remembered(s) && WithinLimits(s.admitted, limits)
    requires id in s.calls && s.calls[id].phase.Waiting? && Timely(s, Lock(id), LONGEST_LAG)
    ensures var t := Next(s, Lock(id), limits, required); Remembered(t) && WithinLimits(t.admitted, limits)
  {
    assert Accounted(s, id, required);
    var call := s.calls[id];
    var claim := Claim(call.tenant, call.phase.start, call.units);
    var kept := Forgotten(Purged(s.rows, claim.created), claim.created);
    KeptRows(s.rows, claim.created);
    if Allowed(kept, limits, claim) {
      RecentClaimsAreVisible(s, claim);
      ReserveKeepsLimits(s.admitted, kept, limits, id, claim);
    }
  }

  lemma NextKeepsHistory(s: System, step: Step, limits: Limits, required: bool)
    requires Invariant(s, limits, required) && Remembered(s) && WithinLimits(s.admitted, limits)
    requires Timely(s, step, LONGEST_LAG)
    ensures var t := Next(s, step, limits, required); Remembered(t) && WithinLimits(t.admitted, limits)
  {
    if step.Finish? {
      assert Accounted(s, step.id, required);
    }
    if step.Lock? && step.id in s.calls && s.calls[step.id].phase.Waiting? {
      LockKeepsHistory(s, step.id, limits, required);
    }
  }

  lemma TimelyPrefix(steps: seq<Step>, limits: Limits, required: bool, lag: int)
    requires TimelyRun(steps, limits, required, lag) && steps != []
    ensures TimelyRun(steps[..|steps| - 1], limits, required, lag)
    ensures Timely(Run(INITIAL, steps[..|steps| - 1], limits, required), steps[|steps| - 1], lag)
  {
    var init := steps[..|steps| - 1];
    forall i | 0 <= i < |init| ensures Timely(Run(INITIAL, init[..i], limits, required), init[i], lag) {
      assert init[..i] == steps[..i];
    }
  }

  /** When no admission lags by more than the bound, the limits hold for everything ever reserved, purged or not. */
  lemma {:induction false} HistoryWithinLimits(steps: seq<Step>, limits: Limits, required: bool)
    requires TimelyRun(steps, limits, required, LONGEST_LAG)
    ensures var s := Run(INITIAL, steps, limits, required); Remembered(s) && WithinLimits(s.admitted, limits)
  {
    if steps == [] {
      NothingReserved(limits);
    } else {
      var init := steps[..|steps| - 1];
      TimelyPrefix(steps, limits, required, LONGEST_LAG);
      HistoryWithinLimits(init, limits, required);
      RunKeepsInvariant(init, limits, required);
      NextKeepsHistory(Run(INITIAL, init, limits, required), steps[|steps| - 1], limits, required);
    }
  }
}

/**
 The decision log (strategyos_mvp/decision_lifecycle.py) and its timing summary
 (strategyos_mvp/decision_velocity.py): an append-only table of events guarded by preconditions,
 a fold of the events into records, and a summary of the records.  One tenant and run is
 modelled; keys and actors are only compared, so they are numbers, None when blank.
 */
module DecisionLog {
  import opened Options
  import opened Seqs
  import opened Sorting

  type Time = int
  type Key = nat

  datatype Kind = Surfaced | Decided | ActionVerified

  datatype Choice = Approve | Decline | Hold | OtherChoice(text: nat)

  /** The fields of a payload the code reads; `rest` stands for all others, which comparison sees too. */
  datatype Payload = Payload(
    title: Option<nat>, choice: Option<Choice>, owner: Option<nat>,
    evidencePath: Option<nat>, evidenceSha: Option<nat>, rest: nat)

  datatype Event = Event(id: nat, decision: Key, kind: Kind, actor: nat, at: Time, payload: Payload, effect: nat)

  /** A request as it arrives: `kind` is None when unknown. */
  datatype Request = Request(decision: Option<Key>, kind: Option<Kind>, actor: Option<nat>, payload: Payload,
                             effect: Option<nat>)

  datatype Outcome =
    | Invalid | Conflict | NotSurfaced | NotApproved | NoEvidence | EffectTaken
    | Replay
    | Recorded(event: Event)

  // ----- The log -----

  ghost predicate Is(e: Event, d: Key, kind: Kind) { e.decision == d && e.kind == kind }

  /** The event of a decision and kind. */
  ghost function Find(log: seq<Event>, d: Key, kind: Kind): (r: Option<Event>)
    ensures r.Some? ==> r.value in log && Is(r.value, d, kind)
    ensures r == None <==> forall e :: e in log ==> !Is(e, d, kind)
  {
    if log == [] then None
    else if Is(log[0], d, kind) then Some(log[0])
    else Find(log[1..], d, kind)
  }

  ghost predicate HasEvidence(p: Payload) { p.evidencePath.Some? && p.evidenceSha.Some? }

  ghost predicate IdsIncrease(log: seq<Event>) {
    forall i, j :: 0 <= i < j < |log| ==> log[i].id < log[j].id
  }

  /** At most one event per decision and kind, and no effect key twice within a decision. */
  ghost predicate OnePerKind(log: seq<Event>) {
    forall i, j :: 0 <= i < j < |log| && log[i].decision == log[j].decision ==>
      log[i].kind != log[j].kind && log[i].effect != log[j].effect
  }

  /** What must already be in the log when an event is recorded. */
  ghost predicate Justified(earlier: seq<Event>, e: Event) {
    match e.kind
    case Surfaced => true
    case Decided => Find(earlier, e.decision, Surfaced).Some?
    case ActionVerified =>
      && HasEvidence(e.payload)
      && Find(earlier, e.decision, Decided).Some?
      && Find(earlier, e.decision, Decided).value.payload.choice == Some(Approve)
  }

  ghost predicate WellFormed(log: seq<Event>) {
    && IdsIncrease(log)
    && OnePerKind(log)
    && forall i :: 0 <= i < |log| ==> Justified(log[..i], log[i])
  }

  /** Why a request is not recorded, if it is not. */
  ghost function Objection(log: seq<Event>, r: Request): Option<Outcome> {
    if r.kind.None? || r.decision.None? || r.actor.None? || r.effect.None? then Some(Invalid)
    else
      var d, kind := r.decision.value, r.kind.value;
      var existing, decided := Find(log, d, kind), Find(log, d, Decided);
      if existing.Some? then Some(if existing.value.payload != r.payload then Conflict else Replay)
      else if kind == Decided && Find(log, d, Surfaced).None? then Some(NotSurfaced)
      else if kind == ActionVerified && (decided.None? || decided.value.payload.choice != Some(Approve))
      then Some(NotApproved)
      else if kind == ActionVerified && !HasEvidence(r.payload) then Some(NoEvidence)
      else if exists e :: e in log && e.decision == d && e.effect == r.effect.value then Some(EffectTaken)
      else None
  }

  function NewEvent(r: Request, id: nat, at: Time): Event
    requires r.kind.Some? && r.decision.Some? && r.actor.Some? && r.effect.Some?
  {
    Event(id, r.decision.value, r.kind.value, r.actor.value, at, r.payload, r.effect.value)
  }

  /** The log after a request: `id` is the number the insert draws from the sequence. */
  ghost function After(log: seq<Event>, r: Request, id: nat, at: Time): seq<Event> {
    if Objection(log, r).Some? then log else log + [NewEvent(r, id, at)]
  }

  class DecisionStore {
    var log: seq<Event>
    /** The last number drawn from the id sequence; numbers may be skipped, never reused. */
    var lastId: nat

    ghost predicate Valid()
      reads this
    {
      WellFormed(log) && forall e :: e in log ==> e.id <= lastId
    }

    constructor ()
      ensures Valid() && log == []
    {
      log, lastId := [], 0;
    }

    /** The kinds already recorded for a decision, with their payloads. */
    method Existing(d: Key) returns (existing: map<Kind, Payload>)
      requires OnePerKind(log)
      ensures forall kind :: kind in existing <==> Find(log, d, kind).Some?
      ensures forall kind :: kind in existing ==> existing[kind] == Find(log, d, kind).value.payload
    {
      existing := map[];
      for i := 0 to |log|
        invariant forall kind :: kind in existing ==>
            exists e :: e in log[..i] && Is(e, d, kind) && existing[kind] == e.payload
        invariant forall e :: e in log[..i] && e.decision == d ==> e.kind in existing
      {
        assert log[..i + 1] == log[..i] + [log[i]];
        if log[i].decision == d {
          assert Is(log[i], d, log[i].kind);
          existing := existing[log[i].kind := log[i].payload];
        }
      }
      assert log[..|log|] == log;
      forall kind ensures kind in existing <==> Find(log, d, kind).Some? {
        assert kind in existing ==> exists e :: e in log && Is(e, d, kind);
      }
      forall kind | kind in existing ensures existing[kind] == Find(log, d, kind).value.payload {
        var e :| e in log && Is(e, d, kind) && existing[kind] == e.payload;
        OneOfItsKind(log, e, Find(log, d, kind).value);
      }
    }

    method EffectUsed(d: Key, effect: nat) returns (used: bool)
      ensures used <==> exists e :: e in log && e.decision == d && e.effect == effect
    {
      used := false;
      for i := 0 to |log|
        invariant used <==> exists e :: e in log[..i] && e.decision == d && e.effect == effect
      {
        assert log[..i + 1] == log[..i] + [log[i]];
        if log[i].decision == d && log[i].effect == effect {
          used := true;
        }
      }
      assert log[..|log|] == log;
    }

    /** The checks under the lock, in order; the last one is the table's uniqueness constraint. */
    method Examine(r: Request) returns (objection: Option<Outcome>)
      requires OnePerKind(log)
      ensures objection == Objection(log, r)
    {
      if r.kind.None? || r.decision.None? || r.actor.None? || r.effect.None? {
        return Some(Invalid);
      }
      var d, kind := r.decision.value, r.kind.value;
      var existing := Existing(d);
      if kind in existing {
        return Some(if existing[kind] != r.payload then Conflict else Replay);
      }
      if kind == Decided && Surfaced !in existing {
        return Some(NotSurfaced);
      }
      if kind == ActionVerified {
        if Decided !in existing || existing[Decided].choice != Some(Approve) {
          return Some(NotApproved);
        }
        if r.payload.evidenceSha.None? || r.payload.evidencePath.None? {
          return Some(NoEvidence);
        }
      }
      var used := EffectUsed(d, r.effect.value);
      return if used then Some(EffectTaken) else None;
    }

    /** Record an event under the lock of its decision; `skipped` numbers of the id sequence went to others,
        and an insert that violates uniqueness still uses up its number. */
    method Append(r: Request, at: Time, skipped: nat) returns (outcome: Outcome)
      requires Valid()
      modifies this
      ensures Valid()
      ensures log == After(old(log), r, lastId, at)
      ensures lastId >= old(lastId)
      ensures outcome == match Objection(old(log), r)
                         case Some(objection) => objection
                         case None => Recorded(NewEvent(r, lastId, at))
    {
      var objection := Examine(r);
      if objection.Some? && objection != Some(EffectTaken) {
        return objection.value;
      }
      lastId := lastId + skipped + 1;
      if objection.Some? {
        return EffectTaken;
      }
      AppendKeepsWellFormed(log, r, lastId, at);
      log := log + [NewEvent(r, lastId, at)];
      return Recorded(NewEvent(r, lastId, at));
    }
  }

  lemma OneOfItsKind(log: seq<Event>, e: Event, f: Event)
    requires OnePerKind(log) && e in log && f in log && e.decision == f.decision && e.kind == f.kind
    ensures e == f
  {
  }

  lemma AppendKeepsOnePerKind(log: seq<Event>, e: Event)
    requires OnePerKind(log) && Find(log, e.decision, e.kind).None?
    requires forall f :: f in log && f.decision == e.decision ==> f.effect != e.effect
    ensures OnePerKind(log + [e])
  {
    var longer := log + [e];
    forall i, j | 0 <= i < j < |longer| && longer[i].decision == longer[j].decision
      ensures longer[i].kind != longer[j].kind && longer[i].effect != longer[j].effect
    {
      assert longer[i] == log[i] && log[i] in log;
      if j == |log| {
        assert !Is(log[i], e.decision, e.kind);
      } else {
        assert longer[j] == log[j];
      }
    }
  }

  lemma AppendKeepsJustified(log: seq<Event>, e: Event)
    requires forall i :: 0 <= i < |log| ==> Justified(log[..i], log[i])
    requires Justified(log, e)
    ensures forall i :: 0 <= i < |log + [e]| ==> Justified((log + [e])[..i], (log + [e])[i])
  {
    forall i | 0 <= i < |log + [e]| ensures Justified((log + [e])[..i], (log + [e])[i]) {
      assert (log + [e])[..i] == if i < |log| then log[..i] else log;
    }
  }

  /** Every recorded event leaves the log well formed. */
  lemma AppendKeepsWellFormed(log: seq<Event>, r: Request, id: nat, at: Time)
    requires WellFormed(log) && forall e :: e in log ==> e.id < id
    ensures WellFormed(After(log, r, id, at)) && log <= After(log, r, id, at)
  {
    if Objection(log, r).None? {
      var e := NewEvent(r, id, at);
      AppendKeepsOnePerKind(log, e);
      AppendKeepsJustified(log, e);
    }
  }

  // ----- Runs of requests -----

  /** One request of a history, with the number and the transaction time it gets. */
  datatype Draw = Draw(request: Request, id: nat, at: Time)

  ghost function Play(draws: seq<Draw>): seq<Event> {
    if draws == [] then []
    else
      var d := draws[|draws| - 1];
      After(Play(draws[..|draws| - 1]), d.request, d.id, d.at)
  }

  ghost predicate DrawnInOrder(draws: seq<Draw>) {
    forall i, j :: 0 <= i < j < |draws| ==> draws[i].id < draws[j].id
  }

  lemma {:induction false} LoggedIdsWereDrawn(draws: seq<Draw>, e: Event)
    requires e in Play(draws)
    ensures exists i :: 0 <= i < |draws| && draws[i].id == e.id
  {
    var init, d := draws[..|draws| - 1], draws[|draws| - 1];
    if e in Play(init) {
      LoggedIdsWereDrawn(init, e);
      var i :| 0 <= i < |init| && init[i].id == e.id;
      assert draws[i].id == e.id;
    } else {
      assert e == NewEvent(d.request, d.id, d.at);
    }
  }

  /** Recorded events never change: every earlier log is a prefix of every later one. */
  lemma {:induction false} LogsOnlyGrow(draws: seq<Draw>, n: nat)
    requires n <= |draws|
    ensures Play(draws[..n]) <= Play(draws)
  {
    if n == |draws| {
      assert draws[..n] == draws;
    } else {
      assert draws[..|draws| - 1][..n] == draws[..n];
      LogsOnlyGrow(draws[..|draws| - 1], n);
    }
  }

  /** Every reachable log is well formed. */
  lemma {:induction false} ReachableLogs(draws: seq<Draw>)
    requires DrawnInOrder(draws)
    ensures WellFormed(Play(draws))
  {
    if draws != [] {
      var init, d := draws[..|draws| - 1], draws[|draws| - 1];
      ReachableLogs(init);
      forall e | e in Play(init) ensures e.id < d.id {
        LoggedIdsWereDrawn(init, e);
      }
      AppendKeepsWellFormed(Play(init), d.request, d.id, d.at);
    }
  }

  /** In id order a decision follows its observation, and a verified action follows an approval and has evidence. */
  lemma EventsFollowTheirCause(log: seq<Event>, e: Event)
    requires WellFormed(log) && e in log
    ensures e.kind == Decided ==>
              exists s :: s in log && Is(s, e.decision, Surfaced) && s.id < e.id
    ensures e.kind == ActionVerified ==>
              && HasEvidence(e.payload)
              && exists d :: d in log && Is(d, e.decision, Decided) && d.payload.choice == Some(Approve) && d.id < e.id
  {
    var i :| 0 <= i < |log| && log[i] == e;
    assert Justified(log[..i], e);
    if e.kind == Decided {
      var s := Find(log[..i], e.decision, Surfaced).value;
      assert s in log && s.id < e.id;
    } else if e.kind == ActionVerified {
      var d := Find(log[..i], e.decision, Decided).value;
      assert d in log && d.id < e.id;
    }
  }

  // ----- What becomes of a request -----

  ghost predicate Complete(r: Request) {
    r.kind.Some? && r.decision.Some? && r.actor.Some? && r.effect.Some?
  }

  /** An event of the request's decision and kind. */
  ghost predicate Answers(e: Event, r: Request) {
    Some(e.decision) == r.decision && Some(e.kind) == r.kind
  }

  lemma AnswerIsFound(log: seq<Event>, r: Request, e: Event)
    requires OnePerKind(log) && Complete(r) && e in log && Answers(e, r)
    ensures Find(log, r.decision.value, r.kind.value) == Some(e)
  {
    assert Is(e, r.decision.value, r.kind.value);
    OneOfItsKind(log, e, Find(log, r.decision.value, r.kind.value).value);
  }

  /** A complete request is a replay exactly when its event is in the log with the same payload, and a conflict
      exactly when one with another payload is. */
  lemma ReplayExactly(log: seq<Event>, r: Request)
    requires OnePerKind(log) && Complete(r)
    ensures Objection(log, r) == Some(Replay) <==> exists e :: e in log && Answers(e, r) && e.payload == r.payload
    ensures Objection(log, r) == Some(Conflict) <==> exists e :: e in log && Answers(e, r) && e.payload != r.payload
  {
    forall e | e in log && Answers(e, r)
      ensures Objection(log, r) == Some(if e.payload == r.payload then Replay else Conflict)
    {
      AnswerIsFound(log, r, e);
    }
    var found := Find(log, r.decision.value, r.kind.value);
    assert found.Some? ==> found.value in log && Answers(found.value, r);
  }

  /** A request is recorded exactly when it is complete, nothing answers it yet, the log justifies its event and no
      event of its decision has its effect key. */
  lemma RecordedExactly(log: seq<Event>, r: Request, id: nat, at: Time)
    ensures Objection(log, r).None? <==>
            && Complete(r)
            && (forall e :: e in log ==> !Answers(e, r))
            && Justified(log, NewEvent(r, id, at))
            && (forall e :: e in log && Some(e.decision) == r.decision ==> Some(e.effect) != r.effect)
  {
    if Complete(r) {
      var d, kind := r.decision.value, r.kind.value;
      forall e ensures Is(e, d, kind) <==> Answers(e, r) {
      }
    }
  }

  /** What is recorded is what was requested, under the number and the time drawn for it. */
  lemma RecordedTells(log: seq<Event>, r: Request, id: nat, at: Time)
    requires Objection(log, r).None?
    ensures After(log, r, id, at)[..|log|] == log && |After(log, r, id, at)| == |log| + 1
    ensures var e := After(log, r, id, at)[|log|];
            && e.id == id && e.at == at && Answers(e, r) && e.payload == r.payload
            && Some(e.actor) == r.actor && Some(e.effect) == r.effect
  {
  }

  /** An approval of the request's decision. */
  ghost predicate Approves(e: Event, r: Request) {
    Some(e.decision) == r.decision && e.kind == Decided && e.payload.choice == Some(Approve)
  }

  /** Why a request that nothing answers yet is refused. */
  lemma RefusedExactly(log: seq<Event>, r: Request)
    requires OnePerKind(log) && (forall e :: e in log ==> !Answers(e, r))
    ensures Objection(log, r) == Some(Invalid) <==> !Complete(r)
    ensures Objection(log, r) == Some(NotSurfaced) <==>
            && Complete(r) && r.kind == Some(Decided)
            && (forall e :: e in log && Some(e.decision) == r.decision ==> e.kind != Surfaced)
    ensures Objection(log, r) == Some(NotApproved) <==>
            && Complete(r) && r.kind == Some(ActionVerified) && (forall e :: e in log ==> !Approves(e, r))
    ensures Objection(log, r) == Some(NoEvidence) <==>
            && Complete(r) && r.kind == Some(ActionVerified) && (exists e :: e in log && Approves(e, r))
            && (r.payload.evidencePath.None? || r.payload.evidenceSha.None?)
  {
    if Complete(r) {
      var d := r.decision.value;
      assert Find(log, d, r.kind.value).None? by {
        assert forall e :: e in log ==> (Is(e, d, r.kind.value) <==> Answers(e, r));
      }
      assert Find(log, d, Surfaced).None? <==> forall e :: e in log && e.decision == d ==> e.kind != Surfaced by {
        assert forall e :: Is(e, d, Surfaced) <==> e.decision == d && e.kind == Surfaced;
      }
      DecidedOnce(log, r, d);
    }
  }

  lemma DecidedOnce(log: seq<Event>, r: Request, d: Key)
    requires OnePerKind(log) && r.decision == Some(d)
    ensures (exists e :: e in log && Approves(e, r)) <==>
            Find(log, d, Decided).Some? && Find(log, d, Decided).value.payload.choice == Some(Approve)
  {
    var decided := Find(log, d, Decided);
    forall e | e in log && Approves(e, r) ensures decided == Some(e) {
      assert Is(e, d, Decided);
      OneOfItsKind(log, e, decided.value);
    }
    if decided.Some? && decided.value.payload.choice == Some(Approve) {
      assert decided.value in log && Approves(decided.value, r);
    }
  }

  lemma RecordedStays(draws: seq<Draw>, i: nat)
    requires i < |draws| && Objection(Play(draws[..i]), draws[i].request).None?
    ensures NewEvent(draws[i].request, draws[i].id, draws[i].at) in Play(draws)
  {
    var e := NewEvent(draws[i].request, draws[i].id, draws[i].at);
    assert draws[..i + 1][..i] == draws[..i];
    assert Play(draws[..i + 1]) == Play(draws[..i]) + [e];
    LogsOnlyGrow(draws, i + 1);
    assert Play(draws)[|Play(draws[..i])|] == e;
  }

  /** Once a request is recorded, repeating it replays and changes nothing, however much later; the same decision and
      kind with another payload is a conflict. */
  lemma RepeatsReplay(draws: seq<Draw>, i: nat, r: Request, id: nat, at: Time)
    requires DrawnInOrder(draws) && i < |draws| && Objection(Play(draws[..i]), draws[i].request).None?
    requires Complete(r) && r.decision == draws[i].request.decision && r.kind == draws[i].request.kind
    ensures Objection(Play(draws), r) == Some(if r.payload == draws[i].request.payload then Replay else Conflict)
    ensures After(Play(draws), r, id, at) == Play(draws)
  {
    RecordedStays(draws, i);
    assert OnePerKind(Play(draws)) by {
      ReachableLogs(draws);
    }
    AnswerIsFound(Play(draws), r, NewEvent(draws[i].request, draws[i].id, draws[i].at));
  }

  // ----- Reading the log into records -----

  datatype Record = Record(
    decision: Key, eventIds: seq<nat>,
    surfacedAt: Option<Time>, title: Option<nat>,
    decidedAt: Option<Time>, choice: Option<Choice>, owner: Option<nat>,
    firstActionAt: Option<Time>, actionVerified: bool)

  /** ORDER BY occurred_at, id */
  predicate Earlier(a: Event, b: Event) {
    a.at < b.at || (a.at == b.at && a.id <= b.id)
  }

  function Blank(d: Key): Record {
    Record(d, [], None, None, None, None, None, None, false)
  }

  function Update(r: Record, e: Event): Record {
    var r := r.(eventIds := r.eventIds + [e.id]);
    match e.kind
    case Surfaced => r.(surfacedAt := Some(e.at), title := e.payload.title)
    case Decided => r.(decidedAt := Some(e.at), choice := e.payload.choice, owner := e.payload.owner)
    case ActionVerified => r.(firstActionAt := Some(e.at), actionVerified := true)
  }

  /** The record of one decision, from its events in reading order. */
  ghost function RecordFor(events: seq<Event>, d: Key): Record {
    if events == [] then Blank(d)
    else
      var r, e := RecordFor(events[..|events| - 1], d), events[|events| - 1];
      if e.decision == d then Update(r, e) else r
  }

  /** The decisions in the order of their first event. */
  ghost function Decisions(events: seq<Event>): (keys: seq<Key>)
    ensures forall k :: k in keys <==> exists e :: e in events && e.decision == k
    ensures forall i, j :: 0 <= i < j < |keys| ==> keys[i] != keys[j]
  {
    if events == [] then []
    else
      var keys, e := Decisions(events[..|events| - 1]), events[|events| - 1];
      if e.decision in keys then keys else keys + [e.decision]
  }

  ghost predicate ReadsAs(events: seq<Event>, records: seq<Record>) {
    && |records| == |Decisions(events)|
    && forall i :: 0 <= i < |records| ==> records[i] == RecordFor(events, Decisions(events)[i])
  }

  ghost predicate Folded(events: seq<Event>, order: seq<Key>, records: map<Key, Record>) {
    && order == Decisions(events)
    && (forall k :: k in records <==> k in order)
    && (forall k :: k in records ==> records[k] == RecordFor(events, k))
  }

  function Enter(records: map<Key, Record>, e: Event): map<Key, Record> {
    records[e.decision := Update(if e.decision in records then records[e.decision] else Blank(e.decision), e)]
  }

  lemma EnterNext(events: seq<Event>, order: seq<Key>, records: map<Key, Record>, e: Event)
    requires Folded(events, order, records)
    ensures Folded(events + [e], if e.decision in records then order else order + [e.decision], Enter(records, e))
  {
    assert (events + [e])[..|events|] == events;
    if e.decision !in records {
      NoEventsYet(events, e.decision);
    }
  }

  /** The fold over the ordered events; `records` is a dictionary in insertion order. */
  method Read(log: seq<Event>) returns (result: seq<Record>)
    ensures ReadsAs(SortBy(log, Earlier), result)
  {
    var events := SortBy(log, Earlier);
    var order: seq<Key> := [];
    var records: map<Key, Record> := map[];
    for i := 0 to |events|
      invariant Folded(events[..i], order, records)
    {
      assert events[..i + 1] == events[..i] + [events[i]];
      EnterNext(events[..i], order, records, events[i]);
      if events[i].decision !in records {
        order := order + [events[i].decision];
      }
      records := Enter(records, events[i]);
    }
    assert events[..|events|] == events;
    result := Values(order, records);
  }

  function Values(order: seq<Key>, records: map<Key, Record>): (r: seq<Record>)
    requires forall k :: k in order ==> k in records
    ensures |r| == |order| && forall i :: 0 <= i < |r| ==> r[i] == records[order[i]]
  {
    if order == [] then [] else [records[order[0]]] + Values(order[1..], records)
  }

  lemma {:induction false} NoEventsYet(events: seq<Event>, d: Key)
    requires forall e :: e in events ==> e.decision != d
    ensures RecordFor(events, d) == Blank(d)
  {
    if events != [] {
      assert events[|events| - 1] in events;
      NoEventsYet(events[..|events| - 1], d);
    }
  }

  function AtOf(e: Option<Event>): Option<Time> {
    if e.Some? then Some(e.value.at) else None
  }

  /** What a record says, in terms of the decision's events: the reading order does not matter. */
  ghost predicate Tells(r: Record, events: seq<Event>, d: Key) {
    var surfaced, decided := Find(events, d, Surfaced), Find(events, d, Decided);
    && r.decision == d
    && r.surfacedAt == AtOf(surfaced)
    && r.title == (if surfaced.Some? then surfaced.value.payload.title else None)
    && r.decidedAt == AtOf(decided)
    && r.choice == (if decided.Some? then decided.value.payload.choice else None)
    && r.owner == (if decided.Some? then decided.value.payload.owner else None)
    && r.firstActionAt == AtOf(Find(events, d, ActionVerified))
    && r.actionVerified == Find(events, d, ActionVerified).Some?
  }

  ghost predicate OneOfEach(events: seq<Event>) {
    forall e, f :: e in events && f in events && e.decision == f.decision && e.kind == f.kind ==> e == f
  }

  lemma {:induction false} FindAppend(events: seq<Event>, e: Event, d: Key, kind: Kind)
    requires Is(e, d, kind) ==> Find(events, d, kind).None? || Find(events, d, kind) == Some(e)
    ensures Find(events + [e], d, kind) == if Is(e, d, kind) then Some(e) else Find(events, d, kind)
  {
    if events == [] {
      assert events + [e] == [e];
      assert Find([e][1..], d, kind) == None;
    } else {
      assert (events + [e])[1..] == events[1..] + [e];
      if !Is(events[0], d, kind) {
        FindAppend(events[1..], e, d, kind);
      }
    }
  }

  /** The three events a record is about, as one more is read. */
  lemma FindNext(events: seq<Event>, e: Event, d: Key, kind: Kind)
    requires OneOfEach(events + [e])
    ensures Find(events + [e], d, kind) == if Is(e, d, kind) then Some(e) else Find(events, d, kind)
  {
    var found := Find(events, d, kind);
    assert found.Some? ==> found.value in events + [e];
    assert e in events + [e];
    FindAppend(events, e, d, kind);
  }

  lemma TellsNext(r: Record, events: seq<Event>, e: Event, d: Key)
    requires OneOfEach(events + [e]) && Tells(r, events, d)
    ensures Tells(if e.decision == d then Update(r, e) else r, events + [e], d)
  {
    FindNext(events, e, d, Surfaced);
    FindNext(events, e, d, Decided);
    FindNext(events, e, d, ActionVerified);
  }

  lemma {:induction false} RecordTells(events: seq<Event>, d: Key)
    requires OneOfEach(events)
    ensures Tells(RecordFor(events, d), events, d)
  {
    if events != [] {
      var init, e := events[..|events| - 1], events[|events| - 1];
      assert events == init + [e];
      assert forall f :: f in init ==> f in events;
      RecordTells(init, d);
      TellsNext(RecordFor(init, d), init, e, d);
    }
  }

  /** In a well-formed log the record of a decision tells what its events say, whatever order they were read in. */
  lemma RecordTellsLog(log: seq<Event>, events: seq<Event>, d: Key)
    requires OnePerKind(log) && SameBag(log, events)
    ensures Tells(RecordFor(events, d), log, d)
  {
    SameBagMembers(log, events);
    forall e, f | e in events && f in events && e.decision == f.decision && e.kind == f.kind ensures e == f {
      OneOfItsKind(log, e, f);
    }
    RecordTells(events, d);
    forall kind ensures Find(events, d, kind) == Find(log, d, kind) {
      if Find(events, d, kind).Some? && Find(log, d, kind).Some? {
        OneOfItsKind(log, Find(events, d, kind).value, Find(log, d, kind).value);
      }
    }
  }

  function ForDecision(d: Key): Event -> bool { (e: Event) => e.decision == d }

  function IdsOf(events: seq<Event>): (ids: seq<nat>)
    ensures |ids| == |events| && forall i :: 0 <= i < |ids| ==> ids[i] == events[i].id
  {
    if events == [] then [] else IdsOf(events[..|events| - 1]) + [events[|events| - 1].id]
  }

  lemma {:induction false} RecordIds(events: seq<Event>, d: Key)
    ensures RecordFor(events, d).eventIds == IdsOf(Filter(events, ForDecision(d)))
  {
    if events != [] {
      RecordIds(events[..|events| - 1], d);
    }
  }

  lemma EarlierIsOrder()
    ensures Connected(Earlier) && Transitive(Earlier)
  {
  }

  /** The event ids of a record are those of the decision's events, each once, by time and then id. */
  lemma RecordListsEvents(log: seq<Event>, events: seq<Event>, d: Key)
    requires events == SortBy(log, Earlier)
    ensures var mine := Filter(events, ForDecision(d));
            && RecordFor(events, d).eventIds == IdsOf(mine)
            && Sorted(mine, Earlier) && SameBag(mine, Filter(log, ForDecision(d)))
  {
    RecordIds(events, d);
    EarlierIsOrder();
    SortBySorts(log, Earlier);
    FilterKeepsOrder(events, ForDecision(d), Earlier);
    FilterPermutation(events, log, ForDecision(d));
  }

  // ----- The timing summary -----

  datatype PendingState = OnHold | AwaitingVerifiedAction | AwaitingDecision

  datatype Pending = Pending(decision: Key, state: PendingState, age: Time, eventIds: seq<nat>)

  datatype Summary = Summary(decisionTimes: seq<Time>, actionTimes: seq<Time>, pending: seq<Pending>, invalid: seq<Key>)

  function Acted(r: Record): Option<Time> {
    if r.actionVerified then r.firstActionAt else None
  }

  /** An action before its decision, or a decision before its observation. */
  predicate BadChronology(r: Record) {
    || (r.decidedAt.Some? && Acted(r).Some? && Acted(r).value < r.decidedAt.value)
    || (r.surfacedAt.Some? && r.decidedAt.Some? && r.decidedAt.value < r.surfacedAt.value)
  }

  /** What still waits: seen or decided, not declined, and without a verified action. */
  predicate StillPending(r: Record) {
    (r.decidedAt.Some? || r.surfacedAt.Some?) && Acted(r).None? && r.choice != Some(Decline)
  }

  function PendingOf(r: Record, now: Time): Pending
    requires StillPending(r)
  {
    var start := if r.decidedAt.Some? then r.decidedAt.value else r.surfacedAt.value;
    Pending(r.decision,
            if r.choice == Some(Hold) then OnHold
            else if r.decidedAt.Some? then AwaitingVerifiedAction
            else AwaitingDecision,
            if now < start then 0 else now - start, r.eventIds)
  }

  // What one record adds to each of the four lists; a bad chronology adds to `invalid` alone.

  function DecisionTime(r: Record): Option<Time> {
    if !BadChronology(r) && r.surfacedAt.Some? && r.decidedAt.Some?
    then Some(r.decidedAt.value - r.surfacedAt.value)
    else None
  }

  function ActionTime(r: Record): Option<Time> {
    if !BadChronology(r) && r.decidedAt.Some? && Acted(r).Some? then Some(Acted(r).value - r.decidedAt.value) else None
  }

  function PendingFor(now: Time): Record -> Option<Pending> {
    (r: Record) => if !BadChronology(r) && StillPending(r) then Some(PendingOf(r, now)) else None
  }

  function InvalidKey(r: Record): Option<Key> {
    if BadChronology(r) then Some(r.decision) else None
  }

  ghost predicate Summarizes(records: seq<Record>, now: Time, s: Summary) {
    && s.decisionTimes == Collect(records, DecisionTime)
    && s.actionTimes == Collect(records, ActionTime)
    && s.pending == Collect(records, PendingFor(now))
    && s.invalid == Collect(records, InvalidKey)
  }

  /** One round of the loop: a bad chronology is raised before anything is collected. */
  function AddRecord(s: Summary, r: Record, now: Time): Summary {
    var acted := Acted(r);
    if r.decidedAt.Some? && acted.Some? && acted.value < r.decidedAt.value then
      s.(invalid := s.invalid + [r.decision])
    else if r.surfacedAt.Some? && r.decidedAt.Some? && r.decidedAt.value < r.surfacedAt.value then
      s.(invalid := s.invalid + [r.decision])
    else
      Summary(
        if r.surfacedAt.Some? && r.decidedAt.Some?
        then s.decisionTimes + [r.decidedAt.value - r.surfacedAt.value]
        else s.decisionTimes,
        if r.decidedAt.Some? && acted.Some? then s.actionTimes + [acted.value - r.decidedAt.value] else s.actionTimes,
        if StillPending(r) then s.pending + [PendingOf(r, now)] else s.pending,
        s.invalid)
  }

  function Added<T>(s: seq<T>, more: Option<T>): seq<T> {
    if more.Some? then s + [more.value] else s
  }

  /** Each list gets what the record has for it. */
  lemma AddRecordAdds(s: Summary, r: Record, now: Time)
    ensures AddRecord(s, r, now) ==
            Summary(Added(s.decisionTimes, DecisionTime(r)), Added(s.actionTimes, ActionTime(r)),
                    Added(s.pending, PendingFor(now)(r)), Added(s.invalid, InvalidKey(r)))
  {
  }

  lemma AddRecordCollects(records: seq<Record>, r: Record, now: Time, s: Summary)
    requires Summarizes(records, now, s)
    ensures Summarizes(records + [r], now, AddRecord(s, r, now))
  {
    AddRecordAdds(s, r, now);
    CollectAppend(records, r, DecisionTime);
    CollectAppend(records, r, ActionTime);
    CollectAppend(records, r, PendingFor(now));
    CollectAppend(records, r, InvalidKey);
  }

  method Summarize(records: seq<Record>, now: Time) returns (s: Summary)
    ensures Summarizes(records, now, s)
  {
    s := Summary([], [], [], []);
    for i := 0 to |records|
      invariant Summarizes(records[..i], now, s)
    {
      assert records[..i + 1] == records[..i] + [records[i]];
      AddRecordCollects(records[..i], records[i], now, s);
      s := AddRecord(s, records[i], now);
    }
    assert records[..|records|] == records;
  }

  // ----- What the summary of a reachable log says -----

  ghost predicate InLog(log: seq<Event>, d: Key) {
    exists e :: e in log && e.decision == d
  }

  /** The events of a decision are dated against their order. */
  ghost predicate Misdated(log: seq<Event>, d: Key) {
    var surfaced, decided, acted := Find(log, d, Surfaced), Find(log, d, Decided), Find(log, d, ActionVerified);
    || (decided.Some? && acted.Some? && acted.value.at < decided.value.at)
    || (surfaced.Some? && decided.Some? && decided.value.at < surfaced.value.at)
  }

  /** Not declined and without a verified action. */
  ghost predicate Open(log: seq<Event>, d: Key) {
    var decided := Find(log, d, Decided);
    && Find(log, d, ActionVerified).None?
    && !(decided.Some? && decided.value.payload.choice == Some(Decline))
  }

  ghost predicate Lists(pending: seq<Pending>, d: Key) {
    exists p :: p in pending && p.decision == d
  }

  /** An event's cause is in the log under a smaller id. */
  ghost predicate HasCause(log: seq<Event>, e: Event, kind: Kind) {
    exists c :: c in log && Is(c, e.decision, kind) && c.id < e.id
  }

  ghost predicate CausesPrecede(log: seq<Event>) {
    forall e :: e in log ==>
      && (e.kind == Decided ==> HasCause(log, e, Surfaced))
      && (e.kind == ActionVerified ==> HasCause(log, e, Decided))
  }

  lemma CausesPrecedeInLog(log: seq<Event>)
    requires WellFormed(log)
    ensures CausesPrecede(log)
  {
    forall e | e in log
      ensures e.kind == Decided ==> HasCause(log, e, Surfaced)
      ensures e.kind == ActionVerified ==> HasCause(log, e, Decided)
    {
      EventsFollowTheirCause(log, e);
    }
  }

  lemma EveryDecisionWasSurfaced(log: seq<Event>, d: Key)
    requires CausesPrecede(log) && InLog(log, d)
    ensures Find(log, d, Surfaced).Some?
  {
    var e :| e in log && e.decision == d;
    if e.kind == ActionVerified {
      var f :| f in log && Is(f, d, Decided);
      assert HasCause(log, f, Surfaced);
    }
    assert exists s :: s in log && Is(s, d, Surfaced);
  }

  lemma RecordOfDecision(log: seq<Event>, events: seq<Event>, records: seq<Record>, d: Key) returns (r: Record)
    requires OnePerKind(log) && events == SortBy(log, Earlier) && ReadsAs(events, records) && InLog(log, d)
    ensures r in records && r.decision == d && Tells(r, log, d)
  {
    SameBagMembers(log, events);
    var e :| e in log && e.decision == d;
    assert e in events && d in Decisions(events);
    var i :| 0 <= i < |Decisions(events)| && Decisions(events)[i] == d;
    RecordTellsLog(log, events, d);
    r := records[i];
  }

  lemma RecordsAreOfDecisions(log: seq<Event>, events: seq<Event>, records: seq<Record>, r: Record)
    requires OnePerKind(log) && events == SortBy(log, Earlier) && ReadsAs(events, records) && r in records
    ensures InLog(log, r.decision) && Tells(r, log, r.decision)
  {
    SameBagMembers(log, events);
    var i :| 0 <= i < |records| && records[i] == r;
    var d := Decisions(events)[i];
    assert d in Decisions(events);
    RecordTellsLog(log, events, d);
    var e :| e in events && e.decision == d;
    assert e in log;
  }

  lemma TellsMisdated(r: Record, log: seq<Event>, d: Key)
    requires Tells(r, log, d)
    ensures BadChronology(r) <==> Misdated(log, d)
  {
  }

  lemma InvalidExactly(log: seq<Event>, events: seq<Event>, records: seq<Record>, s: Summary, d: Key)
    requires OnePerKind(log) && events == SortBy(log, Earlier) && ReadsAs(events, records)
    requires s.invalid == Collect(records, InvalidKey)
    ensures d in s.invalid <==> InLog(log, d) && Misdated(log, d)
  {
    if d in s.invalid {
      var r :| r in records && InvalidKey(r) == Some(d);
      RecordsAreOfDecisions(log, events, records, r);
      TellsMisdated(r, log, d);
    }
    if InLog(log, d) && Misdated(log, d) {
      var r := RecordOfDecision(log, events, records, d);
      TellsMisdated(r, log, d);
      assert InvalidKey(r) == Some(d);
    }
  }

  lemma PendingAreOpen(log: seq<Event>, events: seq<Event>, records: seq<Record>, now: Time, s: Summary, d: Key)
    requires OnePerKind(log)
    requires events == SortBy(log, Earlier) && ReadsAs(events, records)
    requires s.pending == Collect(records, PendingFor(now))
    requires Lists(s.pending, d)
    ensures InLog(log, d) && !Misdated(log, d) && Open(log, d)
  {
    var p :| p in s.pending && p.decision == d;
    var r :| r in records && PendingFor(now)(r) == Some(p);
    RecordsAreOfDecisions(log, events, records, r);
  }

  lemma OpenArePending(log: seq<Event>, events: seq<Event>, records: seq<Record>, now: Time, s: Summary, d: Key)
    requires OnePerKind(log) && CausesPrecede(log)
    requires events == SortBy(log, Earlier) && ReadsAs(events, records)
    requires s.pending == Collect(records, PendingFor(now))
    requires InLog(log, d) && !Misdated(log, d) && Open(log, d)
    ensures Lists(s.pending, d)
  {
    var r := RecordOfDecision(log, events, records, d);
    EveryDecisionWasSurfaced(log, d);
    OpenRecord(log, r, d);
    assert PendingFor(now)(r) == Some(PendingOf(r, now));
    assert PendingOf(r, now) in s.pending;
  }

  lemma OpenRecord(log: seq<Event>, r: Record, d: Key)
    requires Tells(r, log, d) && Find(log, d, Surfaced).Some? && !Misdated(log, d) && Open(log, d)
    ensures !BadChronology(r) && StillPending(r)
  {
  }

  /** Reading and summarizing a well-formed log: the invalid decisions are exactly the misdated ones, and the
      pending ones are exactly those that are well dated, not declined and without a verified action. */
  lemma SummaryOfLog(log: seq<Event>, events: seq<Event>, records: seq<Record>, now: Time, s: Summary, d: Key)
    requires WellFormed(log) && events == SortBy(log, Earlier) && ReadsAs(events, records)
    requires Summarizes(records, now, s)
    ensures d in s.invalid <==> InLog(log, d) && Misdated(log, d)
    ensures Lists(s.pending, d) <==> InLog(log, d) && !Misdated(log, d) && Open(log, d)
  {
    CausesPrecedeInLog(log);
    InvalidExactly(log, events, records, s, d);
    if Lists(s.pending, d) {
      PendingAreOpen(log, events, records, now, s, d);
    } else if InLog(log, d) && !Misdated(log, d) && Open(log, d) {
      OpenArePending(log, events, records, now, s, d);
    }
  }

  function PendingKey(p: Pending): Key { p.decision }

  function RecordKey(r: Record): Key { r.decision }

  /** What is listed as pending for a decision, in terms of the log: `events` are its events in reading order. */
  ghost function PendingIn(log: seq<Event>, events: seq<Event>, now: Time, d: Key): Pending {
    var surfaced, decided := Find(log, d, Surfaced), Find(log, d, Decided);
    var start := if decided.Some? then decided.value.at else if surfaced.Some? then surfaced.value.at else now;
    Pending(d,
            if decided.None? then AwaitingDecision
            else if decided.value.payload.choice == Some(Hold) then OnHold else AwaitingVerifiedAction,
            if now < start then 0 else now - start, IdsOf(Filter(events, ForDecision(d))))
  }

  lemma RecordsDiffer(log: seq<Event>, events: seq<Event>, records: seq<Record>)
    requires OnePerKind(log) && events == SortBy(log, Earlier) && ReadsAs(events, records)
    ensures KeysDiffer(records, RecordKey)
  {
    forall i | 0 <= i < |records| ensures records[i].decision == Decisions(events)[i] {
      RecordTellsLog(log, events, Decisions(events)[i]);
    }
    forall a, b | TwoOf(records, a, b) ensures a.decision != b.decision {
      var i, j := PlacesOf(records, a, b);
    }
  }

  lemma RecordIsListed(log: seq<Event>, events: seq<Event>, records: seq<Record>, r: Record, now: Time)
    requires OnePerKind(log) && events == SortBy(log, Earlier) && ReadsAs(events, records) && r in records
    requires StillPending(r)
    ensures PendingOf(r, now) == PendingIn(log, events, now, r.decision)
  {
    var i :| 0 <= i < |records| && records[i] == r;
    var d := Decisions(events)[i];
    assert Tells(r, log, d) by {
      RecordTellsLog(log, events, d);
    }
    assert r.eventIds == IdsOf(Filter(events, ForDecision(d))) by {
      RecordIds(events, d);
    }
    ToldIsListed(log, events, r, d, now);
  }

  lemma ToldIsListed(log: seq<Event>, events: seq<Event>, r: Record, d: Key, now: Time)
    requires Tells(r, log, d) && r.eventIds == IdsOf(Filter(events, ForDecision(d))) && StillPending(r)
    ensures PendingOf(r, now) == PendingIn(log, events, now, r.decision)
  {
  }

  /** Each decision is listed as pending at most once, with its state, age and events as the log has them. */
  lemma PendingEntries(log: seq<Event>, events: seq<Event>, records: seq<Record>, now: Time, s: Summary)
    requires OnePerKind(log) && events == SortBy(log, Earlier) && ReadsAs(events, records)
    requires s.pending == Collect(records, PendingFor(now))
    ensures KeysDiffer(s.pending, PendingKey)
    ensures forall p :: p in s.pending ==> p == PendingIn(log, events, now, p.decision)
  {
    RecordsDiffer(log, events, records);
    CollectKeepsKeys(records, PendingFor(now), RecordKey, PendingKey);
    forall p | p in s.pending ensures p == PendingIn(log, events, now, p.decision) {
      var r :| r in records && PendingFor(now)(r) == Some(p);
      RecordIsListed(log, events, records, r, now);
    }
  }

  ghost predicate TimesFollowIds(log: seq<Event>) {
    forall e, f :: e in log && f in log && e.id < f.id ==> e.at <= f.at
  }

  /** When times follow the ids nothing is misdated: no invalid chronology, and pending is exactly what is open. */
  lemma ChronologyOfOrderedLog(log: seq<Event>, events: seq<Event>, records: seq<Record>, now: Time, s: Summary)
    requires WellFormed(log) && TimesFollowIds(log)
    requires events == SortBy(log, Earlier) && ReadsAs(events, records) && Summarizes(records, now, s)
    ensures s.invalid == []
    ensures forall d :: Lists(s.pending, d) <==> InLog(log, d) && Open(log, d)
  {
    CausesPrecedeInLog(log);
    forall d ensures !Misdated(log, d) {
      NothingMisdated(log, d);
    }
    forall d
      ensures d !in s.invalid
      ensures Lists(s.pending, d) <==> InLog(log, d) && Open(log, d)
    {
      SummaryOfLog(log, events, records, now, s, d);
    }
    NonEmpty(s.invalid);
  }

  lemma CauseIsEarlier(log: seq<Event>, e: Event, cause: Kind)
    requires OnePerKind(log) && CausesPrecede(log) && TimesFollowIds(log) && e in log
    requires (e.kind == Decided && cause == Surfaced) || (e.kind == ActionVerified && cause == Decided)
    ensures Find(log, e.decision, cause).Some? && Find(log, e.decision, cause).value.at <= e.at
  {
    var c :| c in log && Is(c, e.decision, cause) && c.id < e.id;
    OneOfItsKind(log, c, Find(log, e.decision, cause).value);
  }

  lemma NothingMisdated(log: seq<Event>, d: Key)
    requires OnePerKind(log) && CausesPrecede(log) && TimesFollowIds(log)
    ensures !Misdated(log, d)
  {
    var decided, acted := Find(log, d, Decided), Find(log, d, ActionVerified);
    if decided.Some? {
      CauseIsEarlier(log, decided.value, Surfaced);
    }
    if acted.Some? {
      CauseIsEarlier(log, acted.value, Decided);
    }
  }
}

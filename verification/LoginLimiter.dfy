/**
 The sliding-window login limiter (strategyos_mvp/idp.py): at most ten accepted attempts per
 client in any closed minute of a monotonic clock.
 */
module LoginLimiter {
  import opened Options
  import opened Seqs

  const LOGIN_RATE_LIMIT_ATTEMPTS: nat := 10
  const LOGIN_RATE_LIMIT_WINDOW_SECONDS: real := 60.0

  /** Clients are only compared with each other. */
  type Client = nat

  type Store = map<Client, seq<real>>

  function Since(start: real): real -> bool { (t: real) => t >= start }

  function Attempts(store: Store, client: Client): seq<real> {
    if client in store then store[client] else []
  }

  /** The attempts still inside the window that ends now. */
  function Recent(store: Store, client: Client, now: real): seq<real> {
    Filter(Attempts(store, client), Since(now - LOGIN_RATE_LIMIT_WINDOW_SECONDS))
  }

  predicate Admits(store: Store, client: Client, now: real) {
    |Recent(store, client, now)| < LOGIN_RATE_LIMIT_ATTEMPTS
  }

  /** The store after an attempt: the pruned list, with the attempt when it is accepted. */
  function After(store: Store, client: Client, now: real): Store {
    var recent := Recent(store, client, now);
    store[client := if Admits(store, client, now) then recent + [now] else recent]
  }

  /** The comprehension that drops the attempts before the window. */
  method Prune(known: seq<real>, windowStart: real) returns (attempts: seq<real>)
    ensures attempts == Filter(known, Since(windowStart))
  {
    attempts := [];
    for i := 0 to |known|
      invariant attempts == Filter(known[..i], Since(windowStart))
    {
      FilterNext(known, i, Since(windowStart));
      if known[i] >= windowStart {
        attempts := attempts + [known[i]];
      }
    }
    assert known[..|known|] == known;
  }

  class Limiter {
    var store: Store

    constructor ()
      ensures store == map[]
    {
      store := map[];
    }

    /** False stands for the 429 response. */
    method Enforce(client: Client, now: real) returns (accepted: bool)
      modifies this
      ensures accepted == Admits(old(store), client, now)
      ensures store == After(old(store), client, now)
    {
      var windowStart := now - LOGIN_RATE_LIMIT_WINDOW_SECONDS;
      var known := if client in store then store[client] else [];
      var attempts := Prune(known, windowStart);
      assert attempts == Recent(store, client, now);
      if |attempts| >= LOGIN_RATE_LIMIT_ATTEMPTS {
        store := store[client := attempts];
        return false;
      }
      attempts := attempts + [now];
      store := store[client := attempts];
      return true;
    }
  }

  // ----- Runs -----

  datatype Call = Call(client: Client, now: real)

  /** The store, and the calls accepted so far. */
  datatype Run = Run(store: Store, accepted: seq<Call>)

  function Next(run: Run, c: Call): Run {
    Run(After(run.store, c.client, c.now),
        if Admits(run.store, c.client, c.now) then run.accepted + [c] else run.accepted)
  }

  function Play(calls: seq<Call>): Run {
    if calls == [] then Run(map[], []) else Next(Play(calls[..|calls| - 1]), calls[|calls| - 1])
  }

  ghost predicate Ordered(calls: seq<Call>) {
    forall i, j :: 0 <= i < j < |calls| ==> calls[i].now <= calls[j].now
  }

  function TimeOf(client: Client): Call -> Option<real> {
    (c: Call) => if c.client == client then Some(c.now) else None
  }

  /** When a client was accepted. */
  function AcceptedTimes(run: Run, client: Client): seq<real> {
    Collect(run.accepted, TimeOf(client))
  }

  lemma FilterSinceTwice(times: seq<real>, a: real, b: real)
    requires a <= b
    ensures Filter(Filter(times, Since(a)), Since(b)) == Filter(times, Since(b))
  {
    FilterTwice(times, Since(a), Since(b), (t: real) => Since(a)(t) && Since(b)(t));
    FilterCongruence(times, (t: real) => Since(a)(t) && Since(b)(t), Since(b));
  }

  /** The accepted history grows by the accepted calls of the client. */
  lemma HistoryStep(run: Run, c: Call, client: Client)
    ensures AcceptedTimes(Next(run, c), client) ==
            if c.client == client && Admits(run.store, client, c.now)
            then AcceptedTimes(run, client) + [c.now] else AcceptedTimes(run, client)
  {
    CollectAppend(run.accepted, c, TimeOf(client));
  }

  lemma EarlierCalls(calls: seq<Call>)
    requires Ordered(calls) && calls != []
    ensures Ordered(calls[..|calls| - 1])
    ensures forall x :: x in calls[..|calls| - 1] ==> x in calls && x.now <= calls[|calls| - 1].now
  {
    var init := calls[..|calls| - 1];
    forall x | x in init ensures x in calls && x.now <= calls[|calls| - 1].now {
      var i :| 0 <= i < |init| && init[i] == x;
      assert calls[i] == x;
    }
  }

  /** Pruning at one call and again at a later time is pruning once. */
  lemma PruneStep(store: Store, history: seq<real>, client: Client, earlier: real, now: real)
    requires earlier <= now
    requires Recent(store, client, earlier) == Filter(history, Since(earlier - LOGIN_RATE_LIMIT_WINDOW_SECONDS))
    ensures Recent(After(store, client, earlier), client, now)
         == Filter(if Admits(store, client, earlier) then history + [earlier] else history,
                   Since(now - LOGIN_RATE_LIMIT_WINDOW_SECONDS))
  {
    var start := now - LOGIN_RATE_LIMIT_WINDOW_SECONDS;
    FilterSinceTwice(history, earlier - LOGIN_RATE_LIMIT_WINDOW_SECONDS, start);
    FilterAppend(Recent(store, client, earlier), earlier, Since(start));
    FilterAppend(history, earlier, Since(start));
  }

  /** Pruning the stored list now gives exactly the accepted history inside the current window. */
  ghost predicate Tracks(run: Run, client: Client, now: real) {
    Recent(run.store, client, now) == Filter(AcceptedTimes(run, client), Since(now - LOGIN_RATE_LIMIT_WINDOW_SECONDS))
  }

  lemma TrackOwn(run: Run, c: Call, now: real)
    requires c.now <= now && Tracks(run, c.client, c.now)
    ensures Tracks(Next(run, c), c.client, now)
  {
    var store, history := run.store, AcceptedTimes(run, c.client);
    PruneStep(store, history, c.client, c.now, now);
    HistoryStep(run, c, c.client);
    assert Next(run, c).store == After(store, c.client, c.now);
  }

  lemma TrackOther(run: Run, c: Call, client: Client, now: real)
    requires c.client != client && Tracks(run, client, now)
    ensures Tracks(Next(run, c), client, now)
  {
    HistoryStep(run, c, client);
    assert Attempts(Next(run, c).store, client) == Attempts(run.store, client);
  }

  /** Under a clock that never goes back the pruned list is the accepted history inside the current window,
      although older entries were dropped along the way. */
  lemma {:induction false} RecentIsAcceptedHistory(calls: seq<Call>, client: Client, now: real)
    requires Ordered(calls) && forall c :: c in calls ==> c.now <= now
    ensures Tracks(Play(calls), client, now)
  {
    if calls != [] {
      var init, c := calls[..|calls| - 1], calls[|calls| - 1];
      assert c in calls;
      EarlierCalls(calls);
      if c.client == client {
        RecentIsAcceptedHistory(init, client, c.now);
        TrackOwn(Play(init), c, now);
      } else {
        RecentIsAcceptedHistory(init, client, now);
        TrackOther(Play(init), c, client, now);
      }
    }
  }

  /** A call is accepted exactly when the closed minute up to it holds fewer than ten accepted ones. */
  lemma AcceptedExactly(calls: seq<Call>, client: Client, now: real)
    requires Ordered(calls) && forall c :: c in calls ==> c.now <= now
    ensures Admits(Play(calls).store, client, now) <==>
            |Filter(AcceptedTimes(Play(calls), client), InMinute(now - 60.0))| < 10
  {
    RecentIsAcceptedHistory(calls, client, now);
    forall t | t in AcceptedTimes(Play(calls), client) ensures t <= now {
      var c :| c in Play(calls).accepted && TimeOf(client)(c) == Some(t);
      AcceptedWereCalls(calls, c);
    }
    FilterCongruence(AcceptedTimes(Play(calls), client), Since(now - 60.0), InMinute(now - 60.0));
  }

  lemma {:induction false} AcceptedWereCalls(calls: seq<Call>, c: Call)
    requires c in Play(calls).accepted
    ensures c in calls
  {
    if calls != [] {
      var init, last := calls[..|calls| - 1], calls[|calls| - 1];
      assert calls == init + [last];
      if c in Play(init).accepted {
        AcceptedWereCalls(init, c);
      }
    }
  }

  /** The closed minute that starts at a time. */
  function InMinute(start: real): real -> bool {
    (t: real) => start <= t <= start + 60.0
  }

  ghost predicate Capped(run: Run, client: Client, start: real) {
    |Filter(AcceptedTimes(run, client), InMinute(start))| <= 10
  }

  /** An admitted call finds fewer than ten accepted ones in the window that ends now. */
  lemma AdmittedHasRoom(run: Run, client: Client, now: real)
    requires Tracks(run, client, now) && Admits(run.store, client, now)
    ensures |Filter(AcceptedTimes(run, client), Since(now - LOGIN_RATE_LIMIT_WINDOW_SECONDS))|
            < LOGIN_RATE_LIMIT_ATTEMPTS
  {
  }

  lemma CapStep(run: Run, c: Call, client: Client, start: real)
    requires Capped(run, client, start) && (c.client == client ==> Tracks(run, client, c.now))
    ensures Capped(Next(run, c), client, start)
  {
    var history := AcceptedTimes(run, client);
    if c.client == client && Admits(run.store, client, c.now) {
      assert |Filter(history + [c.now], InMinute(start))| <= 10 by {
        AdmittedHasRoom(run, client, c.now);
        OneMoreInMinute(history, c.now, start);
      }
    }
    HistoryStep(run, c, client);
  }

  /** Every closed minute, wherever it starts, holds at most ten accepted attempts of a client. */
  lemma {:induction false} AtMostTenPerMinute(calls: seq<Call>, client: Client, start: real)
    requires Ordered(calls)
    ensures Capped(Play(calls), client, start)
  {
    if calls != [] {
      var init, c := calls[..|calls| - 1], calls[|calls| - 1];
      EarlierCalls(calls);
      AtMostTenPerMinute(init, client, start);
      RecentIsAcceptedHistory(init, client, c.now);
      CapStep(Play(init), c, client, start);
    }
  }

  lemma OneMoreInMinute(history: seq<real>, now: real, start: real)
    requires |Filter(history, InMinute(start))| <= 10
    requires |Filter(history, Since(now - LOGIN_RATE_LIMIT_WINDOW_SECONDS))| < LOGIN_RATE_LIMIT_ATTEMPTS
    ensures |Filter(history + [now], InMinute(start))| <= 10
  {
    FilterAppend(history, now, InMinute(start));
    if InMinute(start)(now) {
      FilterFewer(history, InMinute(start), Since(now - LOGIN_RATE_LIMIT_WINDOW_SECONDS));
    }
  }

  function By(client: Client): Call -> bool { (c: Call) => c.client == client }

  ghost predicate SameFor(a: Run, b: Run, client: Client) {
    Attempts(a.store, client) == Attempts(b.store, client) && AcceptedTimes(a, client) == AcceptedTimes(b, client)
  }

  lemma SameStep(a: Run, b: Run, c: Call, client: Client)
    requires SameFor(a, b, client)
    ensures SameFor(Next(a, c), if c.client == client then Next(b, c) else b, client)
  {
    HistoryStep(a, c, client);
    HistoryStep(b, c, client);
  }

  /** The calls of other clients make no difference: a client fares as if it were alone. */
  lemma {:induction false} ClientsAreIndependent(calls: seq<Call>, client: Client)
    ensures SameFor(Play(calls), Play(Filter(calls, By(client))), client)
  {
    if calls != [] {
      var init, c := calls[..|calls| - 1], calls[|calls| - 1];
      var own := Filter(init, By(client));
      ClientsAreIndependent(init, client);
      SameStep(Play(init), Play(own), c, client);
      assert (own + [c])[..|own|] == own;
    }
  }
}

/**
  The retry engine of promise-retryify: one decorated operation and the
  retry loop that runs for each top-level call to it.

  Promises and timers are replaced by an oracle. `attempts[i]` is the outcome
  of the i-th invocation of the underlying operation and `hooks[i]` the outcome
  of the i-th `beforeRetry` call; an invocation or a hook call for which the
  oracle has no entry never settles. What a call does is recorded as a trace:
  the ordered list of observable requests (invocations, `shouldRetry`
  consultations, delay requests, `beforeRetry` and `onAllFailed` calls) and how
  the call settled.
 */
module RetryEngine {

  /** `maxRetries`: a non-negative number, or Infinity. */
  datatype MaxRetries = Finite(n: nat) | Unbounded

  /** The negation of `maxRetriesReached`: `retries >= Infinity` never holds. */
  predicate BelowMax(retries: nat, max: MaxRetries)
  {
    match max
    case Unbounded => true
    case Finite(n) => retries < n
  }

  /** What one invocation of the underlying operation produced. `Sync` is a
      plain value (not a thenable), `Ok`/`Err` a promise that fulfils/rejects. */
  datatype Attempt<V, E> = Sync(value: V) | Ok(value: V) | Err(error: E)

  /** The outcome tag that stands in for duck-typed thenable detection. */
  predicate IsPromise<V, E>(a: Attempt<V, E>)
  {
    !a.Sync?
  }

  /** How the promise returned by `beforeRetry` settled. */
  datatype HookResult<E> = Done | Failed(error: E)

  /** The resolved options the engine reads. `notifies` is whether
      `onAllFailed` is a function (the default `err => null` is). */
  datatype Policy<!E> = Policy(
    maxRetries: MaxRetries,
    shouldRetry: E -> bool,
    retryTimeout: nat -> int,
    notifies: bool)

  /** One observable request made by a call chain, in order. */
  datatype Event<A, E> =
    | Invoke(args: A)                  // the underlying operation is called
    | ShouldRetry(error: E)            // `shouldRetry(err)` is consulted
    | Delay(retry: nat, ms: int)       // a timer of `retryTimeout(retry)` ms is set
    | BeforeRetry(retry: nat, args: A) // `beforeRetry(retry, args)` is called
    | OnAllFailed(error: E, args: A)   // `onAllFailed(err, ...args)` is called

  /** How a top-level call ends: a plain value returned as is, a promise that
      fulfils or rejects, or a promise that never settles. */
  datatype Settlement<V, E> = Returned(value: V) | Resolved(value: V) | Rejected(error: E) | Pending

  datatype Trace<A, V, E> = Trace(events: seq<Event<A, E>>, settlement: Settlement<V, E>)

  /** The events of one retry round: failed invocation, decision, delay, hook. */
  function Round<A, E>(args: A, e: E, n: nat, ms: int): seq<Event<A, E>>
  {
    [Invoke(args), ShouldRetry(e), Delay(n, ms), BeforeRetry(n, args)]
  }

  /** The events of a chain that gives up on error `e`. */
  function GiveUp<A, E>(args: A, e: E, notifies: bool): seq<Event<A, E>>
  {
    [Invoke(args), ShouldRetry(e)] + (if notifies then [OnAllFailed(e, args)] else [])
  }

  /** A trace with some earlier events in front. */
  function Prepend<A, V, E>(evs: seq<Event<A, E>>, t: Trace<A, V, E>): Trace<A, V, E>
  {
    Trace(evs + t.events, t.settlement)
  }

  /**
    Whether the chain goes round again: the next attempt settles with an
    error, `shouldRetry` accepts it, the counter is below `maxRetries`, and
    the `beforeRetry` call made for it succeeds.
   */
  predicate Continues<V, E>(p: Policy<E>, retries: nat, attempts: seq<Attempt<V, E>>,
                            hooks: seq<HookResult<E>>)
  {
    && attempts != [] && attempts[0].Err?
    && p.shouldRetry(attempts[0].error) && BelowMax(retries, p.maxRetries)
    && hooks != [] && hooks[0] == Done
  }

  /**
    The last step of a chain: the attempt settles or never does, the loop
    gives up on its error, or the `beforeRetry` call made for it fails or
    never settles. `top` is false inside a retry, where the result resolves
    the outer promise: a plain value returned by a retried attempt therefore
    reaches the caller as a fulfilled promise.
   */
  function FinalStep<A, V, E>(p: Policy<E>, args: A, retries: nat,
                              attempts: seq<Attempt<V, E>>, hooks: seq<HookResult<E>>,
                              top: bool): Trace<A, V, E>
    requires !Continues(p, retries, attempts, hooks)
  {
    if attempts == [] then Trace([Invoke(args)], Pending)
    else match attempts[0]
      case Sync(v) => Trace([Invoke(args)], if top then Returned(v) else Resolved(v))
      case Ok(v) => Trace([Invoke(args)], Resolved(v))
      case Err(e) =>
        if p.shouldRetry(e) && BelowMax(retries, p.maxRetries) then
          var round := Round(args, e, retries + 1, p.retryTimeout(retries + 1));
          if hooks == [] then Trace(round, Pending) else Trace(round, Rejected(hooks[0].error))
        else
          Trace(GiveUp(args, e, p.notifies), Rejected(e))
  }

  /**
    The function `retry` for a chain whose counter currently holds `retries`:
    while the chain continues, one round and then the recursive call with the
    counter one higher, whose result becomes the result of the whole chain.
   */
  function RetryChain<A, V, E>(p: Policy<E>, args: A, retries: nat,
                               attempts: seq<Attempt<V, E>>, hooks: seq<HookResult<E>>,
                               top: bool): Trace<A, V, E>
    decreases |attempts|
  {
    if Continues(p, retries, attempts, hooks) then
      var n := retries + 1;
      Prepend(Round(args, attempts[0].error, n, p.retryTimeout(n)),
              RetryChain(p, args, n, attempts[1..], hooks[1..], false))
    else
      FinalStep(p, args, retries, attempts, hooks, top)
  }

  /** A top-level call through `retryWrapper`: a fresh counter at 0. */
  function Call<A, V, E>(p: Policy<E>, args: A, attempts: seq<Attempt<V, E>>,
                         hooks: seq<HookResult<E>>): Trace<A, V, E>
  {
    RetryChain(p, args, 0, attempts, hooks, true)
  }

  /** The undecorated operation called once, for comparison. */
  function Direct<A, V, E>(args: A, attempts: seq<Attempt<V, E>>): Trace<A, V, E>
  {
    if attempts == [] then Trace([Invoke(args)], Pending)
    else match attempts[0]
      case Sync(v) => Trace([Invoke(args)], Returned(v))
      case Ok(v) => Trace([Invoke(args)], Resolved(v))
      case Err(e) => Trace([Invoke(args)], Rejected(e))
  }

  // ---- Projections of a trace -------------------------------------------

  /** How many times the underlying operation was invoked. */
  function Invocations<A, E>(evs: seq<Event<A, E>>): nat
  {
    if evs == [] then 0 else (if evs[0].Invoke? then 1 else 0) + Invocations(evs[1..])
  }

  /** The counter values passed to `beforeRetry`, in order. */
  function HookCalls<A, E>(evs: seq<Event<A, E>>): seq<nat>
  {
    if evs == [] then [] else (if evs[0].BeforeRetry? then [evs[0].retry] else []) + HookCalls(evs[1..])
  }

  /** The counter values passed to `retryTimeout`, in order. */
  function DelayCalls<A, E>(evs: seq<Event<A, E>>): seq<nat>
  {
    if evs == [] then [] else (if evs[0].Delay? then [evs[0].retry] else []) + DelayCalls(evs[1..])
  }

  /** The `onAllFailed` calls, in order. */
  function Notifications<A, E>(evs: seq<Event<A, E>>): seq<Event<A, E>>
  {
    if evs == [] then [] else (if evs[0].OnAllFailed? then [evs[0]] else []) + Notifications(evs[1..])
  }

  /** r+1, r+2, ..., r+m. */
  function Steps(r: nat, m: nat): (s: seq<nat>)
    ensures |s| == m
    ensures forall i :: 0 <= i < m ==> s[i] == r + 1 + i
    decreases m
  {
    if m == 0 then [] else [r + 1] + Steps(r + 1, m - 1)
  }

  function Last<T>(s: seq<T>): T
    requires s != []
  {
    s[|s| - 1]
  }

  lemma {:induction false} InvocationsAppend<A, E>(a: seq<Event<A, E>>, b: seq<Event<A, E>>)
    ensures Invocations(a + b) == Invocations(a) + Invocations(b)
  {
    if a == [] {
      assert a + b == b;
    } else {
      assert (a + b)[1..] == a[1..] + b;
      InvocationsAppend(a[1..], b);
    }
  }

  lemma {:induction false} HookCallsAppend<A, E>(a: seq<Event<A, E>>, b: seq<Event<A, E>>)
    ensures HookCalls(a + b) == HookCalls(a) + HookCalls(b)
  {
    if a == [] {
      assert a + b == b;
    } else {
      var head: seq<nat> := if a[0].BeforeRetry? then [a[0].retry] else [];
      assert (a + b)[0] == a[0] && (a + b)[1..] == a[1..] + b;
      assert HookCalls(a + b) == head + HookCalls(a[1..] + b);
      HookCallsAppend(a[1..], b);
      assert head + (HookCalls(a[1..]) + HookCalls(b)) == (head + HookCalls(a[1..])) + HookCalls(b);
    }
  }

  lemma {:induction false} DelayCallsAppend<A, E>(a: seq<Event<A, E>>, b: seq<Event<A, E>>)
    ensures DelayCalls(a + b) == DelayCalls(a) + DelayCalls(b)
  {
    if a == [] {
      assert a + b == b;
    } else {
      var head: seq<nat> := if a[0].Delay? then [a[0].retry] else [];
      assert (a + b)[0] == a[0] && (a + b)[1..] == a[1..] + b;
      assert DelayCalls(a + b) == head + DelayCalls(a[1..] + b);
      DelayCallsAppend(a[1..], b);
      assert head + (DelayCalls(a[1..]) + DelayCalls(b)) == (head + DelayCalls(a[1..])) + DelayCalls(b);
    }
  }

  lemma {:induction false} NotificationsAppend<A, E>(a: seq<Event<A, E>>, b: seq<Event<A, E>>)
    ensures Notifications(a + b) == Notifications(a) + Notifications(b)
  {
    if a == [] {
      assert a + b == b;
    } else {
      var head: seq<Event<A, E>> := if a[0].OnAllFailed? then [a[0]] else [];
      assert (a + b)[0] == a[0] && (a + b)[1..] == a[1..] + b;
      assert Notifications(a + b) == head + Notifications(a[1..] + b);
      NotificationsAppend(a[1..], b);
      assert head + (Notifications(a[1..]) + Notifications(b)) == (head + Notifications(a[1..])) + Notifications(b);
    }
  }

  /** Every projection distributes over concatenation of event lists. */
  lemma ProjectionsAppend<A, E>(a: seq<Event<A, E>>, b: seq<Event<A, E>>)
    ensures Invocations(a + b) == Invocations(a) + Invocations(b)
    ensures HookCalls(a + b) == HookCalls(a) + HookCalls(b)
    ensures DelayCalls(a + b) == DelayCalls(a) + DelayCalls(b)
    ensures Notifications(a + b) == Notifications(a) + Notifications(b)
  {
    InvocationsAppend(a, b);
    HookCallsAppend(a, b);
    DelayCallsAppend(a, b);
    NotificationsAppend(a, b);
  }

  /** The projections of one event followed by others. */
  lemma ProjectionsCons<A, E>(ev: Event<A, E>, rest: seq<Event<A, E>>)
    ensures Invocations([ev] + rest) == (if ev.Invoke? then 1 else 0) + Invocations(rest)
    ensures HookCalls([ev] + rest) == (if ev.BeforeRetry? then [ev.retry] else []) + HookCalls(rest)
    ensures DelayCalls([ev] + rest) == (if ev.Delay? then [ev.retry] else []) + DelayCalls(rest)
    ensures Notifications([ev] + rest) == (if ev.OnAllFailed? then [ev] else []) + Notifications(rest)
  {
    assert ([ev] + rest)[1..] == rest;
  }

  /** The projections of a round followed by the rest of the chain. */
  lemma RoundThen<A, E>(args: A, e: E, n: nat, ms: int, rest: seq<Event<A, E>>)
    ensures Invocations(Round(args, e, n, ms) + rest) == 1 + Invocations(rest)
    ensures HookCalls(Round(args, e, n, ms) + rest) == [n] + HookCalls(rest)
    ensures DelayCalls(Round(args, e, n, ms) + rest) == [n] + DelayCalls(rest)
    ensures Notifications(Round(args, e, n, ms) + rest) == Notifications(rest)
  {
    var s3 := [BeforeRetry(n, args)] + rest;
    var s2 := [Delay(n, ms)] + s3;
    var s1 := [ShouldRetry(e)] + s2;
    assert Round(args, e, n, ms) + rest == [Invoke(args)] + s1;
    ProjectionsCons(BeforeRetry(n, args), rest);
    ProjectionsCons(Delay(n, ms), s3);
    ProjectionsCons(ShouldRetry(e), s2);
    ProjectionsCons(Invoke(args), s1);
  }

  lemma RoundProjections<A, E>(args: A, e: E, n: nat, ms: int)
    ensures Invocations(Round(args, e, n, ms)) == 1
    ensures HookCalls(Round(args, e, n, ms)) == [n]
    ensures DelayCalls(Round(args, e, n, ms)) == [n]
    ensures Notifications(Round(args, e, n, ms)) == []
  {
    RoundThen(args, e, n, ms, []);
    assert Round(args, e, n, ms) + [] == Round(args, e, n, ms);
  }

  lemma StopProjections<A, E>(args: A, e: E, notifies: bool)
    ensures var stop := GiveUp(args, e, notifies);
      && Invocations(stop) == 1 && HookCalls(stop) == [] && DelayCalls(stop) == []
      && Notifications(stop) == (if notifies then [OnAllFailed(e, args)] else [])
  {
    var tail: seq<Event<A, E>> := if notifies then [OnAllFailed(e, args)] else [];
    ProjectionsCons(OnAllFailed(e, args), []);
    assert [OnAllFailed(e, args)] + [] == [OnAllFailed(e, args)];
    ProjectionsCons(ShouldRetry(e), tail);
    ProjectionsCons(Invoke(args), [ShouldRetry(e)] + tail);
    assert GiveUp(args, e, notifies) == [Invoke(args)] + ([ShouldRetry(e)] + tail);
  }

  /** The projections of the last step of a chain. */
  lemma FinalProjections<A, V, E>(p: Policy<E>, args: A, r: nat,
                                  attempts: seq<Attempt<V, E>>, hooks: seq<HookResult<E>>, top: bool)
    requires !Continues(p, r, attempts, hooks)
    ensures var t := FinalStep(p, args, r, attempts, hooks, top);
      && t.events != [] && t.events[0] == Invoke(args)
      && (forall i :: 1 <= i < |t.events| ==> !t.events[i].Invoke?)
      && Invocations(t.events) == 1
      && (Last(t.events).BeforeRetry? <==>
            attempts != [] && attempts[0].Err? && p.shouldRetry(attempts[0].error) && BelowMax(r, p.maxRetries))
      && HookCalls(t.events) == (if Last(t.events).BeforeRetry? then [r + 1] else [])
      && DelayCalls(t.events) == HookCalls(t.events)
      && Notifications(t.events) ==
           (if attempts != [] && attempts[0].Err? && !Last(t.events).BeforeRetry? && p.notifies
            then [OnAllFailed(attempts[0].error, args)] else [])
  {
    var t := FinalStep(p, args, r, attempts, hooks, top);
    if attempts == [] || !attempts[0].Err? {
      assert t.events == [Invoke(args)];
      var none: seq<Event<A, E>> := [];
      ProjectionsCons(Invoke(args), none);
      assert [Invoke(args)] + none == [Invoke(args)];
    } else {
      var e := attempts[0].error;
      if p.shouldRetry(e) && BelowMax(r, p.maxRetries) {
        assert t.events == Round(args, e, r + 1, p.retryTimeout(r + 1));
        RoundProjections(args, e, r + 1, p.retryTimeout(r + 1));
      } else {
        assert t.events == GiveUp(args, e, p.notifies);
        StopProjections(args, e, p.notifies);
      }
    }
  }

  // ---- Properties of the retry loop --------------------------------------

  /**
    The counter goes up by exactly one before each retry: `retryTimeout` and
    `beforeRetry` receive r+1, r+2, ... in this order.
   */
  lemma {:induction false} CounterSteps<A, V, E>(p: Policy<E>, args: A, r: nat,
                                                attempts: seq<Attempt<V, E>>,
                                                hooks: seq<HookResult<E>>, top: bool)
    ensures var t := RetryChain(p, args, r, attempts, hooks, top);
      && HookCalls(t.events) == Steps(r, |HookCalls(t.events)|)
      && DelayCalls(t.events) == HookCalls(t.events)
    decreases |attempts|
  {
    if Continues(p, r, attempts, hooks) {
      var n := r + 1;
      var rest := RetryChain(p, args, n, attempts[1..], hooks[1..], false);
      CounterSteps(p, args, n, attempts[1..], hooks[1..], false);
      RoundThen(args, attempts[0].error, n, p.retryTimeout(n), rest.events);
    } else {
      FinalProjections(p, args, r, attempts, hooks, top);
    }
  }

  /** Every `Delay` event lasts what `retryTimeout` returned for its counter value. */
  ghost predicate DelaysMatch<A, E>(p: Policy<E>, evs: seq<Event<A, E>>)
  {
    forall i :: 0 <= i < |evs| && evs[i].Delay? ==> evs[i].ms == p.retryTimeout(evs[i].retry)
  }

  /** Every timer a chain sets lasts what `retryTimeout` returned for its counter value. */
  lemma {:induction false} DelaysAsRequested<A, V, E>(p: Policy<E>, args: A, r: nat,
                                                     attempts: seq<Attempt<V, E>>,
                                                     hooks: seq<HookResult<E>>, top: bool)
    ensures DelaysMatch(p, RetryChain(p, args, r, attempts, hooks, top).events)
    decreases |attempts|
  {
    var t := RetryChain(p, args, r, attempts, hooks, top);
    if Continues(p, r, attempts, hooks) {
      var n := r + 1;
      var round := Round(args, attempts[0].error, n, p.retryTimeout(n));
      var rest := RetryChain(p, args, n, attempts[1..], hooks[1..], false);
      DelaysAsRequested(p, args, n, attempts[1..], hooks[1..], false);
      assert t.events == round + rest.events;
      forall i | 0 <= i < |t.events| && t.events[i].Delay?
        ensures t.events[i].ms == p.retryTimeout(t.events[i].retry)
      {
        if i >= 4 {
          assert t.events[i] == rest.events[i - 4];
        } else {
          assert t.events[i] == round[i];
        }
      }
    }
  }

  /**
    A chain makes at most one retry per available attempt and per settled
    hook, and never advances the counter past a finite `maxRetries`.
   */
  lemma {:induction false} RetryCeiling<A, V, E>(p: Policy<E>, args: A, r: nat,
                                                attempts: seq<Attempt<V, E>>,
                                                hooks: seq<HookResult<E>>, top: bool)
    ensures var t := RetryChain(p, args, r, attempts, hooks, top);
      && |HookCalls(t.events)| <= |attempts|
      && |HookCalls(t.events)| <= |hooks| + 1
      && (p.maxRetries.Finite? && r <= p.maxRetries.n ==> r + |HookCalls(t.events)| <= p.maxRetries.n)
    decreases |attempts|
  {
    if Continues(p, r, attempts, hooks) {
      var n := r + 1;
      var rest := RetryChain(p, args, n, attempts[1..], hooks[1..], false);
      RetryCeiling(p, args, n, attempts[1..], hooks[1..], false);
      RoundThen(args, attempts[0].error, n, p.retryTimeout(n), rest.events);
    } else {
      FinalProjections(p, args, r, attempts, hooks, top);
    }
  }

  /**
    How many invocations a chain makes: one per `beforeRetry` call, plus one
    unless the chain ends on a `beforeRetry` call; the first request is
    always an invocation.
   */
  lemma {:induction false} InvocationCount<A, V, E>(p: Policy<E>, args: A, r: nat,
                                                    attempts: seq<Attempt<V, E>>,
                                                    hooks: seq<HookResult<E>>, top: bool)
    ensures var t := RetryChain(p, args, r, attempts, hooks, top);
      && t.events != [] && t.events[0] == Invoke(args)
      && Invocations(t.events) == |HookCalls(t.events)| + (if Last(t.events).BeforeRetry? then 0 else 1)
      && Invocations(t.events) <= |attempts| + 1
    decreases |attempts|
  {
    var t := RetryChain(p, args, r, attempts, hooks, top);
    if Continues(p, r, attempts, hooks) {
      var n := r + 1;
      var rest := RetryChain(p, args, n, attempts[1..], hooks[1..], false);
      InvocationCount(p, args, n, attempts[1..], hooks[1..], false);
      RoundThen(args, attempts[0].error, n, p.retryTimeout(n), rest.events);
      assert Last(t.events) == Last(rest.events);
    } else {
      FinalProjections(p, args, r, attempts, hooks, top);
    }
  }

  /**
    A failed attempt is retried exactly when `shouldRetry(err)` holds and the
    counter is strictly below `maxRetries`; otherwise the call fails at once
    with that error after a single invocation.
   */
  lemma RetryDecision<A, V, E>(p: Policy<E>, args: A, r: nat,
                               attempts: seq<Attempt<V, E>>, hooks: seq<HookResult<E>>, top: bool)
    requires attempts != [] && attempts[0].Err?
    ensures var t := RetryChain(p, args, r, attempts, hooks, top);
      && (HookCalls(t.events) != [] <==> p.shouldRetry(attempts[0].error) && BelowMax(r, p.maxRetries))
      && (HookCalls(t.events) == [] ==>
            Invocations(t.events) == 1 && t.settlement == Rejected(attempts[0].error))
  {
    if Continues(p, r, attempts, hooks) {
      var n := r + 1;
      var rest := RetryChain(p, args, n, attempts[1..], hooks[1..], false);
      RoundThen(args, attempts[0].error, n, p.retryTimeout(n), rest.events);
    } else {
      FinalProjections(p, args, r, attempts, hooks, top);
    }
  }

  /** `maxRetries = 0` never retries: one invocation, no hook, no delay. */
  lemma ZeroDisablesRetry<A, V, E>(p: Policy<E>, args: A, attempts: seq<Attempt<V, E>>,
                                   hooks: seq<HookResult<E>>)
    requires p.maxRetries == Finite(0)
    ensures var t := Call(p, args, attempts, hooks);
      && HookCalls(t.events) == [] && DelayCalls(t.events) == []
      && Invocations(t.events) == 1
  {
    CounterSteps(p, args, 0, attempts, hooks, true);
    RetryCeiling(p, args, 0, attempts, hooks, true);
    InvocationCount(p, args, 0, attempts, hooks, true);
  }

  /**
    With Infinity as the ceiling only `shouldRetry` ends the loop: a call that
    fails with the operation's error (rather than a hook's) does so on an
    error `shouldRetry` declined.
   */
  lemma {:induction false} UnboundedStopsOnlyOnDecline<A, V, E>(p: Policy<E>, args: A, r: nat,
                                                               attempts: seq<Attempt<V, E>>,
                                                               hooks: seq<HookResult<E>>, top: bool)
    requires p.maxRetries == Unbounded
    ensures var t := RetryChain(p, args, r, attempts, hooks, top);
      t.settlement.Rejected? && !Last(t.events).BeforeRetry? ==> !p.shouldRetry(t.settlement.error)
    decreases |attempts|
  {
    var t := RetryChain(p, args, r, attempts, hooks, top);
    if Continues(p, r, attempts, hooks) {
      var rest := RetryChain(p, args, r + 1, attempts[1..], hooks[1..], false);
      UnboundedStopsOnlyOnDecline(p, args, r + 1, attempts[1..], hooks[1..], false);
      InvocationCount(p, args, r + 1, attempts[1..], hooks[1..], false);
      assert Last(t.events) == Last(rest.events);
    } else {
      FinalProjections(p, args, r, attempts, hooks, top);
    }
  }

  /**
    With `maxRetries = k`, `shouldRetry` always true, an always-failing
    operation and hooks that succeed, a chain started at counter r makes
    k - r + 1 invocations, passes r+1..k to the hooks, fails with the last
    attempt's error unchanged and notifies `onAllFailed` once with it.
   */
  lemma {:induction false} ExhaustsFrom<A, V, E>(p: Policy<E>, args: A, r: nat, k: nat,
                                                attempts: seq<Attempt<V, E>>,
                                                hooks: seq<HookResult<E>>, top: bool)
    requires p.maxRetries == Finite(k) && r <= k
    requires |attempts| > k - r && |hooks| >= k - r
    requires forall i :: 0 <= i < |attempts| ==> attempts[i].Err? && p.shouldRetry(attempts[i].error)
    requires forall i :: 0 <= i < |hooks| ==> hooks[i] == Done
    ensures var t := RetryChain(p, args, r, attempts, hooks, top);
      && Invocations(t.events) == k - r + 1
      && HookCalls(t.events) == Steps(r, k - r)
      && t.settlement == Rejected(attempts[k - r].error)
      && Notifications(t.events) == (if p.notifies then [OnAllFailed(attempts[k - r].error, args)] else [])
    decreases k - r
  {
    if r == k {
      FinalProjections(p, args, r, attempts, hooks, top);
    } else {
      var n := r + 1;
      var rest := RetryChain(p, args, n, attempts[1..], hooks[1..], false);
      ExhaustsFrom(p, args, n, k, attempts[1..], hooks[1..], false);
      RoundThen(args, attempts[0].error, n, p.retryTimeout(n), rest.events);
    }
  }

  /** The bounded-retries property for a top-level call. */
  lemma AlwaysFailing<A, V, E>(p: Policy<E>, args: A, k: nat,
                               attempts: seq<Attempt<V, E>>, hooks: seq<HookResult<E>>)
    requires p.maxRetries == Finite(k)
    requires |attempts| > k && |hooks| >= k
    requires forall i :: 0 <= i < |attempts| ==> attempts[i].Err? && p.shouldRetry(attempts[i].error)
    requires forall i :: 0 <= i < |hooks| ==> hooks[i] == Done
    ensures var t := Call(p, args, attempts, hooks);
      && Invocations(t.events) == k + 1
      && HookCalls(t.events) == Steps(0, k)
      && t.settlement == Rejected(attempts[k].error)
      && Notifications(t.events) == (if p.notifies then [OnAllFailed(attempts[k].error, args)] else [])
  {
    ExhaustsFrom(p, args, 0, k, attempts, hooks, true);
  }

  /**
    Each invocation after the first comes right after a `beforeRetry` call
    numbered within the hooks available from counter r, and that hook
    settled successfully.
   */
  ghost predicate InvokesGated<A, E>(evs: seq<Event<A, E>>, r: nat, hooks: seq<HookResult<E>>)
  {
    forall i :: 0 <= i < |evs| - 1 && evs[i + 1].Invoke? ==>
      && evs[i].BeforeRetry?
      && r < evs[i].retry <= r + |hooks|
      && hooks[evs[i].retry - r - 1] == Done
  }

  lemma GatedAfterRound<A, E>(args: A, e: E, r: nat, ms: int, rest: seq<Event<A, E>>,
                              hooks: seq<HookResult<E>>)
    requires hooks != [] && hooks[0] == Done
    requires rest != [] && rest[0].Invoke?
    requires InvokesGated(rest, r + 1, hooks[1..])
    ensures InvokesGated(Round(args, e, r + 1, ms) + rest, r, hooks)
  {
    var evs := Round(args, e, r + 1, ms) + rest;
    forall i | 0 <= i < |evs| - 1 && evs[i + 1].Invoke?
      ensures && evs[i].BeforeRetry?
              && r < evs[i].retry <= r + |hooks|
              && hooks[evs[i].retry - r - 1] == Done
    {
      if i >= 4 {
        assert evs[i] == rest[i - 4] && evs[i + 1] == rest[i - 3];
        assert hooks[1..][rest[i - 4].retry - (r + 1) - 1] == hooks[evs[i].retry - r - 1];
      }
    }
  }

  /**
    Each `beforeRetry` settles successfully before the next invocation: an
    invocation other than the first comes right after a `beforeRetry` call
    whose hook outcome was `Done`.
   */
  lemma {:induction false} HookBeforeNextInvoke<A, V, E>(p: Policy<E>, args: A, r: nat,
                                                        attempts: seq<Attempt<V, E>>,
                                                        hooks: seq<HookResult<E>>, top: bool)
    ensures InvokesGated(RetryChain(p, args, r, attempts, hooks, top).events, r, hooks)
    decreases |attempts|
  {
    if Continues(p, r, attempts, hooks) {
      var n := r + 1;
      var rest := RetryChain(p, args, n, attempts[1..], hooks[1..], false);
      HookBeforeNextInvoke(p, args, n, attempts[1..], hooks[1..], false);
      InvocationCount(p, args, n, attempts[1..], hooks[1..], false);
      GatedAfterRound(args, attempts[0].error, r, p.retryTimeout(n), rest.events, hooks);
    } else {
      FinalProjections(p, args, r, attempts, hooks, top);
    }
  }

  /**
    A fulfilled value is the value of the last invocation, passed back
    unchanged; a plain value is returned as is only by the first invocation
    of a top-level call.
   */
  lemma {:induction false} ValuePassedThrough<A, V, E>(p: Policy<E>, args: A, r: nat,
                                                      attempts: seq<Attempt<V, E>>,
                                                      hooks: seq<HookResult<E>>, top: bool)
    ensures var t := RetryChain(p, args, r, attempts, hooks, top);
      && (t.settlement.Returned? ==>
            top && Invocations(t.events) == 1 && attempts[0] == Sync(t.settlement.value))
      && (t.settlement.Resolved? ==>
            && 0 < Invocations(t.events) <= |attempts|
            && !attempts[Invocations(t.events) - 1].Err?
            && attempts[Invocations(t.events) - 1].value == t.settlement.value)
    decreases |attempts|
  {
    if Continues(p, r, attempts, hooks) {
      var n := r + 1;
      var rest := RetryChain(p, args, n, attempts[1..], hooks[1..], false);
      ValuePassedThrough(p, args, n, attempts[1..], hooks[1..], false);
      RoundThen(args, attempts[0].error, n, p.retryTimeout(n), rest.events);
    } else {
      FinalProjections(p, args, r, attempts, hooks, top);
    }
  }

  /**
    A call that fails with the operation's error (the loop gave up rather
    than a hook failing) fails with the error of its last invocation,
    unchanged.
   */
  lemma {:induction false} ErrorPassedThrough<A, V, E>(p: Policy<E>, args: A, r: nat,
                                                      attempts: seq<Attempt<V, E>>,
                                                      hooks: seq<HookResult<E>>, top: bool)
    ensures var t := RetryChain(p, args, r, attempts, hooks, top);
      t.settlement.Rejected? && !Last(t.events).BeforeRetry? ==>
        && Invocations(t.events) <= |attempts|
        && attempts[Invocations(t.events) - 1] == Err(t.settlement.error)
    decreases |attempts|
  {
    var t := RetryChain(p, args, r, attempts, hooks, top);
    if Continues(p, r, attempts, hooks) {
      var n := r + 1;
      var rest := RetryChain(p, args, n, attempts[1..], hooks[1..], false);
      ErrorPassedThrough(p, args, n, attempts[1..], hooks[1..], false);
      InvocationCount(p, args, n, attempts[1..], hooks[1..], false);
      RoundThen(args, attempts[0].error, n, p.retryTimeout(n), rest.events);
      assert Last(t.events) == Last(rest.events);
      assert t.settlement == rest.settlement;
      if rest.settlement.Rejected? && !Last(rest.events).BeforeRetry? {
        var k := Invocations(rest.events);
        assert Invocations(t.events) == k + 1;
        assert attempts[1..][k - 1] == attempts[k];
      }
    } else {
      FinalProjections(p, args, r, attempts, hooks, top);
    }
  }

  /**
    A chain that ends on a `beforeRetry` call ends because that hook failed,
    with the hook's error as the call's error, or because it never settled;
    the chain never succeeds that way.
   */
  lemma {:induction false} HookOutcome<A, V, E>(p: Policy<E>, args: A, r: nat,
                                               attempts: seq<Attempt<V, E>>,
                                               hooks: seq<HookResult<E>>, top: bool)
    ensures var t := RetryChain(p, args, r, attempts, hooks, top);
      Last(t.events).BeforeRetry? ==>
        var j := |HookCalls(t.events)| - 1;
        && 0 <= j
        && (t.settlement.Rejected? ==> j < |hooks| && hooks[j] == Failed(t.settlement.error))
        && (t.settlement.Pending? <==> j == |hooks|)
        && !t.settlement.Returned? && !t.settlement.Resolved?
    decreases |attempts|
  {
    var t := RetryChain(p, args, r, attempts, hooks, top);
    if Continues(p, r, attempts, hooks) {
      var n := r + 1;
      var rest := RetryChain(p, args, n, attempts[1..], hooks[1..], false);
      HookOutcome(p, args, n, attempts[1..], hooks[1..], false);
      InvocationCount(p, args, n, attempts[1..], hooks[1..], false);
      RoundThen(args, attempts[0].error, n, p.retryTimeout(n), rest.events);
      assert Last(t.events) == Last(rest.events);
      assert t.settlement == rest.settlement;
      if Last(rest.events).BeforeRetry? {
        var k := |HookCalls(rest.events)| - 1;
        assert |HookCalls(t.events)| - 1 == k + 1;
        assert k < |hooks[1..]| ==> hooks[1..][k] == hooks[k + 1];
      }
    } else {
      FinalProjections(p, args, r, attempts, hooks, top);
    }
  }

  /**
    When `beforeRetry` rejects, the call fails with the hook's error: the
    last request is that `beforeRetry` call, the operation is not invoked
    again and `onAllFailed` is not called.
   */
  lemma HookFailureSubstitutes<A, V, E>(p: Policy<E>, args: A, attempts: seq<Attempt<V, E>>,
                                        hooks: seq<HookResult<E>>)
    ensures var t := Call(p, args, attempts, hooks);
      Last(t.events).BeforeRetry? ==>
        var j := |HookCalls(t.events)| - 1;
        && Notifications(t.events) == []
        && Invocations(t.events) == j + 1
        && (t.settlement.Rejected? ==> j < |hooks| && hooks[j] == Failed(t.settlement.error))
        && (t.settlement.Pending? <==> j == |hooks|)
        && !t.settlement.Returned? && !t.settlement.Resolved?
  {
    HookOutcome(p, args, 0, attempts, hooks, true);
    InvocationCount(p, args, 0, attempts, hooks, true);
    NotifiedOnceOnGiveUp(p, args, 0, attempts, hooks, true);
  }

  /**
    A `beforeRetry` call that rejects ends the chain at once: after a failed
    attempt that is retried, a rejecting hook makes the call fail with the
    hook's error, with no further invocation and no `onAllFailed` call.
   */
  lemma HookRejectionStops<A, V, E>(p: Policy<E>, args: A, r: nat, attempts: seq<Attempt<V, E>>,
                                    hooks: seq<HookResult<E>>, top: bool)
    requires attempts != [] && attempts[0].Err?
    requires p.shouldRetry(attempts[0].error) && BelowMax(r, p.maxRetries)
    requires hooks != [] && hooks[0].Failed?
    ensures RetryChain(p, args, r, attempts, hooks, top) ==
              Trace(Round(args, attempts[0].error, r + 1, p.retryTimeout(r + 1)), Rejected(hooks[0].error))
  {
  }

  /**
    The first retry's hook rejects: the operation runs once, `beforeRetry`
    is called once with 1, and the call fails with the hook's error.
   */
  lemma FirstHookRejects<A, V, E>(p: Policy<E>, args: A, attempts: seq<Attempt<V, E>>,
                                  hooks: seq<HookResult<E>>)
    requires attempts != [] && attempts[0].Err?
    requires p.shouldRetry(attempts[0].error) && BelowMax(0, p.maxRetries)
    requires hooks != [] && hooks[0].Failed?
    ensures var t := Call(p, args, attempts, hooks);
      && Invocations(t.events) == 1
      && HookCalls(t.events) == [1]
      && Notifications(t.events) == []
      && t.settlement == Rejected(hooks[0].error)
  {
    HookRejectionStops(p, args, 0, attempts, hooks, true);
    RoundProjections(args, attempts[0].error, 1, p.retryTimeout(1));
  }

  /**
    Whichever `beforeRetry` call rejects, it is the last one made: if the
    j-th hook is called and rejects, the chain ends on it, having invoked the
    operation j+1 times, and fails with that hook's error.
   */
  lemma {:induction false} FailedHookEnds<A, V, E>(p: Policy<E>, args: A, r: nat,
                                                  attempts: seq<Attempt<V, E>>,
                                                  hooks: seq<HookResult<E>>, top: bool, j: nat)
    requires j < |hooks| && hooks[j].Failed?
    ensures var t := RetryChain(p, args, r, attempts, hooks, top);
      j < |HookCalls(t.events)| ==>
        && j == |HookCalls(t.events)| - 1
        && Last(t.events).BeforeRetry?
        && Invocations(t.events) == j + 1
        && t.settlement == Rejected(hooks[j].error)
    decreases |attempts|
  {
    var t := RetryChain(p, args, r, attempts, hooks, top);
    if Continues(p, r, attempts, hooks) {
      var n := r + 1;
      var rest := RetryChain(p, args, n, attempts[1..], hooks[1..], false);
      InvocationCount(p, args, n, attempts[1..], hooks[1..], false);
      RoundThen(args, attempts[0].error, n, p.retryTimeout(n), rest.events);
      assert Last(t.events) == Last(rest.events);
      if 0 < j {
        assert hooks[1..][j - 1] == hooks[j];
        FailedHookEnds(p, args, n, attempts[1..], hooks[1..], false, j - 1);
      }
    } else {
      FinalProjections(p, args, r, attempts, hooks, top);
    }
  }

  /**
    `onAllFailed` is called at most once per call chain, and exactly when the
    loop gives up on an operation error (retries exhausted or declined) and
    `onAllFailed` is a function. It receives that final error and the
    original arguments, is the last request of the chain, and the call then
    fails with the same error, so its return value changes nothing.
   */
  lemma {:induction false} NotifiedOnceOnGiveUp<A, V, E>(p: Policy<E>, args: A, r: nat,
                                                        attempts: seq<Attempt<V, E>>,
                                                        hooks: seq<HookResult<E>>, top: bool)
    ensures var t := RetryChain(p, args, r, attempts, hooks, top);
      && |Notifications(t.events)| <= 1
      && (Notifications(t.events) != [] <==>
            p.notifies && t.settlement.Rejected? && !Last(t.events).BeforeRetry?)
      && (Notifications(t.events) != [] ==>
            && Notifications(t.events) == [OnAllFailed(t.settlement.error, args)]
            && Last(t.events) == OnAllFailed(t.settlement.error, args))
    decreases |attempts|
  {
    var t := RetryChain(p, args, r, attempts, hooks, top);
    if Continues(p, r, attempts, hooks) {
      var n := r + 1;
      var rest := RetryChain(p, args, n, attempts[1..], hooks[1..], false);
      NotifiedOnceOnGiveUp(p, args, n, attempts[1..], hooks[1..], false);
      InvocationCount(p, args, n, attempts[1..], hooks[1..], false);
      RoundThen(args, attempts[0].error, n, p.retryTimeout(n), rest.events);
      assert Last(t.events) == Last(rest.events);
    } else {
      FinalProjections(p, args, r, attempts, hooks, top);
    }
  }

  /**
    A call whose first attempt succeeds, or returns a plain value, behaves
    exactly like the undecorated operation: one invocation, the same result,
    and neither `shouldRetry`, `retryTimeout`, `beforeRetry` nor
    `onAllFailed` is called.
   */
  lemma Transparency<A, V, E>(p: Policy<E>, args: A, attempts: seq<Attempt<V, E>>,
                              hooks: seq<HookResult<E>>)
    requires attempts != [] && !attempts[0].Err?
    ensures Call(p, args, attempts, hooks) == Direct(args, attempts)
    ensures Call(p, args, attempts, hooks).events == [Invoke(args)]
  {
  }

  /**
    The thenable test decides how a call's first result comes back: the call
    returns a plain value as is exactly when its first invocation did not
    return a promise, and then it is that value.
   */
  lemma ReturnedIffNotPromise<A, V, E>(p: Policy<E>, args: A, attempts: seq<Attempt<V, E>>,
                                       hooks: seq<HookResult<E>>)
    ensures var t := Call(p, args, attempts, hooks);
      && (t.settlement.Returned? <==> attempts != [] && !IsPromise(attempts[0]))
      && (t.settlement.Returned? ==> attempts[0] == Sync(t.settlement.value))
  {
    ValuePassedThrough(p, args, 0, attempts, hooks, true);
  }

  /**
    The credential-refresh scenario: two 401 failures then a success, with
    `maxRetries` 2 and a `shouldRetry` that accepts only 401. The hook runs
    twice (with 1 and 2), the operation three times, and the call resolves
    with the third attempt's value.
   */
  lemma RefreshScenario<A, V>(args: A, v: V, p: Policy<int>)
    requires p.maxRetries == Finite(2)
    requires forall code :: p.shouldRetry(code) <==> code == 401
    ensures var t := Call(p, args, [Err(401), Err(401), Ok(v)], [Done, Done]);
      && HookCalls(t.events) == [1, 2]
      && Invocations(t.events) == 3
      && t.settlement == Resolved(v)
  {
    var attempts: seq<Attempt<V, int>> := [Err(401), Err(401), Ok(v)];
    var hooks: seq<HookResult<int>> := [Done, Done];
    var last := RetryChain(p, args, 2, attempts[2..], hooks[2..], false);
    FinalProjections(p, args, 2, attempts[2..], hooks[2..], false);
    assert last == Trace([Invoke(args)], Resolved(v));
    var mid := RetryChain(p, args, 1, attempts[1..], hooks[1..], false);
    assert mid.events == Round(args, 401, 2, p.retryTimeout(2)) + last.events;
    RoundThen(args, 401, 2, p.retryTimeout(2), last.events);
    var t := Call(p, args, attempts, hooks);
    assert t.events == Round(args, 401, 1, p.retryTimeout(1)) + mid.events;
    RoundThen(args, 401, 1, p.retryTimeout(1), mid.events);
  }

  lemma PrependTwice<A, V, E>(a: seq<Event<A, E>>, b: seq<Event<A, E>>, t: Trace<A, V, E>)
    ensures Prepend(a, Prepend(b, t)) == Prepend(a + b, t)
  {
    assert a + (b + t.events) == (a + b) + t.events;
  }

  /** One step of a chain that stops: the chain is its last step. */
  lemma StopStep<A, V, E>(p: Policy<E>, args: A, r: nat, attempts: seq<Attempt<V, E>>,
                          hooks: seq<HookResult<E>>, top: bool)
    requires !Continues(p, r, attempts, hooks)
    ensures RetryChain(p, args, r, attempts, hooks, top) == FinalStep(p, args, r, attempts, hooks, top)
  {
  }

  /** One step of a chain that goes round again: a round, then the rest. */
  lemma ContinueStep<A, V, E>(p: Policy<E>, args: A, r: nat, attempts: seq<Attempt<V, E>>,
                              hooks: seq<HookResult<E>>, top: bool)
    requires Continues(p, r, attempts, hooks)
    ensures RetryChain(p, args, r, attempts, hooks, top) ==
              Prepend(Round(args, attempts[0].error, r + 1, p.retryTimeout(r + 1)),
                      RetryChain(p, args, r + 1, attempts[1..], hooks[1..], false))
  {
  }

  /** One round of the loop in `InvocationState.Run`: the events so far plus
      one round, in front of the rest of the chain, give the same trace. */
  lemma Advance<A, V, E>(p: Policy<E>, args: A, r: nat, attempts: seq<Attempt<V, E>>,
                         hooks: seq<HookResult<E>>, top: bool, events: seq<Event<A, E>>)
    requires Continues(p, r, attempts, hooks)
    ensures var round := Round(args, attempts[0].error, r + 1, p.retryTimeout(r + 1));
      && Prepend(events + round, RetryChain(p, args, r + 1, attempts[1..], hooks[1..], false)) ==
           Prepend(events, RetryChain(p, args, r, attempts, hooks, top))
      && HookCalls(events + round) == HookCalls(events) + [r + 1]
  {
    var round := Round(args, attempts[0].error, r + 1, p.retryTimeout(r + 1));
    ContinueStep(p, args, r, attempts, hooks, top);
    PrependTwice(events, round, RetryChain(p, args, r + 1, attempts[1..], hooks[1..], false));
    HookCallsAppend(events, round);
    RoundProjections(args, attempts[0].error, r + 1, p.retryTimeout(r + 1));
  }

  // ---- The mutable per-call state ------------------------------------------

  /** The receiver object `{}` on which `retry` keeps its counter. */
  class InvocationState {
    var retries: nat

    constructor ()
      ensures retries == 0
    {
      retries := 0;
    }

    /**
      The last `retry` call of a chain: invoke the operation once and either
      settle with its outcome, give up on its error, or increment the counter
      for a retry whose `beforeRetry` call fails or never settles.
     */
    method Finish<A, V, E>(p: Policy<E>, args: A, attempts: seq<Attempt<V, E>>,
                           hooks: seq<HookResult<E>>, top: bool) returns (t: Trace<A, V, E>)
      requires !Continues(p, retries, attempts, hooks)
      modifies this
      ensures t == FinalStep(p, args, old(retries), attempts, hooks, top)
      ensures retries == old(retries) + |HookCalls(t.events)|
    {
      ghost var none: seq<Event<A, E>> := [];
      if attempts == [] {
        t := Trace([Invoke(args)], Pending);
        ProjectionsCons(Invoke(args), none);
        assert [Invoke(args)] + none == t.events;
      } else if !attempts[0].Err? {
        var v := attempts[0].value;
        t := Trace([Invoke(args)], if top && attempts[0].Sync? then Returned(v) else Resolved(v));
        ProjectionsCons(Invoke(args), none);
        assert [Invoke(args)] + none == t.events;
      } else if !(p.shouldRetry(attempts[0].error) && BelowMax(retries, p.maxRetries)) {
        t := Trace(GiveUp(args, attempts[0].error, p.notifies), Rejected(attempts[0].error));
        StopProjections(args, attempts[0].error, p.notifies);
      } else {
        retries := retries + 1;
        var round := Round(args, attempts[0].error, retries, p.retryTimeout(retries));
        t := Trace(round, if hooks == [] then Pending else Rejected(hooks[0].error));
        RoundProjections(args, attempts[0].error, retries, p.retryTimeout(retries));
      }
    }

    /**
      The recursive `retry` calls of one chain, run as a loop over the same
      counter: each retry increments `retries` once, so it ends up advanced
      by the number of `beforeRetry` calls.
     */
    method Run<A, V, E>(p: Policy<E>, args: A, attempts: seq<Attempt<V, E>>,
                        hooks: seq<HookResult<E>>) returns (t: Trace<A, V, E>)
      modifies this
      ensures t == RetryChain(p, args, old(retries), attempts, hooks, true)
      ensures retries == old(retries) + |HookCalls(t.events)|
    {
      ghost var whole := RetryChain(p, args, retries, attempts, hooks, true);
      ghost var start := retries;
      var events: seq<Event<A, E>> := [];
      var todo, hooksLeft, first := attempts, hooks, true;
      while Continues(p, retries, todo, hooksLeft)
        invariant retries == start + |HookCalls(events)|
        invariant Prepend(events, RetryChain(p, args, retries, todo, hooksLeft, first)) == whole
        decreases |todo|
      {
        Advance(p, args, retries, todo, hooksLeft, first, events);
        retries := retries + 1;
        var round := Round(args, todo[0].error, retries, p.retryTimeout(retries));
        events, todo, hooksLeft, first := events + round, todo[1..], hooksLeft[1..], false;
      }
      StopStep(p, args, retries, todo, hooksLeft, first);
      var last := Finish(p, args, todo, hooksLeft, first);
      HookCallsAppend(events, last.events);
      t := Prepend(events, last);
    }
  }

  /**
    The function `retryWrapper` returned by `createRetryFunction`: every call
    runs on a fresh `InvocationState`, so a call's retry budget does not
    depend on what earlier or other calls did.
   */
  class RetryFunction<E> {
    const policy: Policy<E>

    constructor (p: Policy<E>)
      ensures policy == p
    {
      policy := p;
    }

    /** One call of `retryWrapper`: `retry` applied on a fresh receiver. */
    method Apply<A, V>(args: A, attempts: seq<Attempt<V, E>>, hooks: seq<HookResult<E>>)
      returns (t: Trace<A, V, E>)
      ensures t == Call(policy, args, attempts, hooks)
      ensures HookCalls(t.events) == Steps(0, |HookCalls(t.events)|)
    {
      var state := new InvocationState();
      t := state.Run(policy, args, attempts, hooks);
      CounterSteps(policy, args, 0, attempts, hooks, true);
    }
  }
}

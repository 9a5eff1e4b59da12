/**
  The decorator factory of promise-retryify: `retryWrap` merges the caller's
  options over the defaults and decorates either a single function or every
  selected function-valued property of an object.

  An object is given as the list of (key, value) pairs that `for...in`
  enumerates (own and inherited enumerable keys, in enumeration order); a
  function is identified by a value of type `F`, any other property value
  is of type `O`.
 */
module RetryWrap {
  import opened RetryEngine

  datatype Option<T> = None | Some(value: T)

  /** A property value of the input object. */
  datatype Value<F, O> = Fn(f: F) | Other(o: O)

  /** A property value of the copy: a retrying wrapper around the original
      function, bound to the original object, or the original value as is. */
  datatype Member<F, O> = Retrying(f: F) | Copied(v: Value<F, O>)

  /** The options a caller may pass; `None` keeps the default. For
      `onAllFailed`, `Some(false)` is a value that is not a function. */
  datatype Overrides<!E> = Overrides(
    shouldRetry: Option<E -> bool>,
    maxRetries: Option<MaxRetries>,
    retryTimeout: Option<nat -> int>,
    attributePicker: Option<string -> bool>,
    onAllFailed: Option<bool>)

  /** The options after merging. */
  datatype Options<!E> = Options(policy: Policy<E>, attributePicker: string -> bool)

  function NoOverrides<E>(): Overrides<E>
  {
    Overrides(None, None, None, None, None)
  }

  function OrElse<T>(o: Option<T>, default: T): T
  {
    if o.Some? then o.value else default
  }

  /**
    The merge of the caller's options over the defaults: an option the caller
    gives wins, every other keeps its default (retry on every error, at most
    5 retries, 500 ms between attempts, decorate every function-valued key,
    and an `onAllFailed` that is a function).
   */
  function Merge<E(!new)>(o: Overrides<E>): (c: Options<E>)
    ensures o.shouldRetry.Some? ==> c.policy.shouldRetry == o.shouldRetry.value
    ensures o.shouldRetry.None? ==> forall e :: c.policy.shouldRetry(e)
    ensures o.maxRetries.Some? ==> c.policy.maxRetries == o.maxRetries.value
    ensures o.maxRetries.None? ==> c.policy.maxRetries == Finite(5)
    ensures o.retryTimeout.Some? ==> c.policy.retryTimeout == o.retryTimeout.value
    ensures o.retryTimeout.None? ==> forall n :: c.policy.retryTimeout(n) == 500
    ensures o.attributePicker.Some? ==> c.attributePicker == o.attributePicker.value
    ensures o.attributePicker.None? ==> forall k :: c.attributePicker(k)
    ensures c.policy.notifies == (o.onAllFailed != Some(false))
  {
    Options(
      Policy(
        OrElse(o.maxRetries, Finite(5)),
        OrElse(o.shouldRetry, (e: E) => true),
        OrElse(o.retryTimeout, (n: nat) => 500),
        OrElse(o.onAllFailed, true)),
      OrElse(o.attributePicker, (k: string) => true))
  }

  /** The value `obj[k]` reads: the last pair enumerated with key k. */
  function Lookup<F, O>(props: seq<(string, Value<F, O>)>, k: string): Option<Value<F, O>>
  {
    if props == [] then None
    else if props[|props| - 1].0 == k then Some(props[|props| - 1].1)
    else Lookup(props[..|props| - 1], k)
  }

  /** The keys enumerated. */
  function Keys<F, O>(props: seq<(string, Value<F, O>)>): set<string>
  {
    set i | 0 <= i < |props| :: props[i].0
  }

  /**
    `copy` is the decorated shallow copy of the object enumerated as `props`:
    it has exactly the enumerated keys; a key holds a retrying wrapper exactly
    when its value is a function and `picker` accepts the key, and that
    wrapper wraps the key's function; every other key holds its value
    unchanged.
   */
  ghost predicate IsWrappedCopy<F, O>(copy: map<string, Member<F, O>>,
                                      props: seq<(string, Value<F, O>)>,
                                      picker: string -> bool)
  {
    && copy.Keys == Keys(props)
    && forall k :: k in copy ==>
         && Lookup(props, k).Some?
         && (copy[k].Retrying? <==> Lookup(props, k).value.Fn? && picker(k))
         && (copy[k].Retrying? ==> Lookup(props, k).value == Fn(copy[k].f))
         && (copy[k].Copied? ==> copy[k].v == Lookup(props, k).value)
  }

  /** Appending a pair rebinds its key and leaves the others as they were. */
  lemma LookupSnoc<F, O>(props: seq<(string, Value<F, O>)>, key: string, val: Value<F, O>, k: string)
    ensures Lookup(props + [(key, val)], k) == if k == key then Some(val) else Lookup(props, k)
    ensures Keys(props + [(key, val)]) == Keys(props) + {key}
  {
    var q := props + [(key, val)];
    assert q[..|q| - 1] == props;
    forall x | x in Keys(props) ensures x in Keys(q) {
      var i :| 0 <= i < |props| && props[i].0 == x;
      assert q[i].0 == x;
    }
    assert q[|q| - 1].0 == key;
  }

  /** A key that was enumerated has a value, and only those do. */
  lemma {:induction false} LookupDefined<F, O>(props: seq<(string, Value<F, O>)>, k: string)
    ensures Lookup(props, k).Some? <==> k in Keys(props)
  {
    if props != [] {
      var init := props[..|props| - 1];
      var last := props[|props| - 1];
      assert props == init + [last];
      LookupSnoc(init, last.0, last.1, k);
      LookupDefined(init, k);
    }
  }

  /** With distinct keys, as `for...in` enumerates them, each key reads its own value. */
  lemma {:induction false} LookupDistinct<F, O>(props: seq<(string, Value<F, O>)>, i: nat)
    requires i < |props|
    requires forall a, b :: 0 <= a < b < |props| ==> props[a].0 != props[b].0
    ensures Lookup(props, props[i].0) == Some(props[i].1)
  {
    var init := props[..|props| - 1];
    var last := props[|props| - 1];
    assert props == init + [last];
    LookupSnoc(init, last.0, last.1, props[i].0);
    if i < |props| - 1 {
      LookupDistinct(init, i);
    }
  }

  /**
    `_retryWrapObject`: a fresh object filled key by key; the input list is a
    value and is not changed.
   */
  method WrapObject<F, O>(props: seq<(string, Value<F, O>)>, picker: string -> bool)
    returns (copy: map<string, Member<F, O>>)
    ensures IsWrappedCopy(copy, props, picker)
  {
    copy := map[];
    var i := 0;
    while i < |props|
      invariant 0 <= i <= |props|
      invariant IsWrappedCopy(copy, props[..i], picker)
    {
      var (key, val) := props[i];
      assert props[..i + 1] == props[..i] + [(key, val)];
      if val.Fn? && picker(key) {
        copy := copy[key := Retrying(val.f)];
      } else {
        copy := copy[key := Copied(val)];
      }
      forall k
        ensures Lookup(props[..i + 1], k) == (if k == key then Some(val) else Lookup(props[..i], k))
      {
        LookupSnoc(props[..i], key, val, k);
      }
      LookupSnoc(props[..i], key, val, key);
      i := i + 1;
    }
    assert props[..i] == props;
  }

  /** What `retryWrap` may be given. */
  datatype Target<F, O> = FunctionTarget(f: F) | ObjectTarget(props: seq<(string, Value<F, O>)>)

  /** What `retryWrap` returns: one retrying wrapper (`_retryWrapFunction`,
      bound to the function itself) or the decorated copy of an object. */
  datatype Surface<F, O> = WrappedFunction(f: F) | WrappedObject(members: map<string, Member<F, O>>)

  /**
    `retryWrap`: resolve the options, then decorate a function as a whole or
    an object key by key.
   */
  method RetryWrap<F, O, E(!new)>(target: Target<F, O>, overrides: Overrides<E>)
    returns (opts: Options<E>, surface: Surface<F, O>)
    ensures opts == Merge(overrides)
    ensures target.FunctionTarget? ==> surface == WrappedFunction(target.f)
    ensures target.ObjectTarget? ==>
              surface.WrappedObject? && IsWrappedCopy(surface.members, target.props, opts.attributePicker)
  {
    opts := Merge(overrides);
    match target {
      case FunctionTarget(f) =>
        surface := WrappedFunction(f);
      case ObjectTarget(props) =>
        var copy := WrapObject(props, opts.attributePicker);
        surface := WrappedObject(copy);
    }
  }

  /**
    The copy has the same keys as the object, and a key whose value is a
    function keeps a function (decorated or not): the call surface is
    unchanged.
   */
  lemma ShapePreserved<F, O>(copy: map<string, Member<F, O>>, props: seq<(string, Value<F, O>)>,
                             picker: string -> bool, k: string)
    requires IsWrappedCopy(copy, props, picker)
    ensures k in copy <==> Lookup(props, k).Some?
    ensures k in copy ==> (Lookup(props, k).value.Fn? <==> (copy[k].Retrying? || copy[k].v.Fn?))
    ensures k in copy && !Lookup(props, k).value.Fn? ==> copy[k] == Copied(Lookup(props, k).value)
  {
    LookupDefined(props, k);
  }

  /**
    With no options given, an operation that always fails is invoked six
    times, with 500 ms requested before each of the five retries, and the
    call fails with the sixth error after one `onAllFailed` call.
   */
  lemma DefaultsRetryFiveTimes<A, V, E(!new)>(args: A, attempts: seq<Attempt<V, E>>,
                                        hooks: seq<HookResult<E>>)
    requires |attempts| > 5 && |hooks| >= 5
    requires forall i :: 0 <= i < |attempts| ==> attempts[i].Err?
    requires forall i :: 0 <= i < |hooks| ==> hooks[i] == Done
    ensures var t := Call(Merge(NoOverrides<E>()).policy, args, attempts, hooks);
      && Invocations(t.events) == 6
      && HookCalls(t.events) == [1, 2, 3, 4, 5]
      && DelayCalls(t.events) == [1, 2, 3, 4, 5]
      && (forall i :: 0 <= i < |t.events| && t.events[i].Delay? ==> t.events[i].ms == 500)
      && t.settlement == Rejected(attempts[5].error)
      && Notifications(t.events) == [OnAllFailed(attempts[5].error, args)]
  {
    var p := Merge(NoOverrides<E>()).policy;
    AlwaysFailing(p, args, 5, attempts, hooks);
    CounterSteps(p, args, 0, attempts, hooks, true);
    DelaysAsRequested(p, args, 0, attempts, hooks, true);
    assert Steps(0, 5) == [1, 2, 3, 4, 5];
  }

  /**
    Decorating `{a: fn, b: fn, c: 42}` with a picker that rejects "b":
    "a" is decorated, "b" is the original function and "c" is 42.
   */
  method ShapeScenario() returns (copy: map<string, Member<nat, int>>)
    ensures copy.Keys == {"a", "b", "c"}
    ensures copy["a"] == Retrying(1) && copy["b"] == Copied(Fn(2)) && copy["c"] == Copied(Other(42))
  {
    var props: seq<(string, Value<nat, int>)> := [("a", Fn(1)), ("b", Fn(2)), ("c", Other(42))];
    copy := WrapObject(props, (k: string) => k != "b");
    LookupDistinct(props, 0);
    LookupDistinct(props, 1);
    LookupDistinct(props, 2);
    assert Keys(props) == {"a", "b", "c"} by {
      assert props[0].0 == "a" && props[1].0 == "b" && props[2].0 == "c";
    }
  }
}

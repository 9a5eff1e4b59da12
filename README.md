# promise-retryify in Dafny

A model of the retry decorator in `src/index.js`. `retryWrap(obj, opts)` merges the caller's options over the defaults. It then decorates either one function or every selected function-valued key of an object. Each call to a decorated function runs the retry loop:

- The loop keeps a counter on a fresh receiver object, starting at 0.
- After a failed attempt it asks `shouldRetry(err)` and compares the counter with `maxRetries`.
- If it retries, it increments the counter, asks for a delay of `retryTimeout(counter)`, awaits `beforeRetry(counter, args)` and calls the operation again.
- If it gives up, it calls `onAllFailed(err, ...args)` and rethrows `err`.

Two modules:

- `RetryEngine` (`retry_engine.dfy`) covers `createRetryFunction`, its inner `retry` and the `retryWrapper` that gives each call a fresh counter.
  - Promises and timers are replaced by an oracle. `attempts[i]` is how the i-th invocation of the operation ends: a plain value (`Sync`), or a promise that fulfils (`Ok`) or rejects (`Err`). `hooks[i]` is how the i-th `beforeRetry` promise ends (`Done` or `Failed`). An invocation or hook the oracle has no entry for never settles.
  - The observable result is a `Trace`: the ordered requests the call makes, plus how the call settles.
    - Requests: invocations, `shouldRetry` consultations, delay requests, `beforeRetry` and `onAllFailed` calls.
    - Settlement: a plain value returned as is, a fulfilled or rejected promise, or a promise that never settles.
  - `RetryChain` is the recursive `retry` as a function.
  - `InvocationState` is the receiver object with its mutable `retries` field. `InvocationState.Run` runs the same chain as a loop that updates that field, and is proved equal to `RetryChain`.
  - `InvocationState.Finish` is the last `retry` call of a chain, the one that does not go round again.
  - `RetryFunction.Apply` is a call of `retryWrapper`: it allocates a fresh state for every call, and its trace is the module function `Call`.
- `RetryWrap` (`retry_wrap.dfy`) covers `retryWrap`, the option merge, `_retryWrapObject` and `_retryWrapFunction`.
  - An object is the list of (key, value) pairs that `for...in` enumerates. A value is either a function (`Fn`) or something else (`Other`).
  - The decorated copy is a map built key by key in a loop.

Three behaviours of `src/index.js` are easy to miss, and the model keeps them:

- The default `onAllFailed` is the function `err => null`. So by default it *is* called when the loop gives up. It is skipped only when the caller overrides it with a value that is not a function.
- `shouldRetry(err)` is consulted on every failure, even when the counter has already reached `maxRetries`, because it is evaluated first in the condition.
- A retried invocation that returns a plain value resolves the outer promise. Such a call therefore ends `Resolved`, while a plain value from the very first invocation is `Returned` as is.

## Model

| member | source | states |
|---|---|---|
| RetryEngine.IsPromise | src/index.js:3-5 | defines the thenable test as the attempt's tag; no contract (see `ReturnedIffNotPromise`) |
| RetryEngine.FinalStep | src/index.js:18-47 | defines the last `retry` call of a chain (settle, give up, or a retry whose hook fails or never settles); no contract (see `FinalProjections`, `InvocationState.Finish`) |
| RetryEngine.RetryChain | src/index.js:8-52 | defines `retry` for a chain whose counter holds r; no contract (its properties are the lemmas below) |
| RetryEngine.Call | src/index.js:54-59 | defines one call of `retryWrapper`: the chain from counter 0; no contract (see `RetryFunction.Apply`) |
| RetryEngine.CounterSteps | src/index.js:25-39 | the counter values passed to `beforeRetry` are r+1, r+2, ... in order, and `retryTimeout` receives exactly the same sequence |
| RetryEngine.DelaysAsRequested | src/index.js:27-39 | every delay requested lasts `retryTimeout(n)` for the counter value n it was requested with |
| RetryEngine.RetryCeiling | src/index.js:21-25 | at most one retry per failed attempt and per settled hook, and with a finite `maxRetries` the counter never passes it |
| RetryEngine.InvocationCount | src/index.js:18-32 | the first request is always an invocation; invocations = `beforeRetry` calls, plus one unless the chain ends on a hook |
| RetryEngine.RetryDecision | src/index.js:21-23 | a failed attempt is retried if and only if `shouldRetry(err)` holds and the counter is below `maxRetries`; otherwise the call fails with that error after one invocation |
| RetryEngine.ZeroDisablesRetry | src/index.js:71-74 | `maxRetries` 0 gives exactly one invocation, no delay and no `beforeRetry` call |
| RetryEngine.UnboundedStopsOnlyOnDecline | src/index.js:21-23 | with Infinity, a call that fails with the operation's error fails on an error `shouldRetry` declined |
| RetryEngine.ExhaustsFrom | src/index.js:18-47 | from counter r with `maxRetries` k, attempts that fail with errors `shouldRetry` accepts, and hooks that succeed: k-r+1 invocations, hooks get r+1..k, the error is the last attempt's, and, when `onAllFailed` is a function, one `onAllFailed` call carrying it (none otherwise) |
| RetryEngine.AlwaysFailing | src/index.js:18-47 | a top-level call with `maxRetries` k, attempts that fail with errors `shouldRetry` accepts, and hooks that succeed invokes the operation k+1 times, hooks get 1..k, it fails with the (k+1)-th error unchanged, and, when `onAllFailed` is a function, one `onAllFailed` call carries that error (none otherwise) |
| RetryEngine.HookBeforeNextInvoke | src/index.js:28-32 | every invocation after the first comes right after a `beforeRetry` call that settled successfully, numbered within the hooks available |
| RetryEngine.ValuePassedThrough | src/index.js:19-51 | a returned value comes only from the first invocation of a top-level call; a fulfilled value is the last invocation's value, unchanged |
| RetryEngine.ErrorPassedThrough | src/index.js:43-47 | when the loop gives up, the call fails with the last invocation's error, unchanged |
| RetryEngine.HookOutcome | src/index.js:28-38 | a chain that ends on a `beforeRetry` call ends with that hook's rejection or never settles, and never succeeds |
| RetryEngine.HookFailureSubstitutes | src/index.js:28-38 | a top-level call that ends on a `beforeRetry` call has no `onAllFailed` call, has one invocation per hook call, fails with that hook's error or never settles, and never succeeds |
| RetryEngine.HookRejectionStops | src/index.js:28-38 | after a failed attempt that is retried, a rejecting `beforeRetry` ends the chain right after that round, and the call fails with the hook's error |
| RetryEngine.FirstHookRejects | src/index.js:28-38 | if the first retry's hook rejects, the operation runs once, `beforeRetry` is called once with 1, there is no `onAllFailed` call, and the call fails with the hook's error |
| RetryEngine.FailedHookEnds | src/index.js:28-38 | if the j-th `beforeRetry` call is made and rejects, it is the last hook call: the chain ends on it after j+1 invocations and fails with that hook's error |
| RetryEngine.NotifiedOnceOnGiveUp | src/index.js:43-47 | `onAllFailed` is called at most once, if and only if the loop gives up on an operation error and it is a function; it gets that error and the original arguments, it is the last request, and the call fails with that same error |
| RetryEngine.Transparency | src/index.js:18-51 | if the first attempt succeeds or returns a plain value, the call equals the undecorated operation called once: no `shouldRetry`, delay, hook or notification |
| RetryEngine.ReturnedIffNotPromise | src/index.js:3-5 | a call returns a value as is if and only if its first invocation did not return a promise, and then it returns that value |
| RetryEngine.RefreshScenario | src/index.js:21-39 | two 401 failures and then success, with `maxRetries` 2 and only 401 retried: hooks get 1 and 2, three invocations, and the third value is the result |
| RetryEngine.InvocationState.constructor | src/index.js:11-14 | the counter of a new receiver starts at 0 |
| RetryEngine.InvocationState.Finish | src/index.js:18-47 | the last call of a chain produces exactly the chain's last step, and advances the counter only when it retries into a hook that fails or never settles |
| RetryEngine.InvocationState.Run | src/index.js:8-52 | the loop over the `retries` field produces exactly the trace of the recursive chain, and leaves the field advanced by the number of `beforeRetry` calls |
| RetryEngine.RetryFunction.constructor | src/index.js:7-60 | the decorated function keeps the policy it was created with |
| RetryEngine.RetryFunction.Apply | src/index.js:54-59 | every call runs on a fresh counter: its trace is `Call`, the chain from 0, whatever earlier calls did, and its hooks receive 1, 2, ... |
| RetryWrap.Merge | src/index.js:63-82 | each option the caller gives wins; otherwise retry on every error, `maxRetries` 5, 500 ms, accept every key, and `onAllFailed` is a function |
| RetryWrap.LookupDefined | src/index.js:96-97 | a key has a value exactly when it was enumerated |
| RetryWrap.LookupDistinct | src/index.js:96-97 | with distinct enumerated keys, each key reads its own value |
| RetryWrap.WrapObject | src/index.js:91-107 | the copy has exactly the enumerated keys; a key is wrapped if and only if its value is a function the picker accepts, and the wrapper wraps that function; every other value is copied unchanged |
| RetryWrap.ShapePreserved | src/index.js:91-107 | the copy has the object's keys, a function-valued key stays a function (wrapped or not), and a non-function value is copied as is |
| RetryWrap.RetryWrap | src/index.js:62-89 | the options are the merge; a function gets a single wrapper of itself (`_retryWrapFunction`, lines 109-111); an object gets the wrapped copy under the merged picker |
| RetryWrap.DefaultsRetryFiveTimes | src/index.js:66-81 | with no options, an always-failing operation runs six times, with 500 ms requested before each of retries 1..5, and fails with the sixth error after one `onAllFailed` call |
| RetryWrap.ShapeScenario | src/index.js:99-103 | `{a: fn, b: fn, c: 42}` with a picker that rejects "b" gives "a" wrapped, "b" the original function and "c" 42 |

## Left out

- Promises, `setTimeout` and wall-clock time. The model keeps the order of requests, and a delay is only the recorded request `retryTimeout(n)`. A promise that never settles is the `Pending` settlement.
- Interleaving of concurrent calls. Isolation between calls is modelled as a fresh counter per call (`RetryFunction.Apply`), not as a concurrency model.
- Duck-typed thenable detection through lodash. Each attempt carries a tag saying whether it is a promise (`IsPromise`).
- Deep-merge semantics of lodash `merge`. An option is either given, and then wins, or absent, and then keeps its default. A non-function `onAllFailed` is a boolean flag.
- `beforeRetry` as an option value. Its outcomes come from the `hooks` oracle, and its default, an immediately resolved promise, corresponds to hooks that are all `Done`.
- The receiver of the operation and of `onAllFailed`, and `_.bind`. A wrapper records only which function it decorates.
- `onAllFailed`'s return value, which the code ignores.
- Prototype-chain enumeration by `for...in`. The enumerated pairs are an input list. That list is a value, so the input object is trivially left unchanged, and aliasing between the copy and the original is not modelled.
- Synchronous throws from user callbacks. A throw from `attributePicker` ends the decoration with the thrown error.
  - A throw from the operation on the first call ends the call with that error. A throw from the operation on a later call, or from `shouldRetry`, `retryTimeout` or `onAllFailed`, makes the call's promise reject with it.
  - A throw from `beforeRetry` is different. The hook is called inside the timer callback before any promise chain exists (lines 27-28), so the `.catch` on line 38 never sees it. The error escapes the timer as an uncaught exception, and the call's promise never settles.
- Argument lists changed by `beforeRetry`. The hook receives the call's argument array itself (line 28), and that same array is what the next invocation is applied to (line 32). A hook that mutates it therefore changes what later invocations and `onAllFailed` receive. The model keeps one argument value for the whole chain: every `Invoke`, `BeforeRetry` and `OnAllFailed` event carries the arguments of the top-level call.
- RetryEngine.NotifiedOnceOnGiveUp: "the original arguments" holds only for `beforeRetry` hooks that leave the argument array unchanged, because the model does not represent mutation of that array.
- `maxRetries` values other than a non-negative integer or Infinity (negative, fractional, non-numeric). They are not representable in `MaxRetries`.
- A retry promise that settles with several values. A settlement carries one value.
- A receiver whose `retries` is already set before the first call. `retryWrapper` always passes a fresh `{}`, and `InvocationState.Run` starts from whatever the field holds.
- The example Spotify client. It is only an application of the library; `RefreshScenario` uses a policy of the same kind.

# Coordination core of `src/utilities.js`

This project models the coordination primitives of `src/utilities.js`:

- `Matches.match`, which decides whether a record satisfies a filter;
- `HashArrays.find`, `findOnce` and `remove`, which apply the matcher to an ordered list of records;
- `Threads.river`, a fan-in join: named branches complete, and a final callback fires with every branch's arguments;
- `Threads.latchbinder`, a one-shot latch that freezes its first arguments for every callback bound before or after it;
- `Binds.simple`, an ordered handler list with filter-based `bind`, `unbind` and `trigger` (wildcard handlers run last, and a handler returning `false` stops the dispatch);
- `Binds.retentive`, which wraps that list with an event log that a late `bind` replays, and that `forget` clears;
- `Arguments.isNonNullFn` and `assertNonNullFn`, which `join` uses to check its final callback.

## How it is modelled

JavaScript values form a datatype (`Values.Value`). Objects and functions carry an identity, so Dafny's `==` is JavaScript's `===`. A record is a map of its own enumerable properties. An array element is `Missing` (undefined) or `Present(record)`.

`$.extend` is `Values.Extend`. It copies every property whose value is not `undefined`.

A filter is either an equality map or an opaque predicate (`Matches.Filter`). The argument of `bind`, `unbind` and `trigger` (`Binds.TypeArg`) has three forms:

- a type string;
- a filter object, with its identity and its properties;
- a predicate function, with its identity.

The identity matters because `retentive.bind` compares each logged `type` with the argument itself.

There is one form per kind of source code:

- **Loops.** `match`, `find`, `findOnce`, `remove`, the dispatch loop of `trigger`, the replay loop of `retentive.bind` and the flush loop of `latch` are methods with `while` loops. Each is proved against a specification function: `Satisfies`, `Selected`, `Rejected`, `Dispatched`, `Replays` or `CallsOf`.
- **Closures over state.** The river, the latch binder, the binder and the retentive binder are classes. Their fields are the variables the closures update.

External callbacks are identified by natural numbers. An invocation is a `Call(fn, args)` value, and the invocations an operation makes are returned as an out-parameter, in order. What a handler returns is a parameter `answer: nat -> Ret`, indexed by dispatch position. A host `TypeError` from calling a value that is not a function is the error `NotAFunction`.

`Threads.LatchBinder` keeps two ghost fields: every callback bound (`bound`) and every invocation made (`served`). Its `Valid` invariant states the latch's exactly-once delivery.

The `Scenarios` module derives the following concrete behaviours from the contracts alone:

- the `"a"`/`"*"` dispatch order, including the stop after the second handler;
- the replay of two `"evt"` events, and the effect of `forget`;
- the latch with three early binders, one late binder and a second `latch`;
- a duplicate branch name;
- a join after every branch has completed;
- a repeat completion;
- a second firing of the final callback after a late branch.

### Behaviours of the code worth knowing

- **`bind`'s return value.** `bind` returns the new length of the handler array, not a stable handle. Lengths repeat after an `unbind`.
- **What `unbind` removes.** `unbind` removes every handler that *matches* the filter, that is, every handler whose properties include the filter's. It does not look for a handler whose filter *equals* it. So a round trip `bind` then `unbind` restores the list only when no earlier handler matched the same pair (`Binds.BindUnbindRoundTrip`).
- **`trigger('*')`.** It dispatches each wildcard handler twice: once as a match and once as a wildcard (`Binds.WildcardTriggerTwice`).
- **When an event is logged.** `retentive.trigger` logs the event only after the inner `trigger` returns. If the dispatch throws, nothing is logged; the model covers this for a handler whose `fn` is not a function.
- **The river fires more than once.** The final callback fires again whenever every branch is complete once more: after a later `join`, or after a branch registered late completes (`Scenarios.RefiresAfterLateBranch`). A truthy final value that is not a function makes the completing branch's call throw.
- **The missing-callback error.** `join` throws the string `"Parameter is null"` (`ParameterIsNull`) when its last argument is not a function. The value is stored before that check.

## Model

| member | source | states |
|---|---|---|
| Values.IsNonNullFn | src/utilities.js:849-851 | accepts exactly the function values: `undefined`, `null` and every other non-function are refused |
| Values.Extend | src/utilities.js:894 | the keys of the result are the base's keys plus the source's keys with a defined value; source values win, and other base values are kept |
| Matches.Match | src/utilities.js:293-314 | result is `Satisfies`: a predicate's own verdict, or a non-empty equality map every key of which equals the defined entry's property (an absent property reads as undefined) |
| HashArrays.Find | src/utilities.js:792-801 | result is exactly the matching items in list order (`Selected`) |
| HashArrays.FindOnce | src/utilities.js:802-813 | result is the first matching item, or undefined when none matches |
| HashArrays.Remove | src/utilities.js:781-791 | the list left behind is exactly the non-matching items in order, and the result exactly the matching ones in their original order |
| HashArrays.SelectedAppend | src/utilities.js:792-801 | selection distributes over concatenation |
| HashArrays.RejectedAppend | src/utilities.js:781-791 | rejection distributes over concatenation |
| HashArrays.SelectedCount | src/utilities.js:781-801 | each item occurs in the selection as often as in the list when it matches and never otherwise, and in the rejection the other way round |
| HashArrays.SelectedRejectedPartition | src/utilities.js:781-791 | removed items plus survivors are a permutation of the original list |
| HashArrays.SelectedFirst | src/utilities.js:802-813 | the first matching position heads the selection |
| HashArrays.NoneSelected | src/utilities.js:802-813 | a list with no matching item selects nothing and rejects everything |
| Threads.AllCompleted | src/utilities.js:237-239 | among registered branches, `count === size` holds exactly when every branch has completed |
| Threads.River.constructor | src/utilities.js:220-225 | a fresh river has no branches, no results and no final callback |
| Threads.River.Branch | src/utilities.js:227-234 | a duplicate name throws and registers nothing new; otherwise the name is registered; results and final callback are unchanged |
| Threads.River.Complete | src/utilities.js:235-247 | the first call captures its arguments and a repeat call changes nothing; the final callback fires, with all results, exactly when this call completes the last branch and the final value is a function; a truthy non-function throws |
| Threads.River.Join | src/utilities.js:250-258 | stores the final value; throws unless it is a function; fires it at once with all results exactly when every branch has completed |
| Threads.LatchBinder.constructor | src/utilities.js:265-267 | a fresh latch is open with an empty queue |
| Threads.LatchBinder.Latch | src/utilities.js:268-277 | the first call freezes its arguments and invokes the queued callbacks in order with them; later calls change nothing; every bound callback has then been served exactly once |
| Threads.LatchBinder.Bind | src/utilities.js:278-284 | after the latch, invokes the callback at once with the frozen arguments; before it, queues the callback; the exactly-once invariant is kept |
| Binds.DispatchedUnique | src/utilities.js:902-919 | the dispatch specification determines the count, the outcome and the invocations |
| Binds.NormalizeMeaning | src/utilities.js:893 | a type string `s` is normalized to a filter matching exactly the defined entries whose `type` is `s`; a filter object is used as an equality map and a predicate as it is |
| Binds.Binder.constructor | src/utilities.js:889-890 | a fresh binder has no handlers |
| Binds.Binder.Bind | src/utilities.js:892-896 | appends `$.extend({fn}, filter)` and returns the new length |
| Binds.Binder.Unbind | src/utilities.js:897-901 | the handlers become exactly those not matching the filter (narrowed to the callback when given), in order |
| Binds.Binder.Trigger | src/utilities.js:902-919 | invokes matching handlers, then wildcard handlers, in binding order, each with the trigger's arguments, until one returns `false` (counted) or the list ends; returns the count; throws at the first handler whose `fn` is not a function |
| Binds.ReplayAll | src/utilities.js:934-937 | invokes the callback once per matched event, in log order, with that event's arguments |
| Binds.Retentive.constructor | src/utilities.js:927-929 | a fresh retentive binder has no handlers and an empty log |
| Binds.Retentive.Bind | src/utilities.js:931-940 | binds on the inner binder, returns its length, and replays every logged event of the same type (all events for `'*'`) in log order |
| Binds.Retentive.Unbind | src/utilities.js:941-943 | the inner binder's unbind; the log is untouched |
| Binds.Retentive.Trigger | src/utilities.js:944-951 | the inner binder's dispatch; the event is appended to the log once that dispatch has returned |
| Binds.Retentive.Forget | src/utilities.js:952-955 | the log becomes empty; the handlers stay; the binder itself is returned, for chaining |
| Binds.SingleKeyFilter | src/utilities.js:293-309 | a one-key filter `{k: v}` matches exactly the defined entries whose `k` is `v` |
| Binds.HandlerMatchesOwnUnbind | src/utilities.js:892-900 | a handler bound with `(t, fn)` matches the filter of `unbind(t, fn)` |
| Binds.BindUnbindRoundTrip | src/utilities.js:892-901 | bind then unbind of the same pair restores the handler list when no earlier handler matched that pair |
| Binds.BindThenDispatch | src/utilities.js:892-910 | a newly bound handler joins the end of the match group and of the wildcard group it belongs to |
| Binds.BoundLastOfItsType | src/utilities.js:892-910 | a handler bound to a type other than `'*'` is dispatched by that type last among the typed handlers and before every wildcard handler |
| Binds.WildcardTriggerTwice | src/utilities.js:906-910 | `trigger('*')` lists each wildcard handler twice as often as it is bound, and no other handler |
| Binds.ReplayByStrictType | src/utilities.js:934 | apart from `'*'`, an event is replayed exactly when its `type` is strictly the bind argument, as often as it was logged |
| Binds.ReplayInLogOrder | src/utilities.js:934-937 | replaying a log that grew replays the older part first |
| Binds.TriggeredEventReplayed | src/utilities.js:931-948 | an event logged by `trigger(s, ...)` is replayed last, with its own arguments, by a later `bind(s, ...)` and a later `bind('*', ...)` |
| Scenarios.DispatchOrder | src/utilities.js:906-910 | handlers of types `"a"`, `"*"`, `"a"` are dispatched by `trigger("a")` as first, third, second |

## Left out

- External callbacks always return normally: a trigger handler, a queued or late latch callback, the river's final callback and a replayed callback never throw an exception of their own. `Ret` has no outcome for a throw. The only throw modelled at a call site is the host's `TypeError` for a handler `fn` that is not a function.
- Threads.LatchBinder.Latch: its exactly-once guarantee rests on callbacks returning normally. In the source, a queued callback that throws aborts the flush: later queued callbacks never run and the queue is never cleared. Latch callbacks are callback ids, so they are always functions, and the `TypeError` a non-function in the queue raises is not modelled either.
- Array elements are `undefined` or objects (`Entry`). The handler records and logged events of the core always are. A `null` element, on which `Matches.match` with a non-empty map throws (only `undefined` is tested for), is not modelled.
- Reentrant callbacks are not modelled: a callback that calls back into the same river, latch or binder. Invocations are returned as a list, in order.
- Binds.Binder.Trigger: the handler list a `bind` or `unbind` inside a handler would see is not modelled; only the dispatch order over the list fixed at the start is stated.
- Predicate filters are modelled as pure functions. A predicate with side effects, or one that throws, is not modelled.
- Properties inherited from `Object.prototype` are not modelled. For example, a branch named `toString` would already be present in `names`.
- NaN and fractional numbers are not modelled. `Num` holds an integer, and `===` on numbers is equality of integers.
- Two arrays compare equal when they have the same items (`Arr`). JavaScript compares arrays by identity; no filter in the core compares arrays.
- The `this` receiver passed to callbacks is not modelled. Neither are the `console.error`/`console.warn` diagnostics, such as the message on a repeat completion.
- HashArrays.Remove: modelled on values. It returns the survivors together with the removed items, instead of splicing the caller's array in place. `Binder.Unbind` stores the survivors.
- Threads.River.Join: the placeholder arguments before the final callback are not modelled; only the last argument is.
- Binds.Retentive.Bind: the callback is always a function (a callback id), so the `TypeError` that replaying with a non-function raises is not modelled.
- The leak of the global variable `ret` in `trigger` is not modelled.
- Malformed filters are not modelled, that is, values that are neither an object nor a function.
- The helpers outside the coordination core are not part of this model: dates, `QuickDate`, URLs, `guid`, Base64, `Arrays.intersect`, the string and number helpers, and the rest of `Arguments`.

# gamlajs concurrency helpers, batcher and sequence toolkit in Dafny

This project models three parts of gamlajs, a JavaScript library of
functional and asynchronous helpers:

- The lock family of `src/lock.js`:
  - `withLock`, a lock / try / unlock bracket;
  - `makeLockUnlockWithId`, a lock that polls a check-and-set;
  - `withLockByInput`, a lock keyed by the call's arguments;
  - `throttle`, a counting semaphore over `lockObj.count`;
  - `sequentialized`, a FIFO run queue gated by `isLocked`;
  - `singleton`, a per-key memoised factory with an `instances` cache and a table of per-key flags.
- The batcher of `src/io.js`: `batch`, its keyed `queues` and positional fan-out through `stack`, plus the two runners `executeConditionally` and `singleToMultiple`.
- The list and map helpers of `src/functional.js`: `zip`, `stack`, `product`, `explode`/`doOnPositions`, `countTo`, `between`, `mapcat`, `valmap`, `edgesToGraph`, `groupByMany`, `asyncFirst` and `asyncFilter`.

How asynchronous code is modelled:

- Every `await`, sleep and timer is a step boundary, and the objects of `src/lock.js` and `src/io.js` are classes stepped event by event.
- In `throttle` and `singleton`, each call is a task with a phase. The events are a call (with its first attempt at the lock), a later polling attempt, and the settling of the wrapped function.
- In `sequentialized`, the events are a call and the settling of the `f` being awaited.
- In `batch`, the events are a call and the firing of the oldest timer.
- Every promise a caller gets is named by its call's arrival number.
  - In `sequentialized` and `batch`, its settled value is kept in a `settled` map from that number.
  - In `throttle` and `singleton`, it is the `Settled` phase of that task in `tasks`.
- The wrapped functions (`f`, `factory`, `execute`) are given as function-valued constants, by the outcome they settle with: `Ok(value)` or `Err(error)`.
- Each of them also takes a number: for `f`, the arrival number of the task that calls it (in `throttle`, tasks call `f` in the order they get a slot, not in arrival order); for `factory` and `execute`, the count of their earlier calls. So two calls on equal arguments may settle differently, such as a factory that fails once and then succeeds.

Modules: `Wrappers` (Option, Result), `Functional` (`functional.dfy`), `Lock` (`lock.dfy`), `Throttle` (`throttle.dfy`), `Sequential` (`sequentialized.dfy`), `Singleton` (`singleton.dfy`), `Batch` (`batch.dfy`).

There are two `stack` functions:

- `src/functional.js` builds its `stack` on that file's own `zip`, which gives one row per element of the *first* list and `undefined` past the end of the others. `Functional.Stack` therefore has one result per function, and each function gets `Option` of its value.
- `src/io.js` imports Ramda's `zip`, which stops at the shorter list. `Batch.Stack` truncates.

Where the core's state lives:

- `withLock` and `makeLockUnlockWithId` hold no state and are modelled on their own (`Lock`).
- Their behaviour inside `throttle` and `singleton` is built into those classes. `TrySet` is the check-and-set, `Unset` the release, `Call` the first attempt, and `Poll` a later attempt after a sleep.

## Model

| member | source | states |
|---|---|---|
| Lock.WithLock | src/lock.js:5-17 | A failed `lock` means `f` never runs and nothing is unlocked. Otherwise, whether `f` succeeds or fails, the bracket calls lock once first, `f` once on the caller's arguments, and unlock once last, and passes `f`'s value or error through unchanged |
| Lock.AwaitLock | src/lock.js:19-26 | The polling lock completes exactly when some `set(id)` answers true, and it stops at the first true answer. Every earlier answer was false and was followed by one sleep. With no true answer it keeps polling |
| Lock.WithLockByInput | src/lock.js:28-37 | The same outcome as `withLock`. A failed lock of `argsToLockId(args)` is the only call, so `f` never runs and nothing is unlocked. Otherwise the calls are exactly the lock of `argsToLockId(args)`, then `f` once on `args`, then the unlock of that same id |
| Throttle.Throttler.constructor | src/lock.js:65-66 | The counter starts at 0, with no tasks |
| Throttle.Throttler.TrySet | src/lock.js:69-73 | Below the bound it increments the count and succeeds. At or above the bound it fails and leaves the count unchanged |
| Throttle.Throttler.Unset | src/lock.js:74 | Release decrements the count |
| Throttle.Throttler.Call | src/lock.js:67-77 | A new task runs at once if a slot is free and waits otherwise. The invariant holds: the count equals the number of running tasks and stays within `maxParallelism` |
| Throttle.Throttler.Poll | src/lock.js:21-23 | A waiting task's retry takes a slot exactly when one is free and otherwise changes nothing. The count invariant is kept |
| Throttle.Throttler.Finish | src/lock.js:9-15 | A running task releases its slot and then settles with the outcome of its own call of `f`, success or failure |
| Sequential.Sequentializer.constructor | src/lock.js:39-41 | The queue is empty, unlocked and nothing is settled |
| Sequential.Sequentializer.Call | src/lock.js:43-53 | The call is pushed at the end of the queue. While locked it only enqueues. Otherwise it takes the lock and the loop shifts it and calls `f` on it at once. The FIFO invariant holds: `f` has run on exactly a prefix of the arrivals, in arrival order |
| Sequential.Sequentializer.Resume | src/lock.js:52-61 | The awaited task settles with the outcome of its own call of `f` on its own arguments, whether that outcome is a success or a failure. The loop then shifts the next task. Only when the queue is empty does it unlock, and then every call so far has settled |
| Singleton.Memo.constructor | src/lock.js:80-82 | Empty cache, no flags set |
| Singleton.Memo.ValidIsExclusive | src/lock.js:84-96 | At most one task holds a key's flag and builds that key |
| Singleton.Memo.Hit | src/lock.js:100-105 | Definition: the truthiness test `instances[key]` of both cache checks (lines 100 and 105), true only for a stored value that is truthy. Used by `Call`, `Poll`, `Acquired` and `Settle`, and by the invariant that no key being built is a hit |
| Singleton.Memo.TrySet | src/lock.js:85-91 | The check-and-set fails exactly while the key's flag is set, and otherwise sets it. Other keys are not touched |
| Singleton.Memo.Unset | src/lock.js:92-95 | Unlock deletes that key's flag and only that one |
| Singleton.Memo.Acquired | src/lock.js:103-111 | After taking the flag, a truthy cached instance releases the flag and is returned without calling `factory`. Otherwise `factory` is called once and the task holds the flag |
| Singleton.Memo.Call | src/lock.js:98-103 | A truthy cached instance is returned at once, without the lock or `factory`. A falsy or missing one makes the task attempt the key's flag: it builds if the flag is free and waits if not |
| Singleton.Memo.Poll | src/lock.js:21-23 | One more turn of the polling loop of `lock(key)`. While the flag is set, nothing changes. When it is free, the task takes it and goes on as after `await lock(key)` (src/lock.js lines 103-111): it re-checks the cache and either returns the instance or builds |
| Singleton.Memo.Settle | src/lock.js:110-118 | Success stores the value, truthy or not, and returns it. Failure leaves the cache as it was and passes the error on. On both paths the flag is removed, so a later call retries. A truthy cached value is never replaced, because a key being built was a miss at both cache checks. Every cached value is a fulfilled `factory` result for its key |
| Batch.Stack | src/io.js:49-53 | The positional zip stops at the shorter list. The `i`-th function gets the `i`-th value |
| Batch.Juxt | src/io.js:80 | Every reject function is applied to the one error |
| Batch.Inputs | src/io.js:79 | The inputs of the batch, in queue order |
| Batch.Resolvers | src/io.js:81 | Definition: `map(prop("resolve"))`, the resolve function of each task, which fulfils that task's own promise. Stated by `FanOutPositional` and `FanOutOthers` |
| Batch.Rejecters | src/io.js:80 | Definition: `map(prop("reject"))`, the reject function of each task, which rejects that task's own promise. Stated by `BroadcastFailure` |
| Batch.FanOutPositional | src/io.js:81 | `resolve(outputs)` settles the `i`-th queued task with the `i`-th output. Tasks past the end of the outputs stay pending. A task that already settled keeps its outcome |
| Batch.FanOutOthers | src/io.js:81 | Fan-out settles no promise outside the batch |
| Batch.BroadcastFailure | src/io.js:80 | A failing `execute` rejects every pending task of the batch with the same error |
| Batch.ApplyEffectsQueues | src/io.js:85 | `clear` deletes the fired key's list and touches no other key. Without `clear` the queues are unchanged |
| Batch.FireConditionally | src/io.js:44-47 | A false condition changes nothing: no clear and no settlement. Otherwise the key's list is deleted and the batch is either resolved position by position with `executeQueue`'s outputs or rejected as a whole with its error |
| Batch.SingleCallFanOut | src/io.js:110-111 | `f` is called exactly once, on `merge(tasks)`. Its success settles with `split(tasks, result)`, and fanned out that resolves task `i` with element `i`. Its failure passes the error on |
| Batch.Batcher.constructor | src/io.js:62-63 | No queues, no timers, nothing settled |
| Batch.Batcher.Call | src/io.js:65-72 | The task is appended at the end of its key's list, and the list is created when absent. Other keys are untouched and the call's own timer is scheduled. The invariant holds: each list holds calls of its key in arrival order |
| Batch.Batcher.Fire | src/io.js:72-92 | The oldest timer fires. If its key has no list, nothing changes and `execute` does not run. Otherwise `execute` runs once on that list's inputs in arrival order, and its callbacks and failure determine the new queues and settlements |
| Batch.SettleAll | src/io.js:68 | Definition: settlement attempts applied in order, where a promise that has settled ignores later attempts. Its meaning is stated by `FanOutPositional`, `FanOutOthers` and `BroadcastFailure` |
| Batch.ApplyEffects | src/io.js:85 | Definition: the `clear` and `resolve` calls of one run of `execute`, applied in order. Its effect on the queues is stated by `ApplyEffectsQueues` |
| Batch.RunExecution | src/io.js:84-87 | Definition: `asyncExcepts` is the callbacks, then, if the run fails, `juxt(rejects)` of its error. Stated by `FireConditionally` and through `Fire` |
| Batch.ExecuteConditionally | src/io.js:44-47 | Definition: no callbacks when the condition fails; otherwise `clear`, then `executeQueue`, then `resolveAll` of its outputs, or its failure. Stated by `FireConditionally` |
| Batch.SingleToMultiple | src/io.js:110-111 | Definition: the calls of `f` and the settled outcome. Stated by `SingleCallFanOut` |
| Functional.Zip | src/functional.js:85-87 | With no arrays it throws. Otherwise there is one row per element of the first array, each row has one cell per array, and cell `(i, j)` is `arrays[j][i]`, or `undefined` past its end |
| Functional.At | src/functional.js:87 | Definition: `arr[i]`, the element at `i` or `undefined` past the end. Used by `ZipRow` and `Stack` |
| Functional.ZipRow | src/functional.js:87 | `arrays.map(arr => arr[i])`: one cell per array, cell `j` being `arrays[j][i]` or `undefined` |
| Functional.ZipRows | src/functional.js:87 | The first `n` rows of the zip: exactly `n` rows, row `i` being `ZipRow(arrays, i)` |
| Functional.ZipTwiceTransposes | src/functional.js:86-87 | On a non-empty rectangle, zipping twice gives back the input with every cell defined |
| Functional.Stack | src/functional.js:117-121 | One result per function. The `i`-th function gets `values[i]`, or `undefined` where the values run out |
| Functional.ExtendLength | src/functional.js:185 | One reducer step multiplies the number of tuples by the length of the next array |
| Functional.ExtendMembers | src/functional.js:185 | A list results from one reducer step exactly when it is an accumulated tuple followed by an element of the next array |
| Functional.Appended | src/functional.js:185 | Definition: `b.map(y => [...x, y])`. Stated through `ExtendLength` and `ExtendMembers` |
| Functional.Extend | src/functional.js:185 | Definition: `acc.flatMap(x => b.map(y => [...x, y]))`, the reducer of `product`. Stated by `ExtendLength` and `ExtendMembers` |
| Functional.Product | src/functional.js:184-187 | Definition: a left fold of the `flatMap` reducer from `[[]]`. Its meaning is stated by `ProductLength` and `ProductMembers` |
| Functional.ProductLength | src/functional.js:184-187 | `product` has as many tuples as the product of the input lengths |
| Functional.ProductMembers | src/functional.js:184-187 | A list is in `product` exactly when it takes one element from each input, in input order; so `product([])` is `[[]]` |
| Functional.ProductOfArrays | src/functional.js:184-187 | On columns that are all arrays, `product` over JavaScript values never throws and equals the list product |
| Functional.DoOnPositions | src/functional.js:202-203 | Definition: `f(x)` where the test holds of the position `i`, `x` elsewhere. Used by `Explode` |
| Functional.WrapArray | src/functional.js:194 | Definition: `wrapArray`, a one-element array. Used by `Columns` |
| Functional.Columns | src/functional.js:209 | Definition: the indexed map of `explode`, wrapping every position not among `positions`. Stated by `ExplodeRows` |
| Functional.ProductOfValues | src/functional.js:184-187 | Definition: `product` over JavaScript values, the one `explode` calls: a non-empty accumulator calls `.map` on the next column and throws when that column is not an array. Stated by `ProductOfArrays` |
| Functional.Explode | src/functional.js:207-211 | Definition: every position not among `positions` is wrapped in a one-element array, then `product`, which throws for a column that is not an array. Stated by `ExplodeRows` |
| Functional.ExplodeRows | src/functional.js:202-211 | When every exploded position holds an array, `explode` succeeds. Each row is as long as the input, equals the input off the exploded positions, and holds one element of that position's array on them. The number of rows is the product of the exploded arrays' lengths |
| Functional.Between | src/functional.js:229-232 | Definition: the half-open test `start <= x && x < end`. It appears in the contract of `CountTo` |
| Functional.CountTo | src/functional.js:220-224 | The loop gives `[0, 1, ..., x-1]`, empty for `x <= 0`. Its elements are exactly the integers for which `between([0, x])` holds |
| Functional.Mapcat | src/functional.js:216 | An element is in the result exactly when it is in `f(x)` for some `x` |
| Functional.MapcatLength | src/functional.js:216 | Concatenation drops nothing: the length is the sum of the lengths of the lists `f` returns |
| Functional.MapcatAppend | src/functional.js:216 | Order and multiplicity are kept: mapcat of a concatenation is the concatenation of the mapcats |
| Functional.FromEntries | src/functional.js:227 | Definition: `Object.fromEntries` as a left fold, where a later entry for a key replaces an earlier one. Stated by `FromEntriesLast` |
| Functional.FromEntriesLast | src/functional.js:227 | The object has exactly the keys of its entries, and each key has the value of its last entry. With distinct keys, as `Object.entries` gives, each entry's own value is kept |
| Functional.MapEntries | src/functional.js:227 | Definition: `.map(([x, y]) => [x, f(y)])` over the entries. Stated by `ValmapPointwise` and `ValmapCompose` |
| Functional.Valmap | src/functional.js:226-227 | Definition: `Object.fromEntries` of the mapped `Object.entries`. Stated by `ValmapPointwise` |
| Functional.ValmapPointwise | src/functional.js:226-227 | `valmap` maps the object pointwise: the same keys as the object the entries make, each value replaced by its image |
| Functional.ValmapCompose | src/functional.js:226-227 | Mapping twice equals mapping once by the composition |
| Functional.EdgesToGraph | src/functional.js:29 | Definition: `groupBy(nth(0))`, then `uniq` of each list of targets. Stated by `EdgesToGraphSpec` |
| Functional.GroupBy | src/functional.js:29 | Definition: `groupBy(nth(0))` as a left fold appending each target to its source's list. Stated by `GroupByValues` |
| Functional.GroupByValues | src/functional.js:29 | `groupBy(nth(0))` has exactly the sources that occur, and each one's list holds all its targets in edge order |
| Functional.Uniq | src/functional.js:29 | `uniq` keeps exactly the elements of its input, with no duplicates |
| Functional.UniqOrder | src/functional.js:29 | `uniq` keeps first-occurrence order |
| Functional.EdgesToGraphSpec | src/functional.js:29 | A node exists exactly for each source that occurs. `v` is listed under `k` exactly when the edge `[k, v]` exists. Each list has no duplicates and is the targets in first-occurrence order |
| Functional.PairsTo | src/functional.js:33 | `xprod(ks, [e])` consists of exactly the pairs `[k, e]` for each `k` of `ks` |
| Functional.GroupByMany | src/functional.js:31-35 | Definition: `chain` of the `xprod` edges, then `edgesToGraph`. Stated by `GroupByManySpec` |
| Functional.GroupByManySpec | src/functional.js:31-35 | A key is present exactly when some element has it. `e` is listed under `k` exactly when `e` is an element and `k` is in `f(e)`. No list repeats an element |
| Functional.Filter | src/functional.js:54 | Ramda's `filter` keeps exactly the elements satisfying the predicate |
| Functional.FilterHead | src/functional.js:54-58 | The filter is empty exactly when nothing satisfies the predicate. Otherwise its head is the first element that does |
| Functional.AsyncFirst | src/functional.js:48-60 | `asyncFirst` returns the first truthy result in the order of `funcs`, or `undefined` exactly when none is truthy |
| Functional.AsyncFilter | src/functional.js:70-75 | Definition: pair each argument with its resolved verdict, keep the pairs whose verdict holds, and take the arguments. Stated by `AsyncFilterIsFilter` |
| Functional.Verdicts | src/functional.js:72 | Definition: `asyncMap(async (arg) => [arg, await pred(arg)])` over resolved verdicts, each argument paired with its verdict. Stated by `ProjectFilterVerdicts` |
| Functional.Project | src/functional.js:74 | `map(head)`: one element per pair, element `i` being the first component of pair `i` |
| Functional.ProjectFilterVerdicts | src/functional.js:72-74 | Pairing, filtering by the paired verdict and projecting equals filtering directly |
| Functional.AsyncFilterIsFilter | src/functional.js:70-75 | `asyncFilter` keeps exactly the arguments whose verdict is truthy, in argument order |

## Left out

- Real time: the 50 ms polling sleep and the `setTimeout` window. They are explicit events. A sleep is the gap before a `Poll`, and a timer is an entry in `Batcher.timers`. All timers of one batcher share `waitTime`, so they fire in scheduling order.
- Promise and microtask interleaving. Each event is atomic.
  - `Batch.Batcher.Fire` treats everything from reading `queues[key]` to the end of `execute` as one step.
  - In the source, `clear` runs only after a microtask and `resolve` after `executeQueue` settles. Interleavings of other calls inside those gaps are not modelled.
- Lock.WithLock: `unlock` is taken never to reject. If it rejected after `f` succeeded, the source's `catch` would call `unlock` a second time. Neither lock built by the library can reject.
- Lock.AwaitLock: when `set(id)` rejects, the lock rejects. This path is not modelled, because `throttle` and `singleton` pass check-and-sets that return synchronously.
- Singleton.Memo.Acquired: when the key's flag is taken, the cache re-check after `await lock(key)` is merged with that step. This does not change behaviour: only the flag's holder writes `instances[key]`, and it writes before it releases the flag.
- `getCacheKey` and the `keyFn` of `batch` are opaque function parameters. The definition of `getCacheKey` is not part of this model. A `keyFn` that rejects (and so rejects the call before it is queued) is not modelled.
- Caller-supplied functions are total, so a throw from any of them is not modelled:
  - `argsToLockId` (`Lock.WithLockByInput`). Its throw would leave `withLockByInput` synchronously, before `lock` is called.
  - `merge` and `split` (`Batch.SingleToMultiple`). Their throw would reject the `asyncPipe`.
  - `condition` (`Batch.ExecuteConditionally`). Its throw would be caught by `asyncExcepts`, which rejects the whole batch.
- Batch.Batcher.Fire: a synchronous throw from `execute(clear, resolve)` itself, outside `asyncExcepts`, is not modelled.
- Functional.AsyncFirst, Functional.AsyncFilterIsFilter: these take the resolved results only. When a call rejects, `Promise.all` rejects with whichever rejection comes first in time, and the model has no time order to choose it by.
- Functional.GroupByValues and Functional.EdgesToGraphSpec: Ramda's `groupBy` turns keys into strings (object property names). The model keeps the key type, so keys that differ but print the same are not merged.
- Functional.Valmap: JavaScript object entry order is not modelled, because a Dafny map has no order.
- `uniq` and `includes` compare structurally. The model uses Dafny `==`.
- `queues` in `batch`, and `instances` and `lockObj` in `singleton`, are plain JavaScript objects. Their keys are coerced to strings, and inherited names such as `"constructor"` read as present and truthy. The model keys them by the key type itself, with no inherited entries.
- Functional.CountTo: the source accepts any number. `countTo(2.5)` gives `[0, 1, 2]`, but the model takes an integer only.
- Functional.Between: the source compares any JavaScript values with `<=` and `<`: fractions, strings, and `NaN`, for which the test is always false. The model compares integers only.
- Not modelled, as outside the core: `rate` (floating point), `sortAlphabetically` (locale-dependent comparison), `testRegExp` and `isValidRegExp` (RegExp engine), `remove` (non-standard `Array.prototype.remove`), `timeit` (wall clock), the logging helpers, `asyncMapObjectTerminals`/`asyncApplySpec` (runtime type tests), and the unused `timeCondition` closure.

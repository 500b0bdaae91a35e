# RxPY operator core in Dafny

This project models a handful of RxPY operators and the observer contract
they share, and proves properties of each.

- **Signals** is shared by all modules. It holds:
  - materialized notifications (`on_next`, `on_error`, `on_completed`);
  - timed messages on an integer virtual clock;
  - the stream an observable hands one observer;
  - the tri-state asyncio future;
  - the boundary behaviour of `from_`, `from_future` and `throw`.
- **Delay** (`delay.py`, imperative) models each subscription as a class. Its fields are the locked state of `observable_delay_timespan`:
  - the FIFO queue of timestamped entries;
  - the exception slot;
  - the `active` and `running` flags;
  - the flush held by the serial slot;
  - the scheduler clock;
  - what the observer has received.

  Also modelled: the observable that `observable_delay_timespan` returns. Its subscribe function rewrites the captured `duetime` parameter, which all subscriptions to that one observable share.
- **BufferWithTimeOrCount** (the three `buffer_with_time_or_count` test vectors) is a fold over timed source messages. It carries the open batch and the instant of the previous flush. The three vectors are lemmas.
- **ToFuture** (`tofuture.py`, imperative) is a class holding `has_value`, `last_value`, the future and the source disposal. Its partner is a pure fold over what reached the subscription.
- **ToIterable** (`toiterable.py`, imperative) is a class holding the per-subscription queue and the observer's output.
- **SomeOperator** (`some.py`) gives the fixed reaction to each source signal, and the predicate form as `filter` followed by the unconditional form.
- **FlatMap** (`flatmap.py`) covers:
  - the `projection` dispatch;
  - the constant-argument fallback of `flat_map` and `flat_map_indexed`;
  - the compositions with `merge_all` and `switch_latest`, both taken as parameters.
- **Defer** (`defer.py`) covers one factory call per subscription, exception redirection and future adaptation.

## Model

| member | source | states |
|---|---|---|
| `Signals.FromIterable` | rx/core/operators/flatmap.py:23-24 | `from_(xs)` delivers each element as a value, in order, then completion. |
| `Signals.ValuesOfFromIterable` | rx/core/operators/flatmap.py:23-24 | The values delivered by `from_(xs)` are exactly `xs`. |
| `Signals.FromFuture` | rx/core/observable/defer.py:31 | `from_future(f)` delivers a well-formed stream: nothing while `f` is pending. A resolved future delivers only its value, then completes. A failed one delivers its error, and a cancelled one `CancelledError`. |
| `Signals.Throw` | rx/core/observable/defer.py:29 | `throw(e)` delivers no value and ends with the error `e`. |
| `Delay.Normalise` | rx/core/operators/delay.py:28-31 | A relative duetime is used as given. An absolute instant becomes the offset that reaches it from the scheduler's `now`. |
| `Delay.DueCount` | rx/core/operators/delay.py:66-75 | The flush loop pops a prefix of the queue. Every popped entry is due, and the entry it stops at is not. |
| `Delay.DueCountIsExactlyTheReleased` | rx/core/operators/delay.py:66-75 | On a queue in release order, an entry is popped if and only if its release instant has come. |
| `Delay.Deliver` | rx/core/operators/delay.py:69-72 | Popped entries reach the observer in queue order, each at the flush instant. |
| `Delay.DelaySubscription.constructor` | rx/core/operators/delay.py:33-37 | A subscription starts with an empty queue, no exception, both flags clear and nothing scheduled. |
| `Delay.DelaySubscription.OnNotification` | rx/core/operators/delay.py:39-58 | An error replaces the queue by its own entry, fills the exception slot and is reported at once. A value or completion is queued at its arrival time plus the offset. A flush is scheduled only when none is active. The queue stays in release order. While no error has arrived and the subscription is not disposed, a flush is pending exactly while the queue is non-empty. |
| `Delay.DelaySubscription.Flush` | rx/core/operators/delay.py:60-95 | A flush first returns if an exception is set. Otherwise it delivers exactly the due prefix of the queue, in order. It reschedules for the new head, at least zero away, or clears `active` when the queue is empty. It never emits an error. A flush that runs at its due instant releases each entry at exactly its own release instant. |
| `Delay.DelaySubscription.PopDue` | rx/core/operators/delay.py:66-75 | The `while True` loop removes `DueCount` entries from the head and delivers them, changing nothing else. |
| `Delay.DelaySubscription.FinishFlush` | rx/core/operators/delay.py:77-93 | After the loop, a non-empty queue reschedules the flush for its head, at least zero away. An empty queue clears `active` instead. The queue and the observer's signals are left as they are. |
| `Delay.DelaySubscription.Dispose` | rx/core/operators/delay.py:97-99 | Disposal ends the source subscription and cancels the pending flush. |
| `Delay.DelayedObservable.constructor` | rx/core/operators/delay.py:20-22 | The observable captures the `duetime` parameter it was built with. Each `delay(source)` call (delay.py:121) builds a fresh one. |
| `Delay.DelayedObservable.SubscribeAsWritten` | rx/core/operators/delay.py:23-31 | As written, subscribe normalises the duetime and stores the offset back into the captured parameter, shared by every later subscription to the same observable. |
| `Delay.DelayedObservable.Subscribe` | rx/core/operators/delay.py:26-31 | Corrected: each subscription normalises the observable's duetime afresh, and the observable is unchanged. |
| `Delay.NonlocalDuetimeExample` | rx/core/operators/delay.py:24-29 | As written, a delay to instant 300 subscribed at 100 and again at 200 uses offset 200 both times. |
| `Delay.IndependentDuetimeExample` | rx/core/operators/delay.py:28-31 | Corrected: the two subscriptions use offsets 200 and 100, so both release at instant 300. |
| `Delay.ShiftsEverySignal` | rx/core/operators/delay.py:39-95 | Values at 50 and 70 and a completion at 110, delayed by 100, with each flush run when due: the observer gets them at 150, 170 and 210, in order, and nothing stays queued. |
| `BufferWithTimeOrCount.TimerFlushes` | tests/test_observable/test_bufferwithtimeorcount.py:39-48 | There are timer flushes before an instant exactly when the previous flush lies more than one span before it, and otherwise the window is unchanged. They are all next-signals strictly between the previous flush and that instant. Afterwards the next flush is not due before that instant, and after any flush the open batch is empty. |
| `BufferWithTimeOrCount.TimerFlushesAreSpaced` | tests/test_observable/test_bufferwithtimeorcount.py:39-48 | The first timer flush falls one span after the previous flush and carries the open batch. The i-th later one falls (i + 1) spans after the previous flush, with an empty batch. The last becomes the new previous flush. |
| `BufferWithTimeOrCount.Go` | tests/test_observable/test_bufferwithtimeorcount.py:39-48 | Definition of the rule the vectors fix: timer flushes due before each source message come first. A value joins the open batch, which is flushed at once when it reaches the count. Completion flushes the open batch and completes. An error is passed on without a flush. The lemmas below state its properties. |
| `BufferWithTimeOrCount.Subscribed` | tests/test_observable/test_bufferwithtimeorcount.py:16-31 | A subscription to a hot source never receives more messages than were sent. When every message comes after the subscribe instant, it receives them all unchanged. |
| `BufferWithTimeOrCount.SubscribedKeepsExactlyTheLater` | tests/test_observable/test_bufferwithtimeorcount.py:16-31 | A subscription to a hot source receives exactly the messages sent after the subscribe instant, and only those. |
| `BufferWithTimeOrCount.BufferWithTimeOrCount` | tests/test_observable/test_bufferwithtimeorcount.py:31-35 | Definition: the operator subscribed at one instant to a hot source and disposed at another. It sees only the messages after the subscribe instant, and the first window opens at that instant. The vector lemmas evaluate it. |
| `BufferWithTimeOrCount.EarlierMessageIsMissed` | tests/test_observable/test_bufferwithtimeorcount.py:16-35 | A value sent at 150 to a subscription made at 200 is never batched. The run is one empty timer flush at 270. |
| `BufferWithTimeOrCount.Received` | tests/test_observable/test_bufferwithtimeorcount.py:49 | What the operator sees is well-formed and never longer than what the source sends. |
| `BufferWithTimeOrCount.ReceivedIsAPrefix` | tests/test_observable/test_bufferwithtimeorcount.py:49 | The operator sees a prefix of the source's signals, all at or before the disposal. It stops only at a terminal or at the first message after the disposal. |
| `BufferWithTimeOrCount.EveryElementInOneBatch` | tests/test_observable/test_bufferwithtimeorcount.py:39-48 | The emitted batches followed by the open batch are exactly the received elements, in arrival order. |
| `BufferWithTimeOrCount.CompletionFlushesEverything` | tests/test_observable/test_bufferwithtimeorcount.py:46-47 | After completion every received element has been emitted, in arrival order. |
| `BufferWithTimeOrCount.CompletionLeavesNoBatch` | tests/test_observable/test_bufferwithtimeorcount.py:46-47 | A completion the subscription receives leaves no batch open. |
| `BufferWithTimeOrCount.RunShape` | tests/test_observable/test_bufferwithtimeorcount.py:39-48 | No batch exceeds the count, and only the last message can be terminal. |
| `BufferWithTimeOrCount.TimerBatchesBounded` | tests/test_observable/test_bufferwithtimeorcount.py:41-45 | A timer batch is never larger than the open batch it flushes. |
| `BufferWithTimeOrCount.MessagesAtOrBefore` | tests/test_observable/test_bufferwithtimeorcount.py:83-112 | No message follows the end of the source subscription, which is never after the disposal. That end is the instant of the first received terminal, or the disposal when none is received. |
| `BufferWithTimeOrCount.UnsubscribesAtTerminalOrDisposal` | tests/test_observable/test_bufferwithtimeorcount.py:83-112 | The source subscription ends at the first terminal the operator receives, or else at the disposal. |
| `BufferWithTimeOrCount.BasicVector` | tests/test_observable/test_bufferwithtimeorcount.py:16-49 | The basic vector: batches 1,2,3 / 4 / 5,6,7 / 8 / 9 / empty / empty, completion at 600, and the subscription ends at 600. |
| `BufferWithTimeOrCount.ErrorVector` | tests/test_observable/test_bufferwithtimeorcount.py:51-83 | The error vector: the same batches up to the empty one at 580, then the error at 600. |
| `BufferWithTimeOrCount.DisposedVector` | tests/test_observable/test_bufferwithtimeorcount.py:85-112 | Disposal at 370: the three batches up to and including 370, and the subscription ends at 370. |
| `ToFuture.Step` | rx/core/operators/tofuture.py:37-54 | Each callback keeps a pending future's value at hand. It leaves a done future as it was, and it sets `has_value` exactly on a value. |
| `ToFuture.After` | rx/core/operators/tofuture.py:34-57 | Replaying what reached a subscription keeps the closure coherent. |
| `ToFuture.HasValueIffSomeValue` | rx/core/operators/tofuture.py:34-41 | `has_value` holds if and only if some value has arrived. |
| `ToFuture.LastValueIsMostRecent` | rx/core/operators/tofuture.py:37-41 | Until a completion is handled, `last_value` is the most recent value, each value overwriting the one before. |
| `ToFuture.ClearsLastValue` | rx/core/operators/tofuture.py:54 | A handled completion clears `last_value`. |
| `ToFuture.DoneIsFinal` | rx/core/operators/tofuture.py:43-53 | Once done, the future never changes again. |
| `ToFuture.CancelledIsNeverSettled` | rx/core/operators/tofuture.py:44-49 | A cancelled future is settled neither by a later error nor by completion. |
| `ToFuture.NoTerminalStaysPending` | rx/core/operators/tofuture.py:37-41 | Values alone never settle the future. |
| `ToFuture.SettlesWithOutcome` | rx/core/operators/tofuture.py:43-53 | A pending future handed a well-formed stream is resolved with the last value if values came before completion. It fails with "no elements" on an empty completion, and with the source's error after an error. |
| `ToFuture.Outcome` | rx/core/operators/tofuture.py:43-53 | Definition of the independent reference outcome: pending until a terminal, then the error, the last value, or "no elements". `ToFuture.SettlesWithOutcome` relates it to the callbacks. |
| `ToFuture.ToFutureSubscription.constructor` | rx/core/operators/tofuture.py:34-35 | A subscription starts with no value, on the operator's shared future. |
| `ToFuture.ToFutureSubscription.OnNext` | rx/core/operators/tofuture.py:37-41 | A value is remembered and `has_value` is set. The future is untouched. |
| `ToFuture.ToFutureSubscription.OnError` | rx/core/operators/tofuture.py:43-45 | The error fails a pending future. A cancelled one is left alone. A settled one makes asyncio raise. |
| `ToFuture.ToFutureSubscription.OnCompleted` | rx/core/operators/tofuture.py:47-54 | Completion resolves a pending future with the last value, or fails it with "no elements". It leaves a cancelled one alone, then clears `last_value`. |
| `ToFuture.ToFutureSubscription.Cancel` | rx/core/operators/tofuture.py:44-49 | Cancelling moves a pending future to cancelled and leaves a done one as it is. |
| `ToFuture.ToFutureSubscription.DoneCallback` | rx/core/operators/tofuture.py:56-57 | Once the future is done, its callback disposes the source subscription. |
| `ToIterable.CollectsInOrder` | rx/core/operators/toiterable.py:27-28 | While only values arrive, the queue holds all of them in arrival order and nothing is emitted. |
| `ToIterable.EmitsOnceOnCompletion` | rx/core/operators/toiterable.py:30-34 | A completing source yields exactly one value holding every source value, then completion. The queue is empty again. |
| `ToIterable.EmptySourceYieldsEmptyCollection` | rx/core/operators/toiterable.py:25-34 | An empty source yields one empty collection, then completion. |
| `ToIterable.ForwardsErrorAlone` | rx/core/operators/toiterable.py:36-38 | A failing source yields only its error, with no partial collection. |
| `ToIterable.Queued` | rx/core/operators/toiterable.py:25-33 | Definition of the queue after each received signal: a value is appended and a completion resets it. `ToIterable.CollectsInOrder` states what it holds. |
| `ToIterable.Emitted` | rx/core/operators/toiterable.py:30-37 | Definition of what the observer has received: the queue then completion on completion, an error as it is. `ToIterable.EmitsOnceOnCompletion` and `ToIterable.ForwardsErrorAlone` state what it holds. |
| `ToIterable.ToIterableSubscription.constructor` | rx/core/operators/toiterable.py:19-25 | Each subscription starts with a fresh, empty queue. |
| `ToIterable.ToIterableSubscription.OnNext` | rx/core/operators/toiterable.py:27-28 | A value is appended to the queue. |
| `ToIterable.ToIterableSubscription.OnCompleted` | rx/core/operators/toiterable.py:30-34 | The queue is emitted as one value and reset, then completion follows. |
| `ToIterable.ToIterableSubscription.OnError` | rx/core/operators/toiterable.py:36-38 | The error is forwarded and the queue is kept. |
| `SomeOperator.Reaction` | rx/core/operators/some.py:31-39 | Every source signal is answered with a well-formed stream that ends in a terminal. A value or a completion yields one boolean, true exactly for a value, then completion. An error yields no value and is forwarded as it is. |
| `SomeOperator.Answers` | rx/core/operators/some.py:30-39 | Definition: the unguarded callbacks answer every source signal in turn. `SomeOperator.FirstSignalDecides` states what a detaching observer sees. |
| `SomeOperator.Filter` | rx/core/operators/some.py:41-45 | `filter` never lengthens the stream. `SomeOperator.FilterWellFormed` states what it keeps. |
| `SomeOperator.Decide` | rx/core/operators/some.py:41-47 | Definition: with a predicate, the unconditional form over the filtered source. `SomeOperator.UnconditionalAnswer` and `SomeOperator.PredicateAnswer` state its answers. |
| `SomeOperator.FirstSignalDecides` | rx/core/operators/some.py:31-39 | An observer that detaches at the first terminal receives exactly the reaction to the first source signal. |
| `SomeOperator.UnconditionalAnswer` | rx/core/operators/some.py:23-39 | A terminated source gets a single boolean then completion, true exactly when it had an element. It gets the error if it failed before any element. |
| `SomeOperator.FilterWellFormed` | rx/core/operators/some.py:41-45 | `filter` keeps the stream well-formed and keeps its terminal. Some value is kept exactly when some value satisfies the predicate. The kept values are exactly the satisfying ones, in order. |
| `SomeOperator.Satisfying` | rx/core/operators/some.py:41-45 | Reference filter on plain sequences. It is never longer than its input; `SatisfyingKeepsExactly` states what it keeps. |
| `SomeOperator.SatisfyingKeepsExactly` | rx/core/operators/some.py:41-45 | Every element the reference filter keeps is in the input and satisfies the predicate, and every satisfying input element is kept. |
| `SomeOperator.FilterKeepsSatisfyingValues` | rx/core/operators/some.py:41-45 | For every stream, the values `filter` keeps are exactly those the reference filter keeps from its values, in their order. |
| `SomeOperator.PredicateAnswer` | rx/core/operators/some.py:41-45 | With a predicate the answer is true if and only if some element satisfies it. Otherwise it is false on completion, or the error. |
| `SomeOperator.NoGuardAfterTheFirstAnswer` | rx/core/operators/some.py:31-33 | Nothing stops a second answer: two values and a completion give three answers. |
| `FlatMap.Adapt` | rx/core/operators/flatmap.py:21-27 | A result is adapted if and only if it is a future or an iterable. Any other result is passed on unchanged. |
| `FlatMap.FutureTakesPriority` | rx/core/operators/flatmap.py:21-22 | A future is adapted with `from_future` even when it is also iterable. |
| `FlatMap.IterableIsAdapted` | rx/core/operators/flatmap.py:23-24 | A non-future iterable is adapted with `from_`, which delivers its elements. |
| `FlatMap.PlainMapperIgnoresIndex` | rx/core/operators/flatmap.py:20 | With a plain mapper the index plays no part. |
| `FlatMap.IndexedMapperGetsIndex` | rx/core/operators/flatmap.py:20 | Without a plain mapper the indexed mapper receives the index. With neither mapper the result is `None`. |
| `FlatMap.Projection` | rx/core/operators/flatmap.py:19-27 | Definition of `projection`: the plain mapper, else the indexed one, else `None`, then the adaptation. `FlatMap.PlainMapperIgnoresIndex` and `FlatMap.IndexedMapperGetsIndex` state its dispatch. |
| `FlatMap.FlatMapInternal` | rx/core/operators/flatmap.py:29 | Definition: `map_indexed(projection)` followed by `merge_all`. `FlatMap.MapIndexedPassesPositions` states what `merge_all` receives. |
| `FlatMap.FlatMapOp` | rx/core/operators/flatmap.py:52-55 | Definition of `flat_map`: a callable is the plain mapper, anything else becomes `lambda _: value`. `FlatMap.ConstantIsEveryResult` and `FlatMap.PlainIsIndexedWithoutIndex` state its results. |
| `FlatMap.FlatMapIndexedOp` | rx/core/operators/flatmap.py:83-86 | Definition of `flat_map_indexed`: a callable is the indexed mapper, anything else becomes the plain mapper `lambda _: value`. `FlatMap.ConstantFallbacksAgree` relates it to `flat_map`. |
| `FlatMap.MapIndexed` | rx/core/operators/flatmap.py:29 | `map_indexed` keeps the stream's shape. Values stay values, errors pass unchanged and a completion stays a completion. |
| `FlatMap.MapIndexedPassesPositions` | rx/core/operators/flatmap.py:29 | The k-th mapped value is the projection of the k-th source value with index k. |
| `FlatMap.ConstantIsEveryResult` | rx/core/operators/flatmap.py:52-55 | A non-callable argument becomes `lambda _: value`, so every source value maps to the same adapted inner source. |
| `FlatMap.ConstantFallbacksAgree` | rx/core/operators/flatmap.py:83-86 | `flat_map_indexed` treats a non-callable argument exactly as `flat_map` does. |
| `FlatMap.PlainIsIndexedWithoutIndex` | rx/core/operators/flatmap.py:52-53 | `flat_map(f)` is `flat_map_indexed` with a mapper that drops the index. |
| `FlatMap.Map` | rx/core/operators/flatmap.py:111 | `map` applies the mapper to each value and passes the terminals through. |
| `FlatMap.MapPassesValues` | rx/core/operators/flatmap.py:111 | The k-th value `map` hands on is the mapper's result for the k-th source value. |
| `FlatMap.FlatMapLatest` | rx/core/operators/flatmap.py:111 | Definition: `map(mapper)` then `switch_latest`. `FlatMap.LatestDoesNotAdapt` states what `switch_latest` receives. |
| `FlatMap.LatestDoesNotAdapt` | rx/core/operators/flatmap.py:111 | `flat_map_latest` hands `switch_latest` the mapper's own results, one per source value, in order and not adapted. `flat_map` with the same mapper (flatmap.py:29) hands `merge_all` their adaptation. |
| `Defer.Subscribe` | rx/core/observable/defer.py:25-32 | The inner subscription gets the subscribing scheduler exactly when the factory returned. A well-formed produced observable reaches the observer well-formed, and an adapted future or a factory exception ends in a terminal when it delivers anything. |
| `Defer.DependsOnlyOnTheAnswer` | rx/core/observable/defer.py:25-27 | A subscription depends on nothing but the factory's answer for the subscribing scheduler. |
| `Defer.FactoryExceptionIsDelivered` | rx/core/observable/defer.py:26-29 | A factory exception reaches the observer as its only signal, an error. That subscribe passes no scheduler. |
| `Defer.FutureIsAdapted` | rx/core/observable/defer.py:31-32 | A future is adapted with `from_future` and subscribed with the subscribing scheduler. |
| `Defer.ObservableIsSubscribedAsIs` | rx/core/observable/defer.py:31-32 | An observable is subscribed as it is, with the same scheduler. |
| `Defer.ResolvedFutureDeliversValue` | rx/core/observable/defer.py:31 | A resolved future delivers its value once. |

## Left out

- `rx/core/observable/never.py` is not part of this model. It subscribes nothing and calls nothing.
- Locks and threads (delay.py:42, 64):
  - Each locked region is one atomic method, so `running` is always clear between steps.
  - The branch where an error arrives while a flush is under way (delay.py:47), and the `on_error` call after the flush loop (delay.py:89-90), are never taken; `FinishFlush` proves the latter dead.
- Wall-clock time:
  - `datetime` and `timedelta` are replaced by integer virtual time.
  - The scheduler choice (delay.py:26) and `TimeoutScheduler` are not modelled; `now` is a parameter.
- Internals of other operators:
  - `materialize` and `timestamp` are not modelled: a delay subscription receives a notification and its arrival instant directly.
  - `merge_all` and `switch_latest` are parameters.
  - `from_`, `from_future` and `throw` are modelled only by the signals they deliver.
- asyncio futures:
  - A future is a tri-state value plus cancelled.
  - `InvalidStateError` from settling a done future is reported as the `raised` result.
  - A done callback is run explicitly via `DoneCallback`.
  - The optional `future_ctor` and the `scheduler` passed to the source subscribe are not modelled.
- ToFuture.ToFutureSubscription.constructor does not model the aliasing of the one future that the operator creates (tofuture.py:15) and shares among all its subscriptions. A subscription starts on whatever state that future is in.
- FlatMap.Projection, FlatMap.MapIndexed: the mapper is a total function. A mapper that raises (flatmap.py:20), which `map_indexed` delivers as an error, is not modelled.
- SomeOperator.Filter: the predicate is a total function. A predicate that raises (some.py:43), which `filter` delivers as an error, is not modelled.
- The `buffer_with_time_or_count` implementation is not part of this model; only the rule its tests fix is. `span > 0` and `count > 0` are preconditions.
- The tests' `map(",".join(...))` rendering is not modelled: batches are compared as lists.
- Dynamic Python types:
  - `is_future` and the `Iterable` check are modelled as capability fields of `FlatMap.Returned`.
  - What `merge_all` does with a result that is neither (such as `None`) is not modelled.
- Delay disposal does not clear the queue: delay.py:97-99 only disposes the source subscription and the serial slot.
- `some` with a source that keeps signalling: some.py:31-33 does not dispose the source after the first answer, and the model follows the code (`SomeOperator.NoGuardAfterTheFirstAnswer`).
- A Python predicate or mapper that is given is always truthy, so `if predicate:` and `if mapper` become a test on an `Option`.

## Findings

| source | as written | input that shows it | evidently intended | confidence | as-written member | corrected member |
|---|---|---|---|---|---|---|
| rx/core/operators/delay.py:24-29 | `nonlocal duetime` writes the normalised offset back into the `duetime` parameter of `observable_delay_timespan` (delay.py:20-21), which every subscription to that one observable shares | one `delay(Absolute(300))(source)` observable subscribed at 100 and again at 200: the second subscription reuses offset 200 and releases at 400 | each subscription normalises the duetime it was given, so both release at 300 | medium, not executed | `Delay.DelayedObservable.SubscribeAsWritten`, `Delay.NonlocalDuetimeExample` | `Delay.DelayedObservable.Subscribe`, `Delay.IndependentDuetimeExample` |

# Context propagation: snapshot, scope and restore

A Dafny model of the core of Micrometer's context-propagation library
(`io.micrometer.context`). A `ContextSnapshot` is captured from the
thread-local values that a `ContextRegistry` knows about and from carrier
objects. Applying it with `setThreadLocalValues` opens a `Scope` on the
current thread, and `Scope.close()` puts every key the scope touched
back exactly as it was. The default wrappers (`instrumentRunnable`, `instrumentCallable`,
`instrumentConsumer`, `instrumentExecutor`) run a unit of work inside such
a scope. `TestContextAccessor`, the map-backed `ContextAccessor` of the
test suite, is modelled as a concrete carrier accessor.

Everything is a pure function over immutable values:

- The thread-local state of one thread is a `map<Key, Value>`. A missing
  entry is Java `null`, meaning no value (`ThreadLocals`).
- A carrier is a value with an identity (`ref`), a runtime class (name plus
  supertypes, standing in for `Class.isAssignableFrom`) and key/value
  entries. A `ContextAccessor` is a datatype of four function values
  (`Carriers`).
- A registry is the sequence of registered thread-local keys plus the
  sequence of context accessors, both in registration order (`Registries`).
- A snapshot is a map of captured values plus its registry. `Capture`,
  `UpdateContext` and `UpdateContextAll` live in `Snapshots`.
- A scope records each touched key's prior value (`Some`) or its absence
  (`None`), its registry, and whether it is closed. Apply and close are
  functions from a thread state to a new one. `ApplyInOrder` and
  `CloseInOrder` are loops over the registered accessors, one at a time,
  and they are proved equal to the functions (`Scopes`).
- A unit of work maps a thread state to an outcome (returned value or thrown
  failure) and the state it leaves. An executor is a queue of tasks that
  run later (`Instrumentation`).
- `Scenarios` states the test-suite scenarios for every starting state.

`DefaultContextSnapshot.java` and `ContextRegistry.java` are not part of
this model. The interface's doc comments and the tests do not settle the
following, so the model assumes these behaviours of the two classes:

- Applying with a key predicate normalises every selected registered key
  for the duration of the scope. It gets the snapshot value, or it is reset
  when the snapshot holds none, and is never left at the ambient value.
  One consequence: a snapshot with no entries is not a no-op while its
  scope is open, because it resets every selected key. Closing still
  restores every key. The tests cannot tell this from leaving the ambient
  value in place, because each of them clears the key before opening the
  scope.
- `updateContext` on a snapshot with no entries returns the carrier without
  calling any context accessor. The check is on the whole snapshot, before
  any key predicate is applied: a non-empty snapshot whose entries the
  predicate all rejects still hands an empty map to each matching writer.
- `close()` on a scope that is already closed changes nothing.
- Every context accessor whose type guard accepts the carrier is used, in
  registration order. Later accessors and later carriers overwrite earlier
  entries. `updateContext` threads the carrier returned by one accessor into
  the next.
- Registering a thread-local accessor under a key that is already
  registered replaces the earlier one. So the registered keys never repeat.

## Model

| member | source | states |
|---|---|---|
| `ThreadLocals.RestorePriors` | context-propagation-api/src/main/java/io/micrometer/context/ContextSnapshot.java:174-182 | Restoring recorded priors over any later state brings each recorded key back exactly (present with the same value, or absent) and keeps the later state on every other key |
| `ThreadLocals.OverlayThenRestore` | context-propagation-api/src/main/java/io/micrometer/context/ContextSnapshot.java:53-58 | Setting a group of keys and then restoring their priors is the identity on the whole thread state |
| `Carriers.MapCanReadFrom` | context-propagation-api/src/test/java/io/micrometer/context/TestContextAccessor.java:29-32 | Accepts exactly the carrier classes assignable to `java.util.Map` |
| `Carriers.MapCanWriteTo` | context-propagation-api/src/test/java/io/micrometer/context/TestContextAccessor.java:39-42 | Accepts exactly the carrier classes assignable to `java.util.Map` |
| `Carriers.MapTypeGuardsAgree` | context-propagation-api/src/test/java/io/micrometer/context/TestContextAccessor.java:29-42 | The read guard and the write guard give the same answer for every carrier class |
| `Carriers.MapGuardsRefuseOtherTypes` | context-propagation-api/src/test/java/io/micrometer/context/TestContextAccessor.java:29-42 | A class that is not `Map` and does not extend it is refused for both reading and writing |
| `Carriers.MapReadValues` | context-propagation-api/src/test/java/io/micrometer/context/TestContextAccessor.java:34-37 | Every source entry lands in the sink, replacing a sink entry with the same key; sink entries under other keys stay; the key set is the union |
| `Carriers.MapReadIgnoresPredicate` | context-propagation-api/src/test/java/io/micrometer/context/TestContextAccessor.java:35-36 | The entries read do not depend on the key predicate |
| `Carriers.MapWriteValues` | context-propagation-api/src/test/java/io/micrometer/context/TestContextAccessor.java:44-49 | Every written key maps to its written value, other entries keep theirs, and the same carrier (identity and class) is returned |
| `Carriers.MapWriteIdempotent` | context-propagation-api/src/test/java/io/micrometer/context/TestContextAccessor.java:46-49 | Writing the same values twice gives the same carrier as writing them once |
| `Carriers.MapAccessor` | context-propagation-api/src/test/java/io/micrometer/context/TestContextAccessor.java:27-51 | The accessor value whose guards accept exactly the `Map`-assignable classes, whose read merges the carrier's entries into the sink (carrier winning) and whose write merges the values into the carrier's entries, keeping the carrier |
| `Registries.EmptyRegistry` | context-propagation-api/src/test/java/io/micrometer/context/DefaultContextSnapshotTests.java:32 | A new registry has no thread-local keys and no context accessors |
| `Registries.RegisterThreadLocalAccessor` | context-propagation-api/src/test/java/io/micrometer/context/DefaultContextSnapshotTests.java:99-101 | The key becomes registered, last in order, with no key registered twice; the set of other registered keys and the context accessors are unchanged |
| `Snapshots.CaptureThreadLocals` | context-propagation-api/src/main/java/io/micrometer/context/ContextSnapshot.java:155-167 | A key is captured if and only if it is registered, passes the predicate and has a value; its captured value is that value |
| `Snapshots.ReadCarrier` | context-propagation-api/src/main/java/io/micrometer/context/ContextSnapshot.java:155-167 | When no accessor can read the carrier's class, reading leaves the sink unchanged |
| `Snapshots.ReadCarriers` | context-propagation-api/src/main/java/io/micrometer/context/ContextSnapshot.java:155-167 | When no accessor can read any of the carriers, reading them leaves the sink unchanged |
| `Snapshots.ReadCarriersAppend` | context-propagation-api/src/main/java/io/micrometer/context/ContextSnapshot.java:163-167 | Carriers are read in the order given: reading `xs + ys` is reading `ys` on top of the result of `xs` |
| `Snapshots.ReadCarrierStep` | context-propagation-api/src/main/java/io/micrometer/context/ContextSnapshot.java:163-167 | One accessor reads a carrier exactly when its read guard accepts the carrier's class, and otherwise leaves the sink alone |
| `Snapshots.ReadCarrierAppend` | context-propagation-api/src/main/java/io/micrometer/context/ContextSnapshot.java:163-167 | Accessors read in registration order: reading through `xs + ys` is reading through `ys` on top of the result of `xs`, so later accessors overwrite earlier entries |
| `Snapshots.Capture` | context-propagation-api/src/main/java/io/micrometer/context/ContextSnapshot.java:163-167 | The snapshot keeps its registry; when no accessor reads the carriers, it holds exactly the present values of the registered keys the predicate selects |
| `Snapshots.ReadMapCarrier` | context-propagation-api/src/test/java/io/micrometer/context/TestContextAccessor.java:34-37 | Through the map accessor, a map carrier is merged into the sink, carrier entries winning |
| `Snapshots.CaptureOneMapCarrier` | context-propagation-api/src/main/java/io/micrometer/context/ContextSnapshot.java:163-167 | With the map accessor and one map carrier, every carrier entry is captured whatever the predicate; any other key is captured if and only if it is a selected registered key with a value, and then with that value |
| `Snapshots.Select` | context-propagation-api/src/main/java/io/micrometer/context/ContextSnapshot.java:43-51 | The subset handed to the accessors holds exactly the snapshot entries whose key passes the predicate |
| `Snapshots.WriteCarrier` | context-propagation-api/src/main/java/io/micrometer/context/ContextSnapshot.java:35-51 | When no accessor can write the carrier's class, the carrier comes back unchanged |
| `Snapshots.WriteCarrierStep` | context-propagation-api/src/main/java/io/micrometer/context/ContextSnapshot.java:43-51 | One accessor writes a carrier exactly when its write guard accepts the carrier's class, and otherwise returns it unchanged |
| `Snapshots.WriteCarrierAppend` | context-propagation-api/src/main/java/io/micrometer/context/ContextSnapshot.java:43-51 | Accessors write in registration order, each handed the carrier the previous one returned: writing through `xs + ys` is writing through `ys` the result of `xs` |
| `Snapshots.UpdateContext` | context-propagation-api/src/main/java/io/micrometer/context/ContextSnapshot.java:43-51 | An empty snapshot, or a carrier no registered accessor can write to, is returned unchanged |
| `Snapshots.UpdateContextAll` | context-propagation-api/src/main/java/io/micrometer/context/ContextSnapshot.java:35-41 | An empty snapshot, or a carrier no registered accessor can write to, is returned unchanged |
| `Snapshots.UpdateMapCarrier` | context-propagation-api/src/main/java/io/micrometer/context/ContextSnapshot.java:43-51 | Through the map accessor the same carrier comes back, holding every selected snapshot entry and, under every other key, exactly its old entries |
| `Snapshots.UpdateMapCarrierIdempotent` | context-propagation-api/src/test/java/io/micrometer/context/TestContextAccessor.java:46-49 | Updating a map carrier twice with the same snapshot and predicate is the same as updating once |
| `Scopes.SetThreadLocalValues` | context-propagation-api/src/main/java/io/micrometer/context/ContextSnapshot.java:61-68 | The scope touches exactly the selected registered keys and records each one's ambient value or absence; in the scope they read the snapshot value or nothing; every other key keeps its ambient value |
| `Scopes.SetAllThreadLocalValues` | context-propagation-api/src/main/java/io/micrometer/context/ContextSnapshot.java:53-59 | The scope touches exactly the registered keys and records each one's ambient value or absence; in the scope they read the snapshot value or nothing; unregistered keys are untouched |
| `Scopes.Close` | context-propagation-api/src/main/java/io/micrometer/context/ContextSnapshot.java:174-182 | An open scope puts each touched key back to its prior value, or removes it if it had none, and touches nothing else; closing again changes nothing |
| `Scopes.ApplyInOrder` | context-propagation-api/src/main/java/io/micrometer/context/ContextSnapshot.java:61-68 | Walking the registered accessors one at a time, recording then setting or resetting, gives the same scope and state as `SetThreadLocalValues` |
| `Scopes.CloseInOrder` | context-propagation-api/src/main/java/io/micrometer/context/ContextSnapshot.java:174-182 | Walking the registered accessors one at a time and restoring each touched key gives the same result as `Close` |
| `Scopes.CloseRestores` | context-propagation-api/src/main/java/io/micrometer/context/ContextSnapshot.java:53-58 | Whatever happens inside the scope, after close every touched key is as before the scope, and every untouched key keeps its in-scope value |
| `Scopes.ApplyCloseRoundTrip` | context-propagation-api/src/main/java/io/micrometer/context/ContextSnapshot.java:53-58 | Opening and closing a scope with nothing in between leaves the whole thread state exactly as it was |
| `Scopes.CloseIdempotent` | context-propagation-api/src/main/java/io/micrometer/context/ContextSnapshot.java:174-182 | A second close changes neither the scope nor the state |
| `Scopes.CaptureThenApplyFiltered` | context-propagation-api/src/main/java/io/micrometer/context/ContextSnapshot.java:61-68 | Capture filtered by p, apply filtered by q: a key selected by q reads its captured value if p also selects it and nothing otherwise; other keys keep their ambient values |
| `Instrumentation.Around` | context-propagation-api/src/main/java/io/micrometer/context/ContextSnapshot.java:75-81 | The outcome is the body's own, as run in the scope state; registered keys end as before the call; unregistered keys keep what the body left |
| `Instrumentation.InstrumentRunnable` | context-propagation-api/src/main/java/io/micrometer/context/ContextSnapshot.java:75-81 | For every thread state: the runnable's own outcome in the scope state, and the registered keys as before |
| `Instrumentation.InstrumentCallable` | context-propagation-api/src/main/java/io/micrometer/context/ContextSnapshot.java:89-95 | For every thread state: the callable's own result or failure in the scope state, and the registered keys as before |
| `Instrumentation.InstrumentConsumer` | context-propagation-api/src/main/java/io/micrometer/context/ContextSnapshot.java:103-109 | For every argument and thread state: the consumer gets the same argument in the scope state, and the registered keys end as before |
| `Instrumentation.InstrumentedExecute` | context-propagation-api/src/main/java/io/micrometer/context/ContextSnapshot.java:116-121 | Exactly one task is queued and the queued ones are kept; when the new task runs, it has the original's outcome in the scope state, restores the registered keys and keeps what the original left in every other key |
| `Instrumentation.QuietBodyLeavesNoTrace` | context-propagation-api/src/main/java/io/micrometer/context/ContextSnapshot.java:75-81 | A body that does not change the state, wrapped, leaves the whole thread state exactly as it was |
| `Instrumentation.FailurePropagates` | context-propagation-api/src/main/java/io/micrometer/context/ContextSnapshot.java:89-95 | A failure of the body comes out unchanged, and the registered keys are restored anyway |
| `Scenarios.PropagateThreadLocal` | context-propagation-api/src/test/java/io/micrometer/context/DefaultContextSnapshotTests.java:37-54 | Captured "hello" from an absent start: "hello" in the scope, absent after close |
| `Scenarios.ResetToPreviousValue` | context-propagation-api/src/test/java/io/micrometer/context/DefaultContextSnapshotTests.java:56-73 | Captured "hello" over ambient "hola": "hello" in the scope, "hola" after close |
| `Scenarios.EmptyThreadLocal` | context-propagation-api/src/test/java/io/micrometer/context/DefaultContextSnapshotTests.java:75-91 | Absent at capture: no snapshot entry, absent in the scope and after close |
| `Scenarios.FilterOnCapture` | context-propagation-api/src/test/java/io/micrometer/context/DefaultContextSnapshotTests.java:93-120 | Capture filtered to "foo": "foo" reads its value and "bar" nothing in the scope; both absent after close |
| `Scenarios.FilterOnRestore` | context-propagation-api/src/test/java/io/micrometer/context/DefaultContextSnapshotTests.java:122-151 | Scopes filtered to "foo", then "bar", each show only their own key, and both keys end absent |
| `Scenarios.InstrumentRunnableOnFreshThread` | context-propagation-api/src/test/java/io/micrometer/context/InstrumentationTests.java:48-63 | On an empty thread the plain runnable records nothing and the runnable wrapped by `InstrumentRunnable` records "hello"; "obs" is absent afterwards |
| `Scenarios.ReadingBodyLeavesFreshThreadEmpty` | context-propagation-api/src/main/java/io/micrometer/context/ContextSnapshot.java:89-95 | A wrapped body that only reads "obs" returns "hello" and leaves the fresh thread empty |
| `Scenarios.InstrumentCallableOnFreshThread` | context-propagation-api/src/test/java/io/micrometer/context/InstrumentationTests.java:65-83 | The instrumented callable saw "hello" and still returns "foo" |
| `Scenarios.InstrumentExecutorOnFreshThread` | context-propagation-api/src/test/java/io/micrometer/context/InstrumentationTests.java:85-102 | One task per execute; the plain task records nothing, the instrumented one records "hello", and the worker ends without "obs" |
| `Scenarios.ThrowingBodyStillRestores` | context-propagation-api/src/main/java/io/micrometer/context/ContextSnapshot.java:75-81 | A body that overwrites the key and throws: the failure propagates and the key is back to its earlier value |
| `Scenarios.MapCarrierBypassesCaptureFilter` | context-propagation-api/src/test/java/io/micrometer/context/TestContextAccessor.java:34-37 | A carrier entry whose key the capture predicate rejects is still captured through the map accessor |
| `Scenarios.UpdateWithoutAccessorIsIdentity` | context-propagation-api/src/main/java/io/micrometer/context/ContextSnapshot.java:35-41 | With no context accessor registered, `updateContext` returns the carrier it was given |

## Left out

- `instrumentExecutorService` and `InstrumentedExecutorService`: the class is not part of this model. It is assumed to route all eight entry points through the same wrap as `InstrumentRunnable`/`InstrumentCallable`. Scheduling, futures, cancellation and timeouts are not modelled.
- `forContextAndThreadLocalValues` and `capture(keyPredicate, contexts)` use the process-wide `ContextRegistry.getInstance()`. They are `Capture` with that registry passed explicitly, so the global singleton is not modelled.
- Registry internals: copy-on-write storage, concurrent reads, removal of accessors and accessor lookup. The registry is an immutable value.
- Threads, `Thread.start`, `Thread.sleep` and executors with real threads. A "new thread" is a separate state, such as the empty map. An executor is a queue of tasks that a worker runs later.
- Accessor failures while capturing, updating, applying or restoring, and the aggregation of restore failures. The model is total, and the only failure is the body's own `Threw`.
- The `ContextSnapshot.builder` / `include` / `filter` calls of the tests are `Capture` with the equivalent key predicate.
- Concrete thread-local accessors (`ObservationThreadLocalAccessor`, `TestThreadLocalAccessor`). Each is one key of the state map. Keys and values are strings, as in the tests. Java `null` values are absence.
- A carrier is a value, and `ref` only tags its Java identity. A Java `putAll` that writes a map in place is seen through every other reference to that map. In the model only the carrier that `updateContext` returns holds the written entries, so a caller that drops the returned carrier sees no change.
- In `InstrumentationTests` a body records what it read in an `AtomicReference` shared between threads. In the model the body returns it, or writes it to an unregistered key of the thread it runs on.
- Resetting selected keys the snapshot lacks, the no-op second `close()`, the empty-snapshot no-op of `updateContext`, using every matching context accessor in registration order, and replace-on-re-register are assumptions about `DefaultContextSnapshot` and `ContextRegistry`, which are not part of this model. Another reading of the reset rule would leave the ambient value of such a key in place.
- Capture: its own contract pins the snapshot down only when no registered accessor can read the carriers. For arbitrary accessors, what `readValues` puts in the sink is the accessor's business. The order in which accessors and carriers are applied is stated by `ReadCarrierStep`, `ReadCarrierAppend` and `ReadCarriersAppend`. The map-accessor case is stated by `CaptureOneMapCarrier`.
- UpdateContext: its own contract pins the result down only when no registered accessor can write the carrier. For arbitrary accessors, what `writeValues` returns is the accessor's business. The order and the threading of the carrier are stated by `WriteCarrierStep` and `WriteCarrierAppend`. The map-accessor case is stated by `UpdateMapCarrier`.
- UpdateContextAll: the same as `UpdateContext`.
- ReadCarrier: its own contract states only the no-reader case. `ReadCarrierStep` and `ReadCarrierAppend` state the per-accessor step and the order, and `ReadMapCarrier` covers the map accessor.
- ReadCarriers: its own contract states only the case where no accessor reads any carrier. `ReadCarriersAppend` states the carrier order.
- WriteCarrier: its own contract states only the no-writer case. `WriteCarrierStep` and `WriteCarrierAppend` state the per-accessor step and the order, and `UpdateMapCarrier` covers the map accessor.

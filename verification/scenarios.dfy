/**
 The scenarios of `DefaultContextSnapshotTests` and `InstrumentationTests`,
 stated for all the registries and states they use. The test's
 observation thread-local is the key "obs"; a body that records what it
 reads returns it, or writes it to an unregistered key, instead of storing
 it in an `AtomicReference`.
 */
module Scenarios {
  import opened Options
  import opened ThreadLocals
  import opened Carriers
  import opened Registries
  import opened Snapshots
  import opened Scopes
  import opened Instrumentation

  const Obs: Key := "obs"

  /** A registry holding the observation thread-local accessor only. */
  function ObsRegistry(): (r: Registry)
    ensures r.Valid() && r.Registered() == {Obs} && |r.contextAccessors| == 0
  {
    RegisterThreadLocalAccessor(EmptyRegistry(), Obs)
  }

  /** A registry holding the accessors for "foo" and then "bar". */
  function FooBarRegistry(): (r: Registry)
    ensures r.Valid() && r.Registered() == {"foo", "bar"} && |r.contextAccessors| == 0
  {
    RegisterThreadLocalAccessor(RegisterThreadLocalAccessor(EmptyRegistry(), "foo"), "bar")
  }

  /**
   Absent, set to "hello", captured, reset: inside the scope the key reads
   "hello", and after `close` it is absent again.
   */
  lemma PropagateThreadLocal(start: State)
    requires Obs !in start
    ensures var captured := Put(start, Obs, Some("hello"));
            var snap := Capture(ObsRegistry(), AllKeys, captured, []);
            var ambient := Put(captured, Obs, None);
            var (scope, inside) := SetAllThreadLocalValues(snap, ambient);
            && Get(inside, Obs) == Some("hello")
            && Get(Close(scope, inside).1, Obs) == None
  {
  }

  /** Captured "hello", ambient "hola": the scope shows "hello" and `close` brings back "hola". */
  lemma ResetToPreviousValue(start: State)
    ensures var captured := Put(start, Obs, Some("hello"));
            var snap := Capture(ObsRegistry(), AllKeys, captured, []);
            var ambient := Put(captured, Obs, Some("hola"));
            var (scope, inside) := SetAllThreadLocalValues(snap, ambient);
            && Get(inside, Obs) == Some("hello")
            && Get(Close(scope, inside).1, Obs) == Some("hola")
  {
  }

  /** Absent at capture: no snapshot entry, absent in the scope, absent after it. */
  lemma EmptyThreadLocal(start: State)
    requires Obs !in start
    ensures var snap := Capture(ObsRegistry(), AllKeys, start, []);
            var (scope, inside) := SetAllThreadLocalValues(snap, start);
            && Obs !in snap.values
            && Get(inside, Obs) == None
            && Get(Close(scope, inside).1, Obs) == None
  {
  }

  /**
   Capture filtered to "foo": in the scope "foo" reads its captured value
   and "bar" nothing; after `close` both are absent.
   */
  lemma FilterOnCapture(start: State)
    ensures var captured := start["foo" := "fooValue"]["bar" := "barValue"];
            var snap := Capture(FooBarRegistry(), k => k == "foo", captured, []);
            var ambient := captured - {"foo", "bar"};
            var (scope, inside) := SetAllThreadLocalValues(snap, ambient);
            var after := Close(scope, inside).1;
            && Get(inside, "foo") == Some("fooValue") && Get(inside, "bar") == None
            && Get(after, "foo") == None && Get(after, "bar") == None
  {
  }

  /**
   Capture everything, then one scope filtered to "foo" and, after it
   closes, one filtered to "bar": neither shows the other key's value, and
   both keys end absent.
   */
  lemma FilterOnRestore(start: State)
    ensures var captured := start["foo" := "fooValue"]["bar" := "barValue"];
            var snap := Capture(FooBarRegistry(), AllKeys, captured, []);
            var ambient := captured - {"foo", "bar"};
            var (fooScope, fooInside) := SetThreadLocalValues(snap, k => k == "foo", ambient);
            var between := Close(fooScope, fooInside).1;
            var (barScope, barInside) := SetThreadLocalValues(snap, k => k == "bar", between);
            var after := Close(barScope, barInside).1;
            && Get(fooInside, "foo") == Some("fooValue") && Get(fooInside, "bar") == None
            && Get(barInside, "foo") == None && Get(barInside, "bar") == Some("barValue")
            && Get(after, "foo") == None && Get(after, "bar") == None
  {
  }

  /** The recording body of the instrumentation tests: it returns what it reads for "obs". */
  function ReadObs(s: State): (r: Run<Option<Value>>) {
    Run(Returned(Get(s, Obs)), s)
  }

  /**
   The runnable of the instrumentation tests, writing what it reads for "obs" to an
   unregistered key "seen" of the thread it runs on, where the test writes
   it to an `AtomicReference`.
   */
  function RecordObs(s: State): (r: Run<()>) {
    Run(Returned(()), Put(s, "seen", Get(s, Obs)))
  }

  /**
   On a fresh thread the uninstrumented runnable records nothing, and the
   runnable instrumented with a snapshot captured where "obs" held "hello"
   records "hello"; "obs" is absent on that thread afterwards.
   */
  lemma InstrumentRunnableOnFreshThread(submitter: State)
    requires Get(submitter, Obs) == Some("hello")
    ensures Get(RecordObs(map[]).after, "seen") == None
    ensures var wrapped := InstrumentRunnable(Capture(ObsRegistry(), AllKeys, submitter, []), RecordObs);
            && wrapped(map[]).outcome == Returned(())
            && Get(wrapped(map[]).after, "seen") == Some("hello")
            && Get(wrapped(map[]).after, Obs) == None
  {
  }

  /**
   A body that only reads "obs", wrapped, returns what it read in the scope
   and leaves the fresh thread empty.
   */
  lemma ReadingBodyLeavesFreshThreadEmpty(submitter: State)
    requires Get(submitter, Obs) == Some("hello")
    ensures var wrapped := InstrumentCallable(Capture(ObsRegistry(), AllKeys, submitter, []), ReadObs);
            wrapped(map[]).outcome == Returned(Some("hello")) && wrapped(map[]).after == map[]
  {
  }

  /** The callable of the tests: records what it reads for "obs" and returns "foo". */
  function RecordAndReturnFoo(s: State): (r: Run<(Option<Value>, string)>) {
    Run(Returned((Get(s, Obs), "foo")), s)
  }

  /** The instrumented callable still returns "foo", and saw "hello". */
  lemma InstrumentCallableOnFreshThread(submitter: State)
    requires Get(submitter, Obs) == Some("hello")
    ensures RecordAndReturnFoo(map[]).outcome.value.0 == None
    ensures var wrapped := InstrumentCallable(Capture(ObsRegistry(), AllKeys, submitter, []), RecordAndReturnFoo);
            wrapped(map[]).outcome == Returned((Some("hello"), "foo"))
  {
  }


  /**
   An executor whose tasks run on fresh threads: one task is queued per
   `execute`; the plain task records nothing, the instrumented one records
   "hello", and "obs" is absent on the worker afterwards.
   */
  lemma InstrumentExecutorOnFreshThread(submitter: State, ex: Executor)
    requires Get(submitter, Obs) == Some("hello")
    ensures var plain := Execute(ex, RecordObs);
            var wrapped := InstrumentedExecute(Capture(ObsRegistry(), AllKeys, submitter, []), ex, RecordObs);
            && |plain.pending| == |wrapped.pending| == |ex.pending| + 1
            && Get(plain.pending[|ex.pending|](map[]).after, "seen") == None
            && Get(wrapped.pending[|ex.pending|](map[]).after, "seen") == Some("hello")
            && Get(wrapped.pending[|ex.pending|](map[]).after, Obs) == None
  {
  }

  /**
   A body that overwrites "obs" and then throws: the failure comes out
   unchanged and "obs" is back to its value before the call.
   */
  lemma ThrowingBodyStillRestores(submitter: State, worker: State)
    ensures var body := (s: State) => Run(Threw("boom"), s[Obs := "changed"]);
            var wrapped := InstrumentRunnable(Capture(ObsRegistry(), AllKeys, submitter, []), body);
            && wrapped(worker).outcome == Threw("boom")
            && Get(wrapped(worker).after, Obs) == Get(worker, Obs)
  {
  }

  /**
   `TestContextAccessor.readValues` does not consult the key predicate, so
   a carrier entry whose key the capture predicate rejects still enters the
   snapshot: the capture filter holds for thread-local values only.
   */
  lemma MapCarrierBypassesCaptureFilter(s: State)
    ensures var c := Carrier(1, CarrierType("java.util.HashMap", {MapClassName}), map["bar" := "carried"]);
            var snap := Capture(Registry(["foo"], [MapAccessor()]), k => k == "foo", s, [c]);
            "bar" in snap.values && snap.values["bar"] == "carried"
  {
  }

  /** With no context accessor registered, `updateContext` returns the carrier it was given. */
  lemma UpdateWithoutAccessorIsIdentity(s: State, c: Carrier)
    ensures UpdateContextAll(Capture(ObsRegistry(), AllKeys, s, []), c) == c
  {
  }
}

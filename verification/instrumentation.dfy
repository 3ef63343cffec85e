/**
 The default wrappers of `ContextSnapshot`: a unit of work becomes one that
 applies the snapshot, runs the original, and closes the scope on every exit
 path (try-with-resources), handing back the original's result or failure
 unchanged. A unit of work is a state transformer of the thread it runs on.
 */
module Instrumentation {
  import opened ThreadLocals
  import opened Snapshots
  import opened Scopes

  /** How a unit of work ended: a returned value, or a thrown failure. */
  datatype Outcome<R> = Returned(value: R) | Threw(failure: string)

  /** How a unit of work ended, and the thread state it left behind. */
  datatype Run<R> = Run(outcome: Outcome<R>, after: State)

  /** A `Callable<R>`; a `Runnable` is a `Work<()>`. */
  type Work<R> = State -> Run<R>

  /** A `Consumer<T>`. */
  type Action<!T> = (T, State) -> Run<()>

  /** The thread state a wrapped body starts in: the snapshot applied to every registered key. */
  function ScopeState(snap: Snapshot, s: State): (t: State)
    ensures forall k :: k in snap.registry.Registered() ==> Get(t, k) == Get(snap.values, k)
    ensures forall k :: k !in snap.registry.Registered() ==> Get(t, k) == Get(s, k)
  {
    SetAllThreadLocalValues(snap, s).1
  }

  /**
   The shared pattern: open the scope, run the body, close the scope whether
   the body returned or threw. The outcome is the body's own; every
   registered key ends as it was before, even if the body reassigned it; a
   change the body made to an unregistered key stays.
   */
  function Around<R>(snap: Snapshot, work: Work<R>, s: State): (r: Run<R>)
    ensures r.outcome == work(ScopeState(snap, s)).outcome
    ensures AgreeOn(r.after, s, snap.registry.Registered())
    ensures forall k :: k !in snap.registry.Registered() ==> Get(r.after, k) == Get(work(ScopeState(snap, s)).after, k)
  {
    var (scope, inside) := SetAllThreadLocalValues(snap, s);
    var run := work(inside);
    Run(run.outcome, Close(scope, run.after).1)
  }

  /** `instrumentCallable`. */
  function InstrumentCallable<R>(snap: Snapshot, callable: Work<R>): (r: Work<R>)
    ensures forall s :: r(s).outcome == callable(ScopeState(snap, s)).outcome
    ensures forall s :: AgreeOn(r(s).after, s, snap.registry.Registered())
    ensures forall s, k :: k !in snap.registry.Registered() ==>
              Get(r(s).after, k) == Get(callable(ScopeState(snap, s)).after, k)
  {
    s => Around(snap, callable, s)
  }

  /** `instrumentRunnable`. */
  function InstrumentRunnable(snap: Snapshot, runnable: Work<()>): (r: Work<()>)
    ensures forall s :: r(s).outcome == runnable(ScopeState(snap, s)).outcome
    ensures forall s :: AgreeOn(r(s).after, s, snap.registry.Registered())
    ensures forall s, k :: k !in snap.registry.Registered() ==>
              Get(r(s).after, k) == Get(runnable(ScopeState(snap, s)).after, k)
  {
    InstrumentCallable(snap, runnable)
  }

  /** `instrumentConsumer`: the argument is passed to the consumer unchanged. */
  function InstrumentConsumer<T(!new)>(snap: Snapshot, consumer: Action<T>): (r: Action<T>)
    ensures forall x, s :: r(x, s).outcome == consumer(x, ScopeState(snap, s)).outcome
    ensures forall x, s :: AgreeOn(r(x, s).after, s, snap.registry.Registered())
    ensures forall x, s, k :: k !in snap.registry.Registered() ==>
              Get(r(x, s).after, k) == Get(consumer(x, ScopeState(snap, s)).after, k)
  {
    (x, s) => Around(snap, (t: State) => consumer(x, t), s)
  }

  /** An `Executor` whose tasks run later, in order, on threads of its own. */
  datatype Executor = Executor(pending: seq<Work<()>>)

  /** `Executor.execute` on the underlying executor: the task is queued as it is. */
  function Execute(ex: Executor, task: Work<()>): (r: Executor)
    ensures |r.pending| == |ex.pending| + 1 && r.pending[..|ex.pending|] == ex.pending
    ensures forall s :: r.pending[|ex.pending|](s) == task(s)
  {
    Executor(ex.pending + [task])
  }

  /**
   `instrumentExecutor(executor).execute(task)`: exactly one task is handed
   to the underlying executor, the wrapped one; the tasks already queued are
   untouched. Submission reads no thread state, so the submitting thread is
   unaffected; the scope opens only when the queued task runs.
   */
  function InstrumentedExecute(snap: Snapshot, ex: Executor, task: Work<()>): (r: Executor)
    ensures |r.pending| == |ex.pending| + 1 && r.pending[..|ex.pending|] == ex.pending
    ensures forall s :: r.pending[|ex.pending|](s).outcome == task(ScopeState(snap, s)).outcome
    ensures forall s :: AgreeOn(r.pending[|ex.pending|](s).after, s, snap.registry.Registered())
    ensures forall s, k :: k !in snap.registry.Registered() ==>
              Get(r.pending[|ex.pending|](s).after, k) == Get(task(ScopeState(snap, s)).after, k)
  {
    Execute(ex, InstrumentRunnable(snap, task))
  }

  /**
   A body that leaves the thread state as it found it, wrapped, leaves the
   thread state exactly as it was: present keys keep their values and
   absent keys stay absent.
   */
  lemma QuietBodyLeavesNoTrace<R>(snap: Snapshot, work: Work<R>, s: State)
    requires forall t :: work(t).after == t
    ensures Around(snap, work, s).after == s
  {
  }

  /** A failure of the body comes out of the wrapper unchanged, after the registered keys are restored. */
  lemma FailurePropagates<R>(snap: Snapshot, work: Work<R>, s: State, failure: string)
    requires work(ScopeState(snap, s)).outcome == Threw(failure)
    ensures Around(snap, work, s).outcome == Threw(failure)
    ensures AgreeOn(Around(snap, work, s).after, s, snap.registry.Registered())
  {
  }
}

/**
 `ContextSnapshot.Scope`: applying a snapshot to the current thread and
 putting the thread back on release. Applying with a key predicate touches
 exactly the registered keys the predicate selects. Each touched key is set
 to the snapshot value, or reset when the snapshot has none, so that code
 in the scope never sees the ambient value. Release puts every touched key
 back: the prior value if there was one, and absent if there was not.
 */
module Scopes {
  import opened Options
  import opened ThreadLocals
  import opened Registries
  import opened Snapshots

  /**
   The prior value (or absence) of every touched key, the registry the
   snapshot was applied through, and whether `close` has already run.
   */
  datatype Scope = Scope(previous: map<Key, Option<Value>>, registry: Registry, closed: bool) {

    /** Only registered keys are touched. */
    ghost predicate Valid() {
      previous.Keys <= registry.Registered()
    }
  }

  /** What each touched key holds inside the scope: the snapshot value, or none. */
  function Targets(snap: Snapshot, touched: set<Key>): (m: map<Key, Option<Value>>)
    ensures m.Keys == touched
    ensures forall k :: k in touched ==> m[k] == Get(snap.values, k)
  {
    map k | k in touched :: Get(snap.values, k)
  }

  /**
   `setThreadLocalValues(keyPredicate)`: returns the open scope and the
   thread state inside it. Selected registered keys read the snapshot value
   or nothing; every other key keeps its ambient value; the scope remembers
   each selected key's ambient value, or that it had none.
   */
  function SetThreadLocalValues(snap: Snapshot, keyPredicate: KeyPredicate, s: State): (r: (Scope, State))
    ensures r.0.Valid() && !r.0.closed && r.0.registry == snap.registry
    ensures r.0.previous.Keys == snap.registry.Selected(keyPredicate)
    ensures forall k :: k in r.0.previous ==> r.0.previous[k] == Get(s, k)
    ensures forall k :: k in snap.registry.Selected(keyPredicate) ==> Get(r.1, k) == Get(snap.values, k)
    ensures forall k :: k !in snap.registry.Selected(keyPredicate) ==> Get(r.1, k) == Get(s, k)
  {
    var touched := snap.registry.Selected(keyPredicate);
    (Scope(Priors(s, touched), snap.registry, false), Overlay(s, Targets(snap, touched)))
  }

  /** `setThreadLocalValues()`: every registered key. */
  function SetAllThreadLocalValues(snap: Snapshot, s: State): (r: (Scope, State))
    ensures r.0.Valid() && !r.0.closed && r.0.registry == snap.registry
    ensures r.0.previous.Keys == snap.registry.Registered()
    ensures forall k :: k in r.0.previous ==> r.0.previous[k] == Get(s, k)
    ensures forall k :: k in snap.registry.Registered() ==> Get(r.1, k) == Get(snap.values, k)
    ensures forall k :: k !in snap.registry.Registered() ==> Get(r.1, k) == Get(s, k)
  {
    SetThreadLocalValues(snap, AllKeys, s)
  }

  /**
   `Scope.close()`. An open scope puts each touched key back to its prior
   value, or removes it when it had none, and leaves every other key alone.
   Closing a closed scope changes nothing.
   */
  function Close(scope: Scope, s: State): (r: (Scope, State))
    ensures r.0 == scope.(closed := true)
    ensures scope.closed ==> r.1 == s
    ensures !scope.closed ==> forall k :: k in scope.previous ==> Get(r.1, k) == scope.previous[k]
    ensures forall k :: k !in scope.previous ==> Get(r.1, k) == Get(s, k)
  {
    if scope.closed then (scope, s)
    else (scope.(closed := true), Overlay(s, scope.previous))
  }

  // ---------------------------------------------------------------------
  // The loops of the implementation, one accessor at a time
  // ---------------------------------------------------------------------

  /**
   Apply as the implementation does it: walk the registered thread-local
   accessors in order; for each selected key record its current value, then
   set it from the snapshot or reset it. Same result as `SetThreadLocalValues`.
   */
  method ApplyInOrder(snap: Snapshot, keyPredicate: KeyPredicate, s: State) returns (scope: Scope, t: State)
    requires snap.registry.Valid()
    ensures (scope, t) == SetThreadLocalValues(snap, keyPredicate, s)
  {
    var keys := snap.registry.threadLocalKeys;
    var previous: map<Key, Option<Value>> := map[];
    t := s;
    var i := 0;
    while i < |keys|
      invariant 0 <= i <= |keys|
      invariant forall k :: k in previous <==> k in keys[..i] && keyPredicate(k)
      invariant forall k :: k in previous ==> previous[k] == Get(s, k) && Get(t, k) == Get(snap.values, k)
      invariant forall k :: k !in previous ==> Get(t, k) == Get(s, k)
    {
      var k := keys[i];
      assert k !in keys[..i] by {
        forall j | 0 <= j < i ensures keys[..i][j] != k {
          assert keys[..i][j] == keys[j];
        }
      }
      if keyPredicate(k) {
        previous := previous[k := Get(t, k)];
        t := Put(t, k, Get(snap.values, k));
      }
      assert keys[..i + 1] == keys[..i] + [k];
      i := i + 1;
    }
    assert keys[..i] == keys;
    var touched := snap.registry.Selected(keyPredicate);
    scope := Scope(previous, snap.registry, false);
    assert previous == Priors(s, touched);
    Extensionality(t, Overlay(s, Targets(snap, touched)));
  }

  /**
   Close as the implementation does it: walk the registered thread-local
   accessors in order and restore each key the scope touched. Same result
   as `Close`.
   */
  method CloseInOrder(scope: Scope, s: State) returns (done: Scope, t: State)
    requires scope.Valid()
    ensures (done, t) == Close(scope, s)
  {
    if scope.closed {
      return scope, s;
    }
    var keys := scope.registry.threadLocalKeys;
    t := s;
    var i := 0;
    while i < |keys|
      invariant 0 <= i <= |keys|
      invariant forall k :: k in scope.previous && k in keys[..i] ==> Get(t, k) == scope.previous[k]
      invariant forall k :: !(k in scope.previous && k in keys[..i]) ==> Get(t, k) == Get(s, k)
    {
      var k := keys[i];
      if k in scope.previous {
        t := Put(t, k, scope.previous[k]);
      }
      assert keys[..i + 1] == keys[..i] + [k];
      i := i + 1;
    }
    assert keys[..i] == keys;
    done := scope.(closed := true);
    Extensionality(t, Overlay(s, scope.previous));
  }

  // ---------------------------------------------------------------------
  // Properties
  // ---------------------------------------------------------------------

  /**
   Whatever happens inside the scope (the state `inside` is arbitrary),
   closing it puts every touched key back exactly as it was before the
   scope opened, present or absent, and keeps the in-scope value of every
   key the scope did not touch.
   */
  lemma CloseRestores(snap: Snapshot, keyPredicate: KeyPredicate, s: State, inside: State)
    ensures var after := Close(SetThreadLocalValues(snap, keyPredicate, s).0, inside).1;
            && AgreeOn(after, s, snap.registry.Selected(keyPredicate))
            && forall k :: k !in snap.registry.Selected(keyPredicate) ==> Get(after, k) == Get(inside, k)
  {
  }

  /** Opening and at once closing a scope leaves the thread state exactly as it was. */
  lemma ApplyCloseRoundTrip(snap: Snapshot, keyPredicate: KeyPredicate, s: State)
    ensures var (scope, inside) := SetThreadLocalValues(snap, keyPredicate, s);
            Close(scope, inside).1 == s
  {
  }

  /** A second `close` changes neither the scope nor the state. */
  lemma CloseIdempotent(scope: Scope, s: State)
    ensures var (once, t) := Close(scope, s);
            Close(once, t) == (once, t)
  {
  }

  /**
   Filter composition: capture with predicate `p` (no carriers), apply with
   predicate `q`. A registered key selected by `q` reads its value at
   capture if `p` also selects it, and nothing if `p` does not; a key `q`
   does not select keeps its ambient value.
   */
  lemma CaptureThenApplyFiltered(reg: Registry, p: KeyPredicate, q: KeyPredicate, atCapture: State, ambient: State)
    ensures var inside := SetThreadLocalValues(Capture(reg, p, atCapture, []), q, ambient).1;
            && (forall k :: k in reg.threadLocalKeys && q(k) ==>
                  Get(inside, k) == (if p(k) then Get(atCapture, k) else None))
            && (forall k :: !(k in reg.threadLocalKeys && q(k)) ==> Get(inside, k) == Get(ambient, k))
  {
  }
}

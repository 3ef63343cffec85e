/**
 The per-thread state that `ThreadLocalAccessor`s bridge: one value per
 key, or no value at all. Every accessor is identified by its key, so the
 state of one thread is a finite map and a missing entry means "no value".
 */
module ThreadLocals {
  import opened Options

  /** The key a thread-local accessor is registered under. */
  type Key = string

  /** A propagated value; never Java `null` (absence is a missing entry). */
  type Value = string

  /** The thread-local values of one thread. */
  type State = map<Key, Value>

  /** A `Predicate<Object>` over context keys. */
  type KeyPredicate = Key -> bool

  /** `ThreadLocalAccessor.getValue()`: the value, or None when nothing is set. */
  function Get(s: map<Key, Value>, k: Key): (r: Option<Value>)
    ensures r.Some? <==> k in s
    ensures r.Some? ==> r.value == s[k]
  {
    if k in s then Some(s[k]) else None
  }

  /** `setValue(v)` for a present value, `reset()` for an absent one. */
  function Put(s: State, k: Key, v: Option<Value>): (r: State)
    ensures Get(r, k) == v
    ensures forall j :: j != k ==> Get(r, j) == Get(s, j)
  {
    match v
    case Some(x) => s[k := x]
    case None => s - {k}
  }

  /** True when the two states agree, present or absent, on every key of ks. */
  ghost predicate AgreeOn(s: State, t: State, ks: set<Key>) {
    forall k :: k in ks ==> Get(s, k) == Get(t, k)
  }

  /**
   Puts every key of `m` to its entry (a value, or removed for None) and
   leaves every other key as it was: the common shape of applying a
   snapshot and of restoring a scope.
   */
  function Overlay(s: State, m: map<Key, Option<Value>>): (r: State)
    ensures forall k :: k in m ==> Get(r, k) == m[k]
    ensures forall k :: k !in m ==> Get(r, k) == Get(s, k)
  {
    map k | k in (s.Keys - m.Keys) + (set j | j in m && m[j].Some?) ::
      if k in m then m[k].value else s[k]
  }

  /** What a scope must remember about the keys `ks`: each prior value, or that it was absent. */
  function Priors(s: State, ks: set<Key>): (r: map<Key, Option<Value>>)
    ensures r.Keys == ks
    ensures forall k :: k in ks ==> r[k] == Get(s, k)
  {
    map k | k in ks :: Get(s, k)
  }

  /** Two states that agree on every key, present or absent, are equal. */
  lemma Extensionality(s: State, t: State)
    requires forall k :: Get(s, k) == Get(t, k)
    ensures s == t
  {
    assert s.Keys == t.Keys by {
      forall k ensures k in s <==> k in t {
        assert Get(s, k).Some? <==> Get(t, k).Some?;
      }
    }
    forall k | k in s ensures s[k] == t[k] {
      assert Get(s, k) == Get(t, k);
    }
  }

  /**
   Restoring the priors of `ks` taken from `s`, over any later state `t`,
   gives back `s` on `ks` exactly (present stays present with the same
   value, absent stays absent) and keeps `t` everywhere else.
   */
  lemma RestorePriors(s: State, t: State, ks: set<Key>)
    ensures AgreeOn(Overlay(t, Priors(s, ks)), s, ks)
    ensures forall k :: k !in ks ==> Get(Overlay(t, Priors(s, ks)), k) == Get(t, k)
  {
  }

  /**
   Overlaying `m` and then restoring the priors of its keys is the
   identity: nothing the overlay did survives.
   */
  lemma OverlayThenRestore(s: State, m: map<Key, Option<Value>>)
    ensures Overlay(Overlay(s, m), Priors(s, m.Keys)) == s
  {
  }
}

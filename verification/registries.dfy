/**
 A `ContextRegistry` as an explicit value: the keys of its registered
 thread-local accessors, in registration order, and its context accessors,
 in registration order. The process-wide default instance is not modelled;
 every operation takes its registry as a parameter.
 */
module Registries {
  import opened ThreadLocals
  import opened Carriers

  datatype Registry = Registry(threadLocalKeys: seq<Key>, contextAccessors: seq<ContextAccessor>) {

    /** At most one thread-local accessor per key: a later registration replaces an earlier one. */
    ghost predicate Valid() {
      Distinct(threadLocalKeys)
    }

    /** The keys of the registered thread-local accessors. */
    function Registered(): (ks: set<Key>)
      ensures forall k :: k in ks <==> k in threadLocalKeys
    {
      set k | k in threadLocalKeys
    }

    /** The registered keys a key predicate selects. */
    function Selected(keyPredicate: KeyPredicate): (ks: set<Key>)
      ensures forall k :: k in ks <==> k in threadLocalKeys && keyPredicate(k)
    {
      set k | k in threadLocalKeys && keyPredicate(k)
    }
  }

  /** No key occurs twice in `ks`. */
  ghost predicate Distinct(ks: seq<Key>) {
    forall i, j :: 0 <= i < j < |ks| ==> ks[i] != ks[j]
  }

  /** Prepending or appending a key not yet present keeps a sequence duplicate-free. */
  lemma DistinctExtend(x: Key, ks: seq<Key>)
    requires Distinct(ks) && x !in ks
    ensures Distinct([x] + ks) && Distinct(ks + [x])
  {
  }

  /** A registry with no accessors, as `new ContextRegistry()`. */
  function EmptyRegistry(): (r: Registry)
    ensures r.Valid() && r.Registered() == {} && |r.contextAccessors| == 0
  {
    Registry([], [])
  }

  /** The keys of `ks` other than `k`, in order. */
  function Without(ks: seq<Key>, k: Key): (r: seq<Key>)
    ensures forall j :: j in r <==> j in ks && j != k
    ensures |r| <= |ks|
  {
    if |ks| == 0 then []
    else if ks[0] == k then Without(ks[1..], k)
    else [ks[0]] + Without(ks[1..], k)
  }

  /** Dropping a key from a duplicate-free sequence leaves it duplicate-free. */
  lemma {:induction false} WithoutKeepsDistinct(ks: seq<Key>, k: Key)
    requires Distinct(ks)
    ensures Distinct(Without(ks, k))
  {
    if |ks| > 0 {
      assert Distinct(ks[1..]) by {
        forall i, j | 0 <= i < j < |ks[1..]| ensures ks[1..][i] != ks[1..][j] {
          assert ks[1..][i] == ks[i + 1] && ks[1..][j] == ks[j + 1];
        }
      }
      WithoutKeepsDistinct(ks[1..], k);
      if ks[0] != k {
        assert ks[0] !in ks[1..];
        DistinctExtend(ks[0], Without(ks[1..], k));
      }
    }
  }

  /**
   `registerThreadLocalAccessor`: the accessor for `k` is registered last,
   replacing an accessor registered earlier under the same key.
   */
  function RegisterThreadLocalAccessor(reg: Registry, k: Key): (r: Registry)
    requires reg.Valid()
    ensures r.Valid()
    ensures r.Registered() == reg.Registered() + {k}
    ensures |r.threadLocalKeys| > 0 && r.threadLocalKeys[|r.threadLocalKeys| - 1] == k
    ensures r.contextAccessors == reg.contextAccessors
  {
    var rest := Without(reg.threadLocalKeys, k);
    WithoutKeepsDistinct(reg.threadLocalKeys, k);
    DistinctExtend(k, rest);
    reg.(threadLocalKeys := rest + [k])
  }
}

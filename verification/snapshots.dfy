/**
 `ContextSnapshot`: an immutable map of captured values plus the registry it
 was captured from, and the two operations that only read it: `capture`
 and `updateContext`.
 */
module Snapshots {
  import opened ThreadLocals
  import opened Carriers
  import opened Registries

  datatype Snapshot = Snapshot(values: map<Key, Value>, registry: Registry)

  /** The accept-everything predicate, `key -> true`. */
  function AllKeys(k: Key): (b: bool) { true }

  /**
   First step of capture: the present value of every registered
   thread-local whose key passes the predicate. A key with no value gets no
   entry.
   */
  function CaptureThreadLocals(reg: Registry, keyPredicate: KeyPredicate, s: State): (r: map<Key, Value>)
    ensures forall k :: k in r <==> k in reg.threadLocalKeys && keyPredicate(k) && k in s
    ensures forall k :: k in r ==> r[k] == s[k]
  {
    map k | k in reg.Selected(keyPredicate) && k in s :: s[k]
  }

  /** No accessor of `accessors` can read a carrier of type `t`. */
  ghost predicate NoReader(accessors: seq<ContextAccessor>, t: CarrierType) {
    forall i :: 0 <= i < |accessors| ==> !accessors[i].canReadFrom(t)
  }

  /** No accessor of `accessors` can write a carrier of type `t`. */
  ghost predicate NoWriter(accessors: seq<ContextAccessor>, t: CarrierType) {
    forall i :: 0 <= i < |accessors| ==> !accessors[i].canWriteTo(t)
  }

  /**
   Every accessor that can read the carrier's type, in registration order,
   reads into the sink; a later accessor overwrites an earlier one's entry
   for the same key. With no such accessor the sink is returned as it is.
   */
  function ReadCarrier(accessors: seq<ContextAccessor>, c: Carrier, keyPredicate: KeyPredicate,
                       sink: map<Key, Value>): (r: map<Key, Value>)
    ensures NoReader(accessors, c.ctype) ==> r == sink
    decreases |accessors|
  {
    if |accessors| == 0 then sink
    else
      var a := accessors[0];
      var next := if a.canReadFrom(c.ctype) then a.readValues(c, keyPredicate, sink) else sink;
      ReadCarrier(accessors[1..], c, keyPredicate, next)
  }

  /** Reads every carrier in the order given; later carriers overwrite earlier ones. */
  function ReadCarriers(accessors: seq<ContextAccessor>, carriers: seq<Carrier>, keyPredicate: KeyPredicate,
                        sink: map<Key, Value>): (r: map<Key, Value>)
    ensures (forall i :: 0 <= i < |carriers| ==> NoReader(accessors, carriers[i].ctype)) ==> r == sink
    decreases |carriers|
  {
    if |carriers| == 0 then sink
    else ReadCarriers(accessors, carriers[1..], keyPredicate, ReadCarrier(accessors, carriers[0], keyPredicate, sink))
  }

  /**
   `ContextSnapshot.capture(registry, keyPredicate, contexts)`: thread-local
   values first, then the carriers. When no registered context accessor can
   read any of the carriers, the snapshot holds exactly the present values
   of the selected registered keys.
   */
  function Capture(reg: Registry, keyPredicate: KeyPredicate, s: State, carriers: seq<Carrier>): (r: Snapshot)
    ensures r.registry == reg
    ensures (forall i :: 0 <= i < |carriers| ==> NoReader(reg.contextAccessors, carriers[i].ctype)) ==>
              (forall k :: k in r.values <==> k in reg.threadLocalKeys && keyPredicate(k) && k in s) &&
              (forall k :: k in r.values ==> r.values[k] == s[k])
  {
    Snapshot(ReadCarriers(reg.contextAccessors, carriers, keyPredicate, CaptureThreadLocals(reg, keyPredicate, s)), reg)
  }

  /** The snapshot entries a key predicate selects. */
  function Select(values: map<Key, Value>, keyPredicate: KeyPredicate): (r: map<Key, Value>)
    ensures forall k :: k in r <==> k in values && keyPredicate(k)
    ensures forall k :: k in r ==> r[k] == values[k]
  {
    map k | k in values && keyPredicate(k) :: values[k]
  }

  /**
   Every accessor that can write the current carrier's type, in
   registration order, writes the values; each one gets the carrier the
   previous one returned. With no such accessor the carrier comes back
   unchanged.
   */
  function WriteCarrier(accessors: seq<ContextAccessor>, valuesToWrite: map<Key, Value>, c: Carrier): (r: Carrier)
    ensures NoWriter(accessors, c.ctype) ==> r == c
    decreases |accessors|
  {
    if |accessors| == 0 then c
    else
      var a := accessors[0];
      var next := if a.canWriteTo(c.ctype) then a.writeValues(valuesToWrite, c) else c;
      WriteCarrier(accessors[1..], valuesToWrite, next)
  }

  /**
   `updateContext(context, keyPredicate)`: writes the snapshot entries that
   pass the predicate into the carrier. An empty snapshot hands the carrier
   back without asking any accessor. Thread-local state is not an input:
   this operation never touches it.
   */
  function UpdateContext(snap: Snapshot, c: Carrier, keyPredicate: KeyPredicate): (r: Carrier)
    ensures |snap.values| == 0 ==> r == c
    ensures NoWriter(snap.registry.contextAccessors, c.ctype) ==> r == c
  {
    if |snap.values| == 0 then c
    else WriteCarrier(snap.registry.contextAccessors, Select(snap.values, keyPredicate), c)
  }

  /** `updateContext(context)`: all snapshot values. */
  function UpdateContextAll(snap: Snapshot, c: Carrier): (r: Carrier)
    ensures |snap.values| == 0 ==> r == c
    ensures NoWriter(snap.registry.contextAccessors, c.ctype) ==> r == c
  {
    UpdateContext(snap, c, AllKeys)
  }

  // ---------------------------------------------------------------------
  // Properties
  // ---------------------------------------------------------------------

  /** Reading `xs + ys` is reading `xs` and then reading `ys` into the result. */
  lemma {:induction false} ReadCarriersAppend(accessors: seq<ContextAccessor>, xs: seq<Carrier>, ys: seq<Carrier>,
                                              keyPredicate: KeyPredicate, sink: map<Key, Value>)
    ensures ReadCarriers(accessors, xs + ys, keyPredicate, sink)
         == ReadCarriers(accessors, ys, keyPredicate, ReadCarriers(accessors, xs, keyPredicate, sink))
  {
    if |xs| > 0 {
      assert (xs + ys)[1..] == xs[1..] + ys;
      ReadCarriersAppend(accessors, xs[1..], ys, keyPredicate, ReadCarrier(accessors, xs[0], keyPredicate, sink));
    } else {
      assert xs + ys == ys;
    }
  }

  /** One accessor reads a carrier if and only if its guard accepts the carrier's class. */
  lemma ReadCarrierStep(a: ContextAccessor, c: Carrier, keyPredicate: KeyPredicate, sink: map<Key, Value>)
    ensures ReadCarrier([a], c, keyPredicate, sink)
         == if a.canReadFrom(c.ctype) then a.readValues(c, keyPredicate, sink) else sink
  {
  }

  /**
   Accessors read in registration order: reading through `xs + ys` is reading
   through `xs` and then through `ys` into the result, so an entry written by
   a later accessor replaces one written earlier under the same key.
   */
  lemma {:induction false} ReadCarrierAppend(xs: seq<ContextAccessor>, ys: seq<ContextAccessor>, c: Carrier,
                                             keyPredicate: KeyPredicate, sink: map<Key, Value>)
    ensures ReadCarrier(xs + ys, c, keyPredicate, sink)
         == ReadCarrier(ys, c, keyPredicate, ReadCarrier(xs, c, keyPredicate, sink))
  {
    if |xs| > 0 {
      assert (xs + ys)[1..] == xs[1..] + ys;
      var a := xs[0];
      var next := if a.canReadFrom(c.ctype) then a.readValues(c, keyPredicate, sink) else sink;
      ReadCarrierAppend(xs[1..], ys, c, keyPredicate, next);
    } else {
      assert xs + ys == ys;
    }
  }

  /** One accessor writes a carrier if and only if its guard accepts the carrier's class. */
  lemma WriteCarrierStep(a: ContextAccessor, valuesToWrite: map<Key, Value>, c: Carrier)
    ensures WriteCarrier([a], valuesToWrite, c)
         == if a.canWriteTo(c.ctype) then a.writeValues(valuesToWrite, c) else c
  {
  }

  /**
   Accessors write in registration order, each one handed the carrier the
   previous one returned: writing through `xs + ys` is writing through `ys`
   the carrier that writing through `xs` produced.
   */
  lemma {:induction false} WriteCarrierAppend(xs: seq<ContextAccessor>, ys: seq<ContextAccessor>,
                                              valuesToWrite: map<Key, Value>, c: Carrier)
    ensures WriteCarrier(xs + ys, valuesToWrite, c)
         == WriteCarrier(ys, valuesToWrite, WriteCarrier(xs, valuesToWrite, c))
  {
    if |xs| > 0 {
      assert (xs + ys)[1..] == xs[1..] + ys;
      var a := xs[0];
      var next := if a.canWriteTo(c.ctype) then a.writeValues(valuesToWrite, c) else c;
      WriteCarrierAppend(xs[1..], ys, valuesToWrite, next);
    } else {
      assert xs + ys == ys;
    }
  }

  /** With `TestContextAccessor` as the only context accessor, a map carrier is merged into the sink entry by entry. */
  lemma ReadMapCarrier(c: Carrier, keyPredicate: KeyPredicate, sink: map<Key, Value>)
    requires IsAssignableFrom(MapClassName, c.ctype)
    ensures ReadCarrier([MapAccessor()], c, keyPredicate, sink) == sink + c.entries
  {
  }

  /**
   Capturing with `TestContextAccessor` as the only context accessor and one
   map carrier: every carrier entry is in the snapshot, whatever the key
   predicate; a selected thread-local value survives unless the carrier
   has the same key.
   */
  lemma CaptureOneMapCarrier(tlKeys: seq<Key>, keyPredicate: KeyPredicate, s: State, c: Carrier)
    requires IsAssignableFrom(MapClassName, c.ctype)
    ensures var r := Capture(Registry(tlKeys, [MapAccessor()]), keyPredicate, s, [c]);
            && (forall k :: k in c.entries ==> k in r.values && r.values[k] == c.entries[k])
            && (forall k :: k !in c.entries ==> (k in r.values <==> k in tlKeys && keyPredicate(k) && k in s))
            && (forall k :: k !in c.entries && k in r.values ==> r.values[k] == s[k])
  {
  }

  /**
   `updateContext` with `TestContextAccessor` as the only context accessor
   and a map carrier: the same carrier comes back holding its old entries
   overwritten by the selected snapshot entries, and nothing else.
   */
  lemma UpdateMapCarrier(snap: Snapshot, c: Carrier, keyPredicate: KeyPredicate)
    requires snap.registry.contextAccessors == [MapAccessor()]
    requires IsAssignableFrom(MapClassName, c.ctype)
    ensures var r := UpdateContext(snap, c, keyPredicate);
            && r.ref == c.ref && r.ctype == c.ctype
            && (forall k :: k in snap.values && keyPredicate(k) ==> k in r.entries && r.entries[k] == snap.values[k])
            && (forall k :: !(k in snap.values && keyPredicate(k)) ==>
                  (k in r.entries <==> k in c.entries) && (k in c.entries ==> r.entries[k] == c.entries[k]))
  {
  }

  /** Updating twice with the same snapshot through `TestContextAccessor` is the same as once. */
  lemma UpdateMapCarrierIdempotent(snap: Snapshot, c: Carrier, keyPredicate: KeyPredicate)
    requires snap.registry.contextAccessors == [MapAccessor()]
    requires IsAssignableFrom(MapClassName, c.ctype)
    ensures UpdateContext(snap, UpdateContext(snap, c, keyPredicate), keyPredicate) == UpdateContext(snap, c, keyPredicate)
  {
  }
}

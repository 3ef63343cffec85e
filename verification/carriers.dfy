/**
 Carrier objects and the `ContextAccessor` capability that bridges a carrier
 family to the uniform key/value view, with the map-backed accessor of the
 test suite (`TestContextAccessor`) as a concrete instance.
 */
module Carriers {
  import opened ThreadLocals

  /** The fully qualified name of `java.util.Map`. */
  const MapClassName: string := "java.util.Map"

  /**
   The runtime class of a carrier: its own name and the names of every class
   and interface it extends or implements, standing in for Java reflection.
   */
  datatype CarrierType = CarrierType(name: string, supertypes: set<string>)

  /** `Class.forName(target).isAssignableFrom(t)`: t is target or a subtype of it. */
  predicate IsAssignableFrom(target: string, t: CarrierType) {
    t.name == target || target in t.supertypes
  }

  /**
   A carrier object. `ref` stands for its Java identity, so "mutated in place"
   and "a new instance" can be told apart; `entries` is the key/value view a
   map-backed carrier exposes.
   */
  datatype Carrier = Carrier(ref: nat, ctype: CarrierType, entries: map<Key, Value>)

  /**
   A `ContextAccessor`. `readValues` returns the sink after the accessor has
   put its entries in (the Java method mutates the sink it is given);
   `writeValues` returns the carrier to use from then on.
   */
  datatype ContextAccessor = ContextAccessor(
    canReadFrom: CarrierType -> bool,
    readValues: (Carrier, KeyPredicate, map<Key, Value>) -> map<Key, Value>,
    canWriteTo: CarrierType -> bool,
    writeValues: (map<Key, Value>, Carrier) -> Carrier)

  // ---------------------------------------------------------------------
  // TestContextAccessor: a ContextAccessor for java.util.Map carriers
  // ---------------------------------------------------------------------

  /** `canReadFrom`: exactly the carriers whose class is assignable to `Map`. */
  function MapCanReadFrom(t: CarrierType): (r: bool)
    ensures r <==> IsAssignableFrom(MapClassName, t)
  {
    t.name == MapClassName || MapClassName in t.supertypes
  }

  /** `canWriteTo`: the same test as `canReadFrom`. */
  function MapCanWriteTo(t: CarrierType): (r: bool)
    ensures r <==> IsAssignableFrom(MapClassName, t)
  {
    t.name == MapClassName || MapClassName in t.supertypes
  }

  /**
   `readValues`: `sink.putAll(source)`. Every source entry lands in the sink,
   replacing a sink entry under the same key; other sink entries stay. The
   key predicate is not consulted.
   */
  function MapReadValues(source: Carrier, keyPredicate: KeyPredicate, sink: map<Key, Value>): (r: map<Key, Value>)
    ensures r.Keys == sink.Keys + source.entries.Keys
    ensures forall k :: k in source.entries ==> r[k] == source.entries[k]
    ensures forall k :: k in sink && k !in source.entries ==> r[k] == sink[k]
  {
    sink + source.entries
  }

  /**
   `writeValues`: `target.putAll(valuesToWrite)` and return `target` itself.
   Every written key maps to its written value, other entries keep theirs,
   and the carrier returned is the same object of the same class.
   */
  function MapWriteValues(valuesToWrite: map<Key, Value>, target: Carrier): (r: Carrier)
    ensures r.ref == target.ref && r.ctype == target.ctype
    ensures r.entries.Keys == target.entries.Keys + valuesToWrite.Keys
    ensures forall k :: k in valuesToWrite ==> r.entries[k] == valuesToWrite[k]
    ensures forall k :: k in target.entries && k !in valuesToWrite ==> r.entries[k] == target.entries[k]
  {
    target.(entries := target.entries + valuesToWrite)
  }

  /** The `TestContextAccessor` as a `ContextAccessor` value. */
  function MapAccessor(): (a: ContextAccessor)
    ensures forall t :: a.canReadFrom(t) <==> IsAssignableFrom(MapClassName, t)
    ensures forall t :: a.canWriteTo(t) <==> IsAssignableFrom(MapClassName, t)
    ensures forall c, p, sink :: a.readValues(c, p, sink) == sink + c.entries
    ensures forall v, c :: a.writeValues(v, c) == c.(entries := c.entries + v)
  {
    ContextAccessor(MapCanReadFrom, MapReadValues, MapCanWriteTo, MapWriteValues)
  }

  /** The read and write type guards agree on every carrier type. */
  lemma MapTypeGuardsAgree(t: CarrierType)
    ensures MapCanReadFrom(t) == MapCanWriteTo(t)
    ensures MapCanReadFrom(t) <==> IsAssignableFrom(MapClassName, t)
  {
  }

  /** A class that neither is nor extends `Map` is refused by both guards. */
  lemma MapGuardsRefuseOtherTypes(t: CarrierType)
    requires t.name != MapClassName && MapClassName !in t.supertypes
    ensures !MapCanReadFrom(t) && !MapCanWriteTo(t)
  {
  }

  /** `readValues` copies the same entries whatever key predicate it is given. */
  lemma MapReadIgnoresPredicate(source: Carrier, p: KeyPredicate, q: KeyPredicate, sink: map<Key, Value>)
    ensures MapReadValues(source, p, sink) == MapReadValues(source, q, sink)
  {
  }

  /** Writing the same values twice leaves the carrier as writing them once. */
  lemma MapWriteIdempotent(valuesToWrite: map<Key, Value>, target: Carrier)
    ensures MapWriteValues(valuesToWrite, MapWriteValues(valuesToWrite, target))
         == MapWriteValues(valuesToWrite, target)
  {
  }
}

/**
 * A JavaScript `Map` as a value: the entries plus the order in which their
 * keys were first inserted, which is the order `keys()`, `values()` and
 * `entries()` iterate in.
 */
module OrderedMaps {
  import opened Options

  datatype OrderedMap<K(==, !new), V> = OrderedMap(keys: seq<K>, entries: map<K, V>) {

    /** Each key listed once, and the listed keys are exactly the keys with an entry. */
    ghost predicate Valid() {
      && (forall i, j :: 0 <= i < j < |keys| ==> keys[i] != keys[j])
      && (forall k :: k in entries <==> k in keys)
    }

    function Size(): nat {
      |keys|
    }

    function Get(k: K): (r: Option<V>)
      ensures r.Some? <==> k in entries
      ensures r.Some? ==> r.value == entries[k]
    {
      if k in entries then Some(entries[k]) else None
    }

    /** `map.set(k, v)`: an existing key keeps its place, a new key goes last. */
    function Set(k: K, v: V): (m: OrderedMap<K, V>)
      ensures Valid() ==> m.Valid()
      ensures k in m.entries && m.entries[k] == v
      ensures forall j :: j != k ==> (j in m.entries <==> j in entries) && (j in entries ==> m.entries[j] == entries[j])
      ensures keys <= m.keys
      ensures m.keys == if k in keys then keys else keys + [k]
    {
      if k in keys then OrderedMap(keys, entries[k := v]) else OrderedMap(keys + [k], entries[k := v])
    }

    /** The values, in key insertion order. */
    function Values(): (vs: seq<V>)
      requires Valid()
      ensures |vs| == |keys| && forall i :: 0 <= i < |keys| ==> vs[i] == entries[keys[i]]
    {
      seq(|keys|, i requires 0 <= i < |keys| => entries[keys[i]])
    }

    /** The key/value pairs, in key insertion order. */
    function Items(): (kvs: seq<(K, V)>)
      requires Valid()
      ensures |kvs| == |keys| && forall i :: 0 <= i < |keys| ==> kvs[i] == (keys[i], entries[keys[i]])
    {
      seq(|keys|, i requires 0 <= i < |keys| => (keys[i], entries[keys[i]]))
    }
  }

  /** `new Map()`, and also the map after `clear()`. */
  function Empty<K(==, !new), V>(): (m: OrderedMap<K, V>)
    ensures m.Valid() && m.keys == [] && m.entries == map[]
  {
    OrderedMap([], map[])
  }
}

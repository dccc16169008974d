/** A Python `dict` as the checker uses it: a map together with the order in
    which its keys were first inserted, which is the order `keys()`,
    `items()` and `for k in d` see. */
module OrderedMaps {
  import opened Wrappers

  datatype OrderedMap<K(!new), V> = OrderedMap(keys: seq<K>, items: map<K, V>) {

    /** The keys are distinct and are exactly the keys of the map. */
    ghost predicate Valid() {
      && (forall i, j :: 0 <= i < j < |keys| ==> keys[i] != keys[j])
      && (forall k :: k in items <==> k in keys)
    }
  }

  function Empty<K(!new), V>(): (m: OrderedMap<K, V>)
    ensures m.Valid() && m.keys == [] && m.items == map[]
  {
    OrderedMap([], map[])
  }

  /** `d[k] = v`: a new key goes to the end, an existing key keeps its place
      and takes the new value. */
  function Put<K(!new), V>(m: OrderedMap<K, V>, k: K, v: V): (r: OrderedMap<K, V>)
    requires m.Valid()
    ensures r.Valid()
    ensures r.items == m.items[k := v]
    ensures k in m.items ==> r.keys == m.keys
    ensures k !in m.items ==> r.keys == m.keys + [k]
  {
    if k in m.items then OrderedMap(m.keys, m.items[k := v])
    else OrderedMap(m.keys + [k], m.items[k := v])
  }

  /** `d.get(k)`. */
  function Get<K(!new), V>(m: OrderedMap<K, V>, k: K): (r: Option<V>)
    ensures r.Some? <==> k in m.items
    ensures r.Some? ==> r.value == m.items[k]
  {
    if k in m.items then Some(m.items[k]) else None
  }

  /** A sequence of distinct elements has as many elements as its set. */
  lemma {:induction false} DistinctCardinality<K>(s: seq<K>)
    requires forall i, j :: 0 <= i < j < |s| ==> s[i] != s[j]
    ensures |set k | k in s| == |s|
  {
    if s != [] {
      var t := s[..|s| - 1];
      DistinctCardinality(t);
      var last := s[|s| - 1];
      assert (set k | k in s) == (set k | k in t) + {last};
      assert last !in (set k | k in t);
    }
  }

  /** `len(d)`: the number of keys, which is also the length of the order. */
  function Len<K(!new), V>(m: OrderedMap<K, V>): (n: nat)
    requires m.Valid()
    ensures n == |m.keys|
  {
    DistinctCardinality(m.keys);
    assert m.items.Keys == set k | k in m.keys;
    |m.items|
  }
}

/** The LinkedHashMap that scan fills: entries plus the order in which keys were first put. */
module OrderedMaps {

  datatype OrderedMap<K, V> = OrderedMap(keys: seq<K>, entries: map<K, V>)

  /** Keys are listed once each, and exactly the keys of the entries are listed. */
  predicate Valid<K, V>(m: OrderedMap<K, V>) {
    && (forall i, j :: 0 <= i < j < |m.keys| ==> m.keys[i] != m.keys[j])
    && (forall k :: k in m.keys ==> k in m.entries)
    && (forall k :: k in m.entries ==> k in m.keys)
  }

  function Empty<K, V>(): (m: OrderedMap<K, V>)
    ensures Valid(m) && m.entries == map[]
  {
    OrderedMap([], map[])
  }

  /**
   * LinkedHashMap.put: the value is replaced, and a new key goes to the end of
   * the order while a present key keeps its place.
   */
  function Put<K, V>(m: OrderedMap<K, V>, k: K, v: V): (r: OrderedMap<K, V>)
    requires Valid(m)
    ensures Valid(r)
    ensures r.entries == m.entries[k := v]
    ensures k in m.entries ==> r.keys == m.keys
    ensures k !in m.entries ==> r.keys == m.keys + [k]
  {
    if k in m.entries then OrderedMap(m.keys, m.entries[k := v])
    else OrderedMap(m.keys + [k], m.entries[k := v])
  }
}

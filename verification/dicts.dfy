/** Python's `dict`: a finite map that also remembers the order in which its
    keys were first inserted, so that iterating over it is deterministic. */
module Dicts {

  import opened Base

  datatype Dict<K, V> = Dict(keys: seq<K>, vals: map<K, V>)

  /** The key list has no repeats and names exactly the mapped keys. */
  predicate Valid<K, V>(d: Dict<K, V>)
  {
    && Distinct(d.keys)
    && d.vals.Keys == set k | k in d.keys
  }

  /** `{}` */
  function Empty<K, V>(): (d: Dict<K, V>)
    ensures Valid(d)
    ensures d.keys == [] && d.vals == map[]
  {
    Dict([], map[])
  }

  /** `d[k] = v`: a new key goes to the end of the iteration order, an
      existing key keeps its place and only its value changes. */
  function Put<K, V>(d: Dict<K, V>, k: K, v: V): (r: Dict<K, V>)
    requires Valid(d)
    ensures Valid(r)
    ensures r.vals == d.vals[k := v]
    ensures k in d.vals ==> r.keys == d.keys
    ensures k !in d.vals ==> r.keys == d.keys + [k]
  {
    if k in d.vals then Dict(d.keys, d.vals[k := v])
    else Dict(d.keys + [k], d.vals[k := v])
  }

  /** `d.get(k, default)` */
  function Get<K, V>(d: Dict<K, V>, k: K, default: V): V
  {
    if k in d.vals then d.vals[k] else default
  }

  /** Writing a key twice is writing it once with the second value. */
  lemma PutPut<K, V>(d: Dict<K, V>, k: K, v1: V, v2: V)
    requires Valid(d)
    ensures Put(Put(d, k, v1), k, v2) == Put(d, k, v2)
  {
    assert d.vals[k := v1][k := v2] == d.vals[k := v2];
  }
}

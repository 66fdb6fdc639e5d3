/** Ruby's Hash as the tools use it: a map whose keys are enumerated in the
    order they were first inserted. */
module Dicts {
  import opened Text

  /** The keys in insertion order and the value of each. */
  datatype Dict<K, V> = Dict(keys: seq<K>, values: map<K, V>)

  /** Every key once, and exactly the keys of the map. */
  ghost predicate Valid<K(!new), V>(d: Dict<K, V>)
  {
    NoDuplicates(d.keys) && forall k :: k in d.values <==> k in d.keys
  }

  /** `{}`. */
  function Empty<K(!new), V>(): (r: Dict<K, V>)
    ensures Valid(r) && r.keys == [] && r.values == map[]
  {
    Dict([], map[])
  }

  /** `h[k] = v`: a new key goes to the end, an existing key keeps its
      place and gets the new value. */
  function Put<K(==), V>(d: Dict<K, V>, k: K, v: V): (r: Dict<K, V>)
    ensures r.values == d.values[k := v]
    ensures r.keys == if k in d.values then d.keys else d.keys + [k]
  {
    Dict(if k in d.values then d.keys else d.keys + [k], d.values[k := v])
  }

  /** `h[k]` on a Hash whose default value is `default`. */
  function Get<K(==), V>(d: Dict<K, V>, k: K, default: V): V
  {
    if k in d.values then d.values[k] else default
  }

  /** `h.values`: the values in key order. */
  function Values<K(!new), V>(d: Dict<K, V>): (r: seq<V>)
    requires Valid(d)
    ensures |r| == |d.keys| && forall i :: 0 <= i < |d.keys| ==> r[i] == d.values[d.keys[i]]
  {
    seq(|d.keys|, i requires 0 <= i < |d.keys| => d.values[d.keys[i]])
  }

  /** Insertion keeps a Hash valid. */
  lemma PutValid<K(!new), V>(d: Dict<K, V>, k: K, v: V)
    requires Valid(d)
    ensures Valid(Put(d, k, v))
  {
  }

  /** A Hash filled by inserting the keys `ks` enumerates them in order of
      first insertion. */
  lemma PutKeys<K, V>(d: Dict<K, V>, ks: seq<K>, k: K, v: V)
    requires d.keys == Uniq(ks) && forall x :: x in d.values <==> x in ks
    ensures Put(d, k, v).keys == Uniq(ks + [k])
    ensures forall x :: x in Put(d, k, v).values <==> x in ks + [k]
  {
    assert (ks + [k])[..|ks|] == ks;
  }
}

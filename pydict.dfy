/**
 * A Python `dict`: a finite map that also remembers the order in which its
 * keys were first inserted, which is the order `dict.items()` and
 * `dict.values()` iterate in and the order `json.dump` writes.
 */
module PyDict {

  import opened Sequences

  datatype Dict<K(==,!new), V> = Dict(keys: seq<K>, items: map<K, V>)

  /** Each key is listed once, and exactly the mapped keys are listed. */
  ghost predicate Valid<K(!new), V>(d: Dict<K, V>) {
    && Distinct(d.keys)
    && (forall k :: k in d.items <==> k in d.keys)
  }

  function Empty<K(==,!new), V>(): (d: Dict<K, V>)
    ensures Valid(d) && d.keys == [] && d.items == map[]
  {
    Dict([], map[])
  }

  /** `d[k] = v`: an existing key keeps its place, a new key goes last. */
  function Put<K(==,!new), V>(d: Dict<K, V>, k: K, v: V): (r: Dict<K, V>)
    requires Valid(d)
    ensures Valid(r)
    ensures r.items == d.items[k := v]
    ensures k in d.items ==> r.keys == d.keys
    ensures k !in d.items ==> r.keys == d.keys + [k]
  {
    if k in d.items then Dict(d.keys, d.items[k := v])
    else
      var keys := d.keys + [k];
      assert forall i :: 0 <= i < |d.keys| ==> keys[i] == d.keys[i];
      Dict(keys, d.items[k := v])
  }

  /** `d.pop(k, None)`: the key is gone, the other keys keep their order. */
  function Pop<K(==,!new), V>(d: Dict<K, V>, k: K): (r: Dict<K, V>)
    requires Valid(d)
    ensures Valid(r)
    ensures r.items == d.items - {k}
    ensures r.keys == Without(d.keys, k)
  {
    FilterDistinct(d.keys, y => y != k);
    Dict(Without(d.keys, k), d.items - {k})
  }

  lemma PopIdempotent<K(!new), V>(d: Dict<K, V>, k: K)
    requires Valid(d)
    ensures Pop(Pop(d, k), k) == Pop(d, k)
  {
    FilterIdempotent(d.keys, y => y != k);
  }

  lemma PopAbsent<K(!new), V>(d: Dict<K, V>, k: K)
    requires Valid(d) && k !in d.items
    ensures Pop(d, k) == d
  {
    FilterKeepsAll(d.keys, y => y != k);
  }
}

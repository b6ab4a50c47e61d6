/**
 * Python dictionaries with string keys. A Python `dict` remembers the order in
 * which its keys were first inserted, and the assistant's fuzzy lookups and
 * `max` depend on that order, so a dictionary is a map together with its key
 * order.
 */
module Dicts {

  datatype Dict<V> = Dict(keys: seq<string>, items: map<string, V>)
  {
    /** Keys are listed once each, and exactly the keys of the map are listed. */
    ghost predicate Valid()
    {
      && Distinct(keys)
      && (forall k :: k in items <==> k in keys)
    }
  }

  /** No key is listed twice. */
  predicate Distinct(keys: seq<string>)
  {
    forall i, j :: 0 <= i < j < |keys| ==> keys[i] != keys[j]
  }

  /** `{}`. */
  function Empty<V>(): (d: Dict<V>)
    ensures d.Valid() && d.keys == [] && d.items == map[]
  {
    Dict([], map[])
  }

  /** `d[k] = v`: a new key goes to the end of the order, an existing one keeps its place. */
  function Put<V>(d: Dict<V>, k: string, v: V): (r: Dict<V>)
    requires d.Valid()
    ensures r.Valid()
    ensures r.items == d.items[k := v]
    ensures k in d.items ==> r.keys == d.keys
    ensures k !in d.items ==> r.keys == d.keys + [k]
  {
    if k in d.items then Dict(d.keys, d.items[k := v]) else Dict(d.keys + [k], d.items[k := v])
  }

  /** Writing a key twice leaves only the second value. */
  lemma PutTwice<V>(d: Dict<V>, k: string, v1: V, v2: V)
    requires d.Valid()
    ensures Put(Put(d, k, v1), k, v2) == Put(d, k, v2)
  {
    assert d.items[k := v1][k := v2] == d.items[k := v2];
  }

  /** Writing back the value a key already has changes nothing. */
  lemma PutSame<V>(d: Dict<V>, k: string)
    requires d.Valid() && k in d.items
    ensures Put(d, k, d.items[k]) == d
  {
    assert d.items[k := d.items[k]] == d.items;
  }

  /** `d.get(k, default)`. */
  function Get<V>(d: Dict<V>, k: string, default: V): V
  {
    if k in d.items then d.items[k] else default
  }
}

/**
 * A Python `dict` with string keys, as the parser uses it: a mapping that
 * remembers the order in which its keys were first inserted. Assigning to
 * a key that is already present replaces its value and keeps its place.
 */
module PyDict {

  datatype Dict<V> = Dict(keys: seq<string>, values: map<string, V>) {
    /** The keys are listed once each, and exactly the keys have values. */
    ghost predicate Valid() {
      && (forall i, j :: 0 <= i < j < |keys| ==> keys[i] != keys[j])
      && (forall k :: k in values <==> k in keys)
    }
  }

  /** `{}` */
  function Empty<V>(): (d: Dict<V>)
    ensures d.Valid() && d.keys == [] && d.values == map[]
  {
    Dict([], map[])
  }

  /** `d[k] = v` */
  function Put<V>(d: Dict<V>, k: string, v: V): (r: Dict<V>)
    requires d.Valid()
    ensures r.Valid()
    ensures k in r.values && r.values[k] == v
    ensures forall k' :: k' != k ==> (k' in r.values <==> k' in d.values)
    ensures forall k' :: k' != k && k' in d.values ==> r.values[k'] == d.values[k']
    ensures k in d.values ==> r.keys == d.keys
    ensures k !in d.values ==> r.keys == d.keys + [k]
  {
    if k in d.values then Dict(d.keys, d.values[k := v])
    else Dict(d.keys + [k], d.values[k := v])
  }

  /** `d.values()`: the values in the order of their keys. */
  function Values<V>(d: Dict<V>): (vs: seq<V>)
    requires d.Valid()
    ensures |vs| == |d.keys|
    ensures forall i :: 0 <= i < |vs| ==> vs[i] == d.values[d.keys[i]]
  {
    seq(|d.keys|, i requires 0 <= i < |d.keys| => d.values[d.keys[i]])
  }

  /** `len(d)`: the number of keys. */
  function Len<V>(d: Dict<V>): nat {
    |d.keys|
  }

  /** `len(d)` counts the keys that have values: no key is listed twice. */
  lemma LenCountsKeys<V>(d: Dict<V>)
    requires d.Valid()
    ensures Len(d) == |d.values.Keys|
  {
    DistinctCard(d.keys);
    assert d.values.Keys == set k | k in d.keys;
  }

  lemma {:induction false} DistinctCard(ks: seq<string>)
    requires forall i, j :: 0 <= i < j < |ks| ==> ks[i] != ks[j]
    ensures |set k | k in ks| == |ks|
  {
    if ks != [] {
      var init := ks[..|ks| - 1];
      var last := ks[|ks| - 1];
      DistinctCard(init);
      assert (set k | k in ks) == (set k | k in init) + {last};
      assert last !in init;
    }
  }
}

/** A Python `dict` where its insertion order matters: the keys in the order
    they were first inserted, and the current value of each key.  Assigning
    to an existing key keeps its position and replaces its value. */
module OrderedDict {

  datatype Dict<K(==), V> = Dict(keys: seq<K>, values: map<K, V>)

  predicate Distinct<K(==)>(ks: seq<K>) {
    forall i, j :: 0 <= i < j < |ks| ==> ks[i] != ks[j]
  }

  /** Every key is listed exactly once, and only keys are listed. */
  predicate Valid<K(==), V>(d: Dict<K, V>) {
    && Distinct(d.keys)
    && d.values.Keys == (set k | k in d.keys)
  }

  function Empty<K(==), V>(): (d: Dict<K, V>)
    ensures Valid(d) && |d.keys| == 0
  {
    Dict([], map[])
  }

  /** `d[k] = v`. */
  function Put<K(==), V>(d: Dict<K, V>, k: K, v: V): (r: Dict<K, V>)
    requires Valid(d)
    ensures Valid(r)
    ensures r.values == d.values[k := v]
    ensures k in d.values ==> r.keys == d.keys
    ensures k !in d.values ==> r.keys == d.keys + [k]
  {
    if k in d.values then Dict(d.keys, d.values[k := v])
    else Dict(d.keys + [k], d.values[k := v])
  }

  /** Sum of `m[k]` over the keys listed in `ks`. */
  function SumOver<K(==)>(ks: seq<K>, m: map<K, int>): int
    requires forall i :: 0 <= i < |ks| ==> ks[i] in m
  {
    if |ks| == 0 then 0 else SumOver(ks[..|ks| - 1], m) + m[ks[|ks| - 1]]
  }

  /** `sum(d.values())`. */
  function Sum<K(==)>(d: Dict<K, int>): int
    requires Valid(d)
  {
    SumOver(d.keys, d.values)
  }

  lemma {:induction false} SumOverUnlisted<K>(ks: seq<K>, m: map<K, int>, k: K, v: int)
    requires forall i :: 0 <= i < |ks| ==> ks[i] in m
    requires k !in ks
    ensures SumOver(ks, m[k := v]) == SumOver(ks, m)
  {
    if |ks| > 0 {
      SumOverUnlisted(ks[..|ks| - 1], m, k, v);
    }
  }

  lemma {:induction false} SumOverListed<K>(ks: seq<K>, m: map<K, int>, k: K, v: int)
    requires forall i :: 0 <= i < |ks| ==> ks[i] in m
    requires Distinct(ks) && k in ks
    ensures SumOver(ks, m[k := v]) == SumOver(ks, m) - m[k] + v
  {
    var front := ks[..|ks| - 1];
    if ks[|ks| - 1] == k {
      assert k !in front;
      SumOverUnlisted(front, m, k, v);
    } else {
      assert k in front;
      SumOverListed(front, m, k, v);
    }
  }

  /** Assigning `v` to `k` changes the sum of the values by `v` minus the
      value `k` had (nothing, when `k` was absent). */
  lemma PutSum<K>(d: Dict<K, int>, k: K, v: int)
    requires Valid(d)
    ensures Sum(Put(d, k, v)) == Sum(d) - (if k in d.values then d.values[k] else 0) + v
  {
    var r := Put(d, k, v);
    if k in d.values {
      SumOverListed(d.keys, d.values, k, v);
    } else {
      assert r.keys[..|r.keys| - 1] == d.keys;
      SumOverUnlisted(d.keys, d.values, k, v);
    }
  }
}

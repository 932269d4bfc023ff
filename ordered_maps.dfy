/** Python dictionaries remember the order in which their keys were first
    inserted, and several results of the pipeline (ranking ties, summary and
    checkpoint order) depend on it. `ODict` is such a dictionary: a map plus
    the insertion order of its keys. */
module OrderedMaps {
  import opened Common

  datatype ODict<V> = ODict(keys: seq<string>, items: map<string, V>)

  /** Keys are listed once each, and exactly the keys of the map are listed. */
  ghost predicate Valid<V>(d: ODict<V>) {
    Distinct(d.keys) && (forall k :: k in d.items <==> k in d.keys)
  }

  function Empty<V>(): (d: ODict<V>)
    ensures Valid(d) && d.keys == [] && d.items == map[]
  {
    ODict([], map[])
  }

  /** `d[k] = v`: a new key goes last, an existing key keeps its place. */
  function Put<V>(d: ODict<V>, k: string, v: V): (r: ODict<V>)
    requires Valid(d)
    ensures Valid(r)
    ensures r.items == d.items[k := v]
    ensures k in d.items ==> r.keys == d.keys
    ensures k !in d.items ==> r.keys == d.keys + [k]
  {
    if k in d.items then ODict(d.keys, d.items[k := v])
    else ODict(d.keys + [k], d.items[k := v])
  }

  /** The key sequence without `k`, others in their order. */
  function Without(keys: seq<string>, k: string): (r: seq<string>)
    ensures forall x :: x in r <==> x in keys && x != k
    ensures |r| <= |keys|
  {
    if keys == [] then []
    else if keys[0] == k then Without(keys[1..], k)
    else [keys[0]] + Without(keys[1..], k)
  }

  predicate Distinct(s: seq<string>) {
    forall i, j :: 0 <= i < j < |s| ==> s[i] != s[j]
  }

  lemma DistinctCons(x: string, s: seq<string>)
    requires Distinct(s) && x !in s
    ensures Distinct([x] + s)
  {
    var r := [x] + s;
    forall i, j | 0 <= i < j < |r| ensures r[i] != r[j] {
      assert r[j] == s[j - 1];
      if i > 0 {
        assert r[i] == s[i - 1];
      }
    }
  }

  lemma {:induction false} WithoutDistinct(keys: seq<string>, k: string)
    requires Distinct(keys)
    ensures Distinct(Without(keys, k))
  {
    if keys != [] {
      assert Distinct(keys[1..]) by {
        forall i, j | 0 <= i < j < |keys| - 1 ensures keys[1..][i] != keys[1..][j] {
          assert keys[1..][i] == keys[i + 1] && keys[1..][j] == keys[j + 1];
        }
      }
      WithoutDistinct(keys[1..], k);
      if keys[0] != k {
        assert keys[0] !in keys[1..];
        DistinctCons(keys[0], Without(keys[1..], k));
      }
    }
  }

  /** `del d[k]` when `k` is present; `d` unchanged otherwise. */
  function Remove<V>(d: ODict<V>, k: string): (r: ODict<V>)
    requires Valid(d)
    ensures Valid(r)
    ensures r.items == d.items - {k}
    ensures r.keys == Without(d.keys, k)
  {
    WithoutDistinct(d.keys, k);
    ODict(Without(d.keys, k), d.items - {k})
  }

  /** `d.get(k)`. */
  function Get<V>(d: ODict<V>, k: string): (r: Option<V>)
    ensures r.Some? <==> k in d.items
    ensures r.Some? ==> r.value == d.items[k]
  {
    if k in d.items then Some(d.items[k]) else None
  }

  /** `list(d.values())`, in key order. */
  function Values<V>(d: ODict<V>): (r: seq<V>)
    requires forall k :: k in d.keys ==> k in d.items
    ensures |r| == |d.keys|
    ensures forall i :: 0 <= i < |r| ==> r[i] == d.items[d.keys[i]]
  {
    seq(|d.keys|, i requires 0 <= i < |d.keys| => d.items[d.keys[i]])
  }
}

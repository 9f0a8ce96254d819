/**
 * An insertion-ordered dictionary with string keys. A JavaScript plain
 * object whose keys are not array indices, and a Python dict, both
 * enumerate their entries in the order their keys were first inserted;
 * overwriting a key keeps its place and deleting it drops it.
 */
module OrderedDict {

  datatype Dict<V> = Dict(keys: seq<string>, values: map<string, V>)

  ghost predicate Distinct(s: seq<string>) {
    forall i, j :: 0 <= i < j < |s| ==> s[i] != s[j]
  }

  /** The key order lists every key of the map exactly once. */
  ghost predicate Valid<V>(d: Dict<V>) {
    Distinct(d.keys) && forall k :: k in d.values <==> k in d.keys
  }

  function Empty<V>(): (d: Dict<V>)
    ensures Valid(d) && d.keys == [] && d.values == map[]
  {
    Dict([], map[])
  }

  /** `obj[k] = v` / `d[k] = v`: a new key goes last, an existing key keeps its place. */
  function Put<V>(d: Dict<V>, k: string, v: V): (r: Dict<V>)
    requires Valid(d)
    ensures Valid(r)
  {
    Dict(if k in d.values then d.keys else d.keys + [k], d.values[k := v])
  }

  /** A second write to the same key replaces the first and keeps the key where the first put it. */
  lemma PutTwice<V>(d: Dict<V>, k: string, v: V, w: V)
    requires Valid(d)
    ensures Put(Put(d, k, v), k, w) == Put(d, k, w)
  {
    assert Put(d, k, v).values[k := w] == d.values[k := w];
  }

  /** s with every occurrence of k dropped, order kept. */
  function Without(s: seq<string>, k: string): (r: seq<string>)
    ensures forall x :: x in r <==> x in s && x != k
    ensures Distinct(s) ==> Distinct(r)
  {
    if s == [] then []
    else if s[0] == k then Without(s[1..], k)
    else
      assert Distinct(s) ==> Distinct(s[1..]) && s[0] !in s[1..] by {
        if Distinct(s) {
          forall j | 0 <= j < |s[1..]| ensures s[1..][j] != s[0] { assert s[1..][j] == s[j + 1]; }
        }
      }
      [s[0]] + Without(s[1..], k)
  }

  /** `delete obj[k]`; deleting an absent key changes nothing. */
  function Remove<V>(d: Dict<V>, k: string): (r: Dict<V>)
    requires Valid(d)
    ensures Valid(r)
  {
    Dict(Without(d.keys, k), d.values - {k})
  }

  /** `Object.entries(obj)` / `d.items()`: the (key, value) pairs in key order. */
  function Entries<V>(d: Dict<V>): (r: seq<(string, V)>)
    requires Valid(d)
    ensures |r| == |d.keys|
    ensures forall i :: 0 <= i < |r| ==> r[i].0 == d.keys[i] && r[i].1 == d.values[d.keys[i]]
  {
    seq(|d.keys|, i requires 0 <= i < |d.keys| => (d.keys[i], d.values[d.keys[i]]))
  }

  /** The entries are exactly the stored pairs. */
  lemma InEntries<V>(d: Dict<V>, e: (string, V))
    requires Valid(d)
    ensures e in Entries(d) <==> e.0 in d.values && e.1 == d.values[e.0]
  {
    if e.0 in d.values && e.1 == d.values[e.0] {
      var i :| 0 <= i < |d.keys| && d.keys[i] == e.0;
      assert Entries(d)[i] == e;
    }
  }

  /** `Object.values(obj)` / `d.values()`: the values in key order. */
  function Values<V>(d: Dict<V>): (r: seq<V>)
    requires Valid(d)
    ensures |r| == |d.keys|
    ensures forall i :: 0 <= i < |r| ==> r[i] == d.values[d.keys[i]]
  {
    seq(|d.keys|, i requires 0 <= i < |d.keys| => d.values[d.keys[i]])
  }

  /** Sum of f over the values stored under keys, taken in key order. */
  function SumBy<V>(keys: seq<string>, m: map<string, V>, f: V -> int): int
    requires forall k :: k in keys ==> k in m
  {
    if keys == [] then 0 else SumBy(keys[..|keys| - 1], m, f) + f(m[keys[|keys| - 1]])
  }

  /** `Object.values(obj).reduce((a, v) => a + f(v), 0)`. */
  function Total<V>(d: Dict<V>, f: V -> int): int
    requires Valid(d)
  {
    SumBy(d.keys, d.values, f)
  }

  lemma {:induction false} SumByNonNegative<V>(keys: seq<string>, m: map<string, V>, f: V -> int)
    requires forall k :: k in keys ==> k in m
    requires forall k :: k in m ==> f(m[k]) >= 0
    ensures SumBy(keys, m, f) >= 0
  {
    if keys != [] {
      SumByNonNegative(keys[..|keys| - 1], m, f);
    }
  }

  /** Changing the value of a key outside keys does not change the sum over keys. */
  lemma {:induction false} SumByOutside<V>(keys: seq<string>, m: map<string, V>, f: V -> int, k: string, v: V)
    requires forall x :: x in keys ==> x in m
    requires k !in keys
    ensures SumBy(keys, m[k := v], f) == SumBy(keys, m, f)
  {
    if keys != [] {
      SumByOutside(keys[..|keys| - 1], m, f, k, v);
    }
  }

  /** Changing the value of a key listed once in keys changes the sum by the difference of f. */
  lemma {:induction false} SumByUpdate<V>(keys: seq<string>, m: map<string, V>, f: V -> int, k: string, v: V)
    requires forall x :: x in keys ==> x in m
    requires Distinct(keys) && k in keys
    ensures SumBy(keys, m[k := v], f) == SumBy(keys, m, f) - f(m[k]) + f(v)
  {
    var init := keys[..|keys| - 1];
    if keys[|keys| - 1] == k {
      assert k !in init;
      SumByOutside(init, m, f, k, v);
    } else {
      assert k in init;
      SumByUpdate(init, m, f, k, v);
    }
  }

  /** How Put changes a total: the old value of k (if any) is replaced by v. */
  lemma TotalAfterPut<V>(d: Dict<V>, k: string, v: V, f: V -> int)
    requires Valid(d)
    ensures Total(Put(d, k, v), f) == Total(d, f) - (if k in d.values then f(d.values[k]) else 0) + f(v)
  {
    if k in d.values {
      SumByUpdate(d.keys, d.values, f, k, v);
    } else {
      var r := Put(d, k, v);
      assert r.keys[..|r.keys| - 1] == d.keys;
      SumByOutside(d.keys, d.values, f, k, v);
    }
  }
}

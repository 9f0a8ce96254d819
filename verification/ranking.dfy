/**
 * Selection and ranking over sequences: the stable descending sort both
 * leaderboards use (`Array.prototype.sort` with `b - a`, and Python's
 * `sorted(..., reverse=True)`, are both stable), a prefix of at most n
 * elements, and filtering.
 */
module Ranking {

  ghost predicate SortedDesc<T>(s: seq<T>, key: T -> int) {
    forall i, j :: 0 <= i < j < |s| ==> key(s[i]) >= key(s[j])
  }

  /** Inserts x after every element whose key is at least key(x), so equal keys keep their arrival order. */
  function Insert<T>(s: seq<T>, x: T, key: T -> int): (r: seq<T>)
    requires SortedDesc(s, key)
    ensures SortedDesc(r, key)
    ensures multiset(r) == multiset(s) + multiset{x}
  {
    if s == [] then [x]
    else if key(s[0]) < key(x) then [x] + s
    else
      var rest := Insert(s[1..], x, key);
      HeadStaysFirst(s, x, key, rest);
      [s[0]] + rest
  }

  /** Putting s[0] back in front of the insertion into s[1..] keeps the order and the elements. */
  lemma HeadStaysFirst<T>(s: seq<T>, x: T, key: T -> int, rest: seq<T>)
    requires s != [] && SortedDesc(s, key) && key(s[0]) >= key(x)
    requires SortedDesc(rest, key) && multiset(rest) == multiset(s[1..]) + multiset{x}
    ensures SortedDesc([s[0]] + rest, key)
    ensures multiset([s[0]] + rest) == multiset(s) + multiset{x}
  {
    assert s == [s[0]] + s[1..];
    forall i | 0 <= i < |rest| ensures key(s[0]) >= key(rest[i]) {
      assert rest[i] in multiset(rest);
      assert rest[i] == x || rest[i] in multiset(s[1..]);
    }
    var r := [s[0]] + rest;
    forall i, j | 0 <= i < j < |r| ensures key(r[i]) >= key(r[j]) {
      assert r[j] == rest[j - 1];
      if i > 0 {
        assert r[i] == rest[i - 1];
      }
    }
  }

  /** Stable sort by descending key. */
  function SortDesc<T>(s: seq<T>, key: T -> int): (r: seq<T>)
    ensures SortedDesc(r, key)
    ensures multiset(r) == multiset(s)
  {
    if s == [] then []
    else
      assert s == s[..|s| - 1] + [s[|s| - 1]];
      Insert(SortDesc(s[..|s| - 1], key), s[|s| - 1], key)
  }

  /** `s.slice(0, n)` / `s[:n]`. */
  function Take<T>(s: seq<T>, n: nat): seq<T> {
    if |s| <= n then s else s[..n]
  }

  /** The n best elements of s by key, best first. */
  function Top<T>(s: seq<T>, key: T -> int, n: nat): seq<T> {
    Take(SortDesc(s, key), n)
  }

  /** A top-n list is sorted best first and has min(|s|, n) elements. */
  lemma TopShape<T>(s: seq<T>, key: T -> int, n: nat)
    ensures |Top(s, key, n)| == (if |s| < n then |s| else n)
    ensures SortedDesc(Top(s, key, n), key)
  {
    var sorted := SortDesc(s, key);
    assert |sorted| == |s| by { assert |multiset(sorted)| == |multiset(s)|; }
  }

  /** A candidate left out of a top-n list ranks no higher than any element kept. */
  lemma LeftOutRanksLower<T>(s: seq<T>, key: T -> int, n: nat, x: T)
    requires x in s && x !in Top(s, key, n)
    ensures forall i :: 0 <= i < |Top(s, key, n)| ==> key(Top(s, key, n)[i]) >= key(x)
  {
    var sorted := SortDesc(s, key);
    var r := Top(s, key, n);
    assert x in multiset(sorted);
    var k :| 0 <= k < |sorted| && sorted[k] == x;
    assert forall j :: 0 <= j < |r| ==> r[j] == sorted[j];
    assert k >= |r|;
  }

  /**
   * What a top-n list promises: at most n entries, never more than there
   * are candidates and exactly n when there are enough, best first, each
   * taken from the candidates, and no candidate left out ranks above one
   * that was kept.
   */
  lemma TopIsBest<T>(s: seq<T>, key: T -> int, n: nat)
    ensures var r := Top(s, key, n);
      && |r| == (if |s| < n then |s| else n)
      && SortedDesc(r, key)
      && multiset(r) <= multiset(s)
      && (forall x, y :: x in s && x !in r && y in r ==> key(y) >= key(x))
  {
    var sorted := SortDesc(s, key);
    var r := Top(s, key, n);
    TopShape(s, key, n);
    if |sorted| > n {
      assert sorted == r + sorted[n..];
      assert multiset(sorted) == multiset(r) + multiset(sorted[n..]);
    }
    forall x, y | x in s && x !in r && y in r ensures key(y) >= key(x) {
      LeftOutRanksLower(s, key, n, x);
      var j :| 0 <= j < |r| && r[j] == y;
    }
  }

  /** Every element of a top-n list is one of the candidates. */
  lemma TopDrawnFrom<T>(s: seq<T>, key: T -> int, n: nat)
    ensures forall i :: 0 <= i < |Top(s, key, n)| ==> Top(s, key, n)[i] in s
  {
    var sorted := SortDesc(s, key);
    forall i | 0 <= i < |Top(s, key, n)| ensures Top(s, key, n)[i] in s {
      assert Top(s, key, n)[i] == sorted[i];
      assert sorted[i] in multiset(s);
    }
  }

  /** A top-n list that is not full holds every candidate. */
  lemma ShortTopHoldsAll<T>(s: seq<T>, key: T -> int, n: nat)
    ensures |Top(s, key, n)| < n ==> forall x :: x in s ==> x in Top(s, key, n)
  {
    var sorted := SortDesc(s, key);
    assert |sorted| == |s| by { assert |multiset(sorted)| == |multiset(s)|; }
    if |sorted| < n {
      forall x | x in s ensures x in sorted { assert x in multiset(sorted); }
    }
  }

  /** The elements of s that satisfy p, in their order in s. */
  function Filter<T>(s: seq<T>, p: T -> bool): (r: seq<T>)
    ensures |r| <= |s|
    ensures forall i :: 0 <= i < |r| ==> r[i] in s && p(r[i])
    ensures forall i :: 0 <= i < |s| && p(s[i]) ==> s[i] in r
    ensures multiset(r) <= multiset(s)
  {
    if s == [] then []
    else
      assert s == [s[0]] + s[1..];
      (if p(s[0]) then [s[0]] else []) + Filter(s[1..], p)
  }

  /** Filtering works piece by piece, so the kept elements keep their relative order. */
  lemma {:induction false} FilterAppend<T>(s: seq<T>, t: seq<T>, p: T -> bool)
    ensures Filter(s + t, p) == Filter(s, p) + Filter(t, p)
  {
    if s == [] {
      assert s + t == t;
    } else {
      var head := if p(s[0]) then [s[0]] else [];
      assert (s + t)[0] == s[0] && (s + t)[1..] == s[1..] + t;
      FilterAppend(s[1..], t, p);
      calc {
        Filter(s + t, p);
        head + Filter(s[1..] + t, p);
        head + (Filter(s[1..], p) + Filter(t, p));
        (head + Filter(s[1..], p)) + Filter(t, p);
        Filter(s, p) + Filter(t, p);
      }
    }
  }
}

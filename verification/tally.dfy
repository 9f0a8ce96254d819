/**
 * The inventory tally both bots display: one pass over the inventory list
 * that bumps a per-item counter in an insertion-ordered dictionary.
 */
module Tally {
  import opened OrderedDict

  /** The distinct elements of s in order of first occurrence. */
  function Dedup(s: seq<string>): (r: seq<string>)
    ensures Distinct(r)
    ensures forall x :: x in r <==> x in s
  {
    if s == [] then []
    else
      var init := Dedup(s[..|s| - 1]);
      assert forall x :: x in s <==> x in s[..|s| - 1] || x == s[|s| - 1] by {
        assert s == s[..|s| - 1] + [s[|s| - 1]];
      }
      if s[|s| - 1] in init then init else init + [s[|s| - 1]]
  }

  function AsInt(n: nat): int {
    n
  }

  /** counts holds, for the items seen so far, their first-occurrence order and their number of occurrences. */
  ghost predicate Counted(counts: Dict<nat>, seen: seq<string>) {
    && Valid(counts)
    && counts.keys == Dedup(seen)
    && (forall x :: x in counts.values ==> counts.values[x] == multiset(seen)[x])
  }

  /** Bumping the counter of the next item keeps the counts exact. */
  lemma CountNext(counts: Dict<nat>, seen: seq<string>, item: string)
    requires Counted(counts, seen)
    ensures Counted(Put(counts, item, (if item in counts.values then counts.values[item] else 0) + 1), seen + [item])
  {
    var next := seen + [item];
    var bumped := Put(counts, item, (if item in counts.values then counts.values[item] else 0) + 1);
    assert next[..|next| - 1] == seen;
    assert multiset(next) == multiset(seen) + multiset{item};
    assert (item in counts.values) == (item in Dedup(seen));
    forall x | x in bumped.values ensures bumped.values[x] == multiset(next)[x] {
      if x != item {
        assert bumped.values[x] == counts.values[x];
      }
    }
  }

  /**
   * `for item in inventory: counts[item] = counts.get(item, 0) + 1`.
   * The keys are the distinct items by first occurrence, each count is
   * the number of times the item occurs (so at least one), and the counts
   * add up to the length of the inventory.
   */
  method CountItems(items: seq<string>) returns (counts: Dict<nat>)
    ensures Valid(counts)
    ensures counts.keys == Dedup(items)
    ensures forall x :: x in counts.values ==> counts.values[x] == multiset(items)[x] >= 1
    ensures Total(counts, AsInt) == |items|
  {
    counts := Empty();
    for i := 0 to |items|
      invariant Counted(counts, items[..i])
      invariant Total(counts, AsInt) == i
    {
      var item := items[i];
      var seen := if item in counts.values then counts.values[item] else 0;
      assert items[..i + 1] == items[..i] + [item];
      CountNext(counts, items[..i], item);
      TotalAfterPut(counts, item, seen + 1, AsInt);
      counts := Put(counts, item, seen + 1);
    }
    assert items[..|items|] == items;
    forall x | x in counts.values ensures multiset(items)[x] >= 1 {
      assert x in Dedup(items);
    }
  }
}

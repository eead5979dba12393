/**
 * Python's `collections.Counter` over strings, as `search_by_histories` uses
 * it: `update` with a list, `del` of one key (no error when absent) and
 * `most_common()`, which ranks by count (ties keep first-seen order by the
 * way the sort inserts; only the ranking itself is proved).
 */
module Counting {
  import opened Text
  import opened Sorting
  import Lists

  /** Keys in first-seen order, with their counts. */
  datatype Counter = Counter(keys: seq<Str>, counts: map<Str, nat>)

  ghost predicate Valid(c: Counter) {
    && Lists.Distinct(c.keys)
    && (forall k :: k in c.counts <==> k in c.keys)
    && (forall k :: k in c.counts ==> c.counts[k] > 0)
  }

  const Empty := Counter([], map[])

  /** `c[k]`: zero for a key never counted. */
  function Count(c: Counter, k: Str): nat {
    if k in c.counts then c.counts[k] else 0
  }

  /** Occurrences of `k` in `xs`. */
  function Occurrences(xs: seq<Str>, k: Str): nat
    decreases |xs|
  {
    if xs == [] then 0 else (if xs[0] == k then 1 else 0) + Occurrences(xs[1..], k)
  }

  /** Counting one more occurrence of `x`. */
  function Add(c: Counter, x: Str): Counter {
    if x in c.counts then Counter(c.keys, c.counts[x := c.counts[x] + 1])
    else Counter(c.keys + [x], c.counts[x := 1])
  }

  /** `c.update(xs)`. */
  function AddAll(c: Counter, xs: seq<Str>): Counter
    decreases |xs|
  {
    if xs == [] then c else AddAll(Add(c, xs[0]), xs[1..])
  }

  /** `xs` without `x`. */
  function Without(xs: seq<Str>, x: Str): (r: seq<Str>)
    ensures forall y :: y in r <==> y in xs && y != x
    ensures forall i :: 0 <= i < |r| ==> r[i] != x
    decreases |xs|
  {
    if xs == [] then [] else (if xs[0] == x then [] else [xs[0]]) + Without(xs[1..], x)
  }

  /** `del c[x]`. */
  function Delete(c: Counter, x: Str): Counter {
    Counter(Without(c.keys, x), c.counts - {x})
  }

  /** The ranking key of a counted key: its count. */
  function CountKey(c: Counter): Str -> Key {
    k => (Count(c, k), 0)
  }

  /** `[k for (k, _) in c.most_common()[:n]]`. */
  function MostCommon(c: Counter, n: nat): seq<Str> {
    Take(SortDesc(c.keys, CountKey(c)), n)
  }

  lemma AddValid(c: Counter, x: Str)
    requires Valid(c)
    ensures Valid(Add(c, x))
    ensures forall k :: Count(Add(c, x), k) == Count(c, k) + (if k == x then 1 else 0)
  {
  }

  /** `update` adds each key's number of occurrences to its count and keeps the counter well formed. */
  lemma {:induction false} AddAllCounts(c: Counter, xs: seq<Str>)
    requires Valid(c)
    ensures Valid(AddAll(c, xs))
    ensures forall k :: Count(AddAll(c, xs), k) == Count(c, k) + Occurrences(xs, k)
    decreases |xs|
  {
    if xs != [] {
      AddValid(c, xs[0]);
      AddAllCounts(Add(c, xs[0]), xs[1..]);
    }
  }

  lemma {:induction false} WithoutDistinct(xs: seq<Str>, x: Str)
    requires Lists.Distinct(xs)
    ensures Lists.Distinct(Without(xs, x))
    decreases |xs|
  {
    if xs != [] {
      WithoutDistinct(xs[1..], x);
      assert xs[0] !in xs[1..];
    }
  }

  /** `del` forgets exactly one key and keeps the counter well formed. */
  lemma DeleteForgets(c: Counter, x: Str)
    requires Valid(c)
    ensures Valid(Delete(c, x))
    ensures x !in Delete(c, x).keys && Count(Delete(c, x), x) == 0
    ensures forall k :: k != x ==> Count(Delete(c, x), k) == Count(c, k)
  {
    WithoutDistinct(c.keys, x);
  }

  /**
   * `most_common()[:n]` yields `min(n, len(c))` distinct counted keys, all of
   * them when it yields fewer than `n`, and every counted key it leaves out
   * has a count no larger than any key it keeps.
   */
  lemma MostCommonTop(c: Counter, n: nat)
    requires Valid(c)
    ensures |MostCommon(c, n)| == Lists.Min(n, |c.keys|)
    ensures |MostCommon(c, n)| < n ==> forall k :: k in c.keys ==> k in MostCommon(c, n)
    ensures forall i :: 0 <= i < |MostCommon(c, n)| ==> MostCommon(c, n)[i] in c.keys
    ensures forall i, j :: 0 <= i < j < |MostCommon(c, n)| ==> MostCommon(c, n)[i] != MostCommon(c, n)[j]
    ensures forall i, k :: 0 <= i < |MostCommon(c, n)| && k in c.keys && k !in MostCommon(c, n) ==>
              Count(c, k) <= Count(c, MostCommon(c, n)[i])
  {
    var sorted := SortDesc(c.keys, CountKey(c));
    SortDescCorrect(c.keys, CountKey(c));
    var r := MostCommon(c, n);
    assert r == sorted[..|r|];
    forall i | 0 <= i < |r| ensures r[i] in c.keys {
      assert r[i] in multiset(sorted);
    }
    Lists.DistinctPerm(c.keys, sorted);
    if |r| < n {
      assert r == sorted;
      forall k | k in c.keys ensures k in r {
        assert k in multiset(sorted);
      }
    }
    forall i, k | 0 <= i < |r| && k in c.keys && k !in r
      ensures Count(c, k) <= Count(c, r[i])
    {
      assert k in multiset(sorted);
      var j :| 0 <= j < |sorted| && sorted[j] == k;
      assert j >= |r|;
      assert !Outranks(CountKey(c)(sorted[j]), CountKey(c)(sorted[i]));
    }
  }
}

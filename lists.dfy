/** Facts about lists without repeats, shared by the counters, the history and the recommender. */
module Lists {

  function Min(a: int, b: int): int {
    if a < b then a else b
  }

  /** No element occurs twice. */
  ghost predicate Distinct<T>(s: seq<T>) {
    forall i, j :: 0 <= i < j < |s| ==> s[i] != s[j]
  }

  /** `p` is `s` with some elements left out: the last of `s` either ends `p` or is dropped. */
  ghost predicate Subsequence<T>(p: seq<T>, s: seq<T>)
    decreases |s|
  {
    || p == []
    || (&& |s| > 0
        && (|| (p[|p| - 1] == s[|s| - 1] && Subsequence(p[..|p| - 1], s[..|s| - 1]))
            || Subsequence(p, s[..|s| - 1])))
  }

  /** An element of a list without repeats occurs in it once. */
  lemma {:induction false} MultiplicityOfDistinct<T>(xs: seq<T>, x: T)
    requires Distinct(xs) && x in xs
    ensures multiset(xs)[x] == 1
    decreases |xs|
  {
    assert xs == [xs[0]] + xs[1..];
    if xs[0] == x {
      assert x !in xs[1..];
    } else {
      MultiplicityOfDistinct(xs[1..], x);
    }
  }

  /** A permutation of a list without repeats has no repeats. */
  lemma DistinctPerm<T>(xs: seq<T>, ys: seq<T>)
    requires multiset(xs) == multiset(ys) && Distinct(xs)
    ensures Distinct(ys)
  {
    forall i, j | 0 <= i < j < |ys| ensures ys[i] != ys[j] {
      var m := ys[i];
      assert ys == ys[..i] + [m] + ys[i + 1..j] + [ys[j]] + ys[j + 1..];
      assert multiset(ys)[m] >= 1 + (if ys[j] == m then 1 else 0);
      assert m in multiset(xs);
      MultiplicityOfDistinct(xs, m);
    }
  }

  /** A prefix of a list without repeats has no repeats and only elements of the list. */
  lemma PrefixOfDistinct<T>(xs: seq<T>, n: nat)
    requires Distinct(xs) && n <= |xs|
    ensures Distinct(xs[..n]) && multiset(xs[..n]) <= multiset(xs)
  {
    assert xs == xs[..n] + xs[n..];
  }
}

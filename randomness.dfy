/**
 * The random primitives of the recommender as nondeterministic choices:
 * `random.sample` of a set, `random.shuffle` of a list (in place, on an
 * array), and the unspecified order in which a set is turned into a list.
 */
module Randomness {
  import opened Lists


  /** There is a subset of `s` of every size up to `|s|`. */
  lemma {:induction false} SubsetOfSize<T>(s: set<T>, n: nat) returns (r: set<T>)
    requires n <= |s|
    ensures r <= s && |r| == n
    decreases n
  {
    if n == 0 {
      r := {};
    } else {
      var x :| x in s;
      r := SubsetOfSize(s - {x}, n - 1);
      r := r + {x};
    }
  }

  /** A subset is no larger than the set. */
  lemma {:induction false} SubsetCard<T>(r: set<T>, s: set<T>)
    requires r <= s
    ensures |r| <= |s|
    decreases |r|
  {
    if y :| y in r {
      SubsetCard(r - {y}, s - {y});
    }
  }

  /** A subset as large as the set is the set itself. */
  lemma {:induction false} FullSubset<T>(r: set<T>, s: set<T>)
    requires r <= s && |r| == |s|
    ensures r == s
  {
    if x :| x in s && x !in r {
      assert r <= s - {x};
      SubsetCard(r, s - {x});
    }
  }

  /** `random.sample(s, min(k, len(s)))`: some subset of `s` of that size, all of `s` when it is small. */
  method Sample<T>(s: set<T>, k: nat) returns (r: set<T>)
    ensures r <= s && |r| == Min(k, |s|)
    ensures |s| <= k ==> r == s
  {
    ghost var w := SubsetOfSize(s, Min(k, |s|));
    r :| r <= s && |r| == Min(k, |s|);
    if |s| <= k {
      FullSubset(r, s);
    }
  }

  /** `[x for x in s]`: the elements of a set in some order, each once. */
  method SetToSeq<T>(s: set<T>) returns (q: seq<T>)
    ensures |q| == |s| && Distinct(q)
    ensures forall x :: x in q <==> x in s
  {
    q := [];
    var rest := s;
    while rest != {}
      invariant rest <= s && |q| + |rest| == |s| && Distinct(q)
      invariant forall x :: x in q <==> x in s && x !in rest
      decreases |rest|
    {
      var x :| x in rest;
      q := q + [x];
      rest := rest - {x};
    }
  }

  /** `random.shuffle(a)`: Fisher-Yates, swapping each position with a randomly chosen earlier one. */
  method Shuffle<T>(a: array<T>)
    modifies a
    ensures multiset(a[..]) == multiset(old(a[..]))
  {
    var i := a.Length;
    while i > 1
      invariant 0 <= i <= a.Length
      invariant multiset(a[..]) == multiset(old(a[..]))
    {
      i := i - 1;
      var j :| 0 <= j <= i;
      a[i], a[j] := a[j], a[i];
    }
  }

  /** A shuffled copy of a list: the same elements with the same multiplicities. */
  method Shuffled<T>(s: seq<T>) returns (r: seq<T>)
    ensures multiset(r) == multiset(s) && |r| == |s|
  {
    var a := new T[|s|](i requires 0 <= i < |s| => s[i]);
    assert a[..] == s;
    Shuffle(a);
    r := a[..];
    assert |multiset(r)| == |multiset(s)|;
  }
}

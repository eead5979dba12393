/**
 * Python's sort in descending order of a two-part key, as used by
 * `history.sort(key=lambda row: (-row['lastVisit'], -row['cnt']))` and by
 * `Counter.most_common` (`sorted(..., key=count, reverse=True)`). The lemmas
 * state order and permutation; that ties keep their input order is not stated.
 */
module Sorting {

  type Key = (int, int)

  /** `a` comes strictly before `b` in descending lexicographic order. */
  predicate Outranks(a: Key, b: Key) {
    a.0 > b.0 || (a.0 == b.0 && a.1 > b.1)
  }

  /** Sorted: no later element strictly outranks an earlier one. */
  ghost predicate SortedDesc<T>(s: seq<T>, key: T -> Key) {
    forall i, j :: 0 <= i < j < |s| ==> !Outranks(key(s[j]), key(s[i]))
  }

  /** Insert `x` before the first element that does not strictly outrank it (keeps ties in input order). */
  function Insert<T>(x: T, s: seq<T>, key: T -> Key): seq<T>
    decreases |s|
  {
    if s == [] || !Outranks(key(s[0]), key(x)) then [x] + s
    else [s[0]] + Insert(x, s[1..], key)
  }

  /** Insertion sort, descending by `key`; each element goes before the first it does not outrank. */
  function SortDesc<T>(s: seq<T>, key: T -> Key): seq<T>
    decreases |s|
  {
    if s == [] then [] else Insert(s[0], SortDesc(s[1..], key), key)
  }

  lemma {:induction false} InsertPerm<T>(x: T, s: seq<T>, key: T -> Key)
    ensures multiset(Insert(x, s, key)) == multiset(s) + multiset{x}
    ensures |Insert(x, s, key)| == |s| + 1
    decreases |s|
  {
    if !(s == [] || !Outranks(key(s[0]), key(x))) {
      InsertPerm(x, s[1..], key);
      assert s == [s[0]] + s[1..];
    }
  }

  lemma {:induction false} InsertSorted<T>(x: T, s: seq<T>, key: T -> Key)
    requires SortedDesc(s, key)
    ensures SortedDesc(Insert(x, s, key), key)
    decreases |s|
  {
    var r := Insert(x, s, key);
    if s == [] || !Outranks(key(s[0]), key(x)) {
      forall i, j | 0 <= i < j < |r| ensures !Outranks(key(r[j]), key(r[i])) {
        if i == 0 {
          assert r[j] == s[j - 1];
          if j > 1 { assert !Outranks(key(s[j - 1]), key(s[0])); }
        } else {
          assert r[i] == s[i - 1] && r[j] == s[j - 1];
        }
      }
    } else {
      InsertSorted(x, s[1..], key);
      var t := Insert(x, s[1..], key);
      InsertBelowHead(x, s, key);
      assert r == [s[0]] + t;
      forall i, j | 0 <= i < j < |r| ensures !Outranks(key(r[j]), key(r[i])) {
        if i == 0 {
          assert r[j] == t[j - 1];
        } else {
          assert r[i] == t[i - 1] && r[j] == t[j - 1];
        }
      }
    }
  }

  /** When the head outranks `x`, nothing of the tail with `x` inserted outranks the head. */
  lemma InsertBelowHead<T>(x: T, s: seq<T>, key: T -> Key)
    requires SortedDesc(s, key) && s != [] && Outranks(key(s[0]), key(x))
    ensures forall k :: 0 <= k < |Insert(x, s[1..], key)| ==> !Outranks(key(Insert(x, s[1..], key)[k]), key(s[0]))
  {
    var t := Insert(x, s[1..], key);
    InsertPerm(x, s[1..], key);
    forall k | 0 <= k < |t| ensures !Outranks(key(t[k]), key(s[0])) {
      assert t[k] in multiset(t);
      if t[k] != x {
        assert t[k] in multiset(s[1..]);
        var m :| 1 <= m < |s| && s[m] == t[k];
      }
    }
  }


  /** The sorted list is a permutation of its input, in descending key order. */
  lemma {:induction false} SortDescCorrect<T>(s: seq<T>, key: T -> Key)
    ensures |SortDesc(s, key)| == |s|
    ensures multiset(SortDesc(s, key)) == multiset(s)
    ensures SortedDesc(SortDesc(s, key), key)
    decreases |s|
  {
    if s != [] {
      SortDescCorrect(s[1..], key);
      InsertPerm(s[0], SortDesc(s[1..], key), key);
      InsertSorted(s[0], SortDesc(s[1..], key), key);
      assert s == [s[0]] + s[1..];
    }
  }

  /** `xs[:n]`. */
  function Take<T>(xs: seq<T>, n: nat): (r: seq<T>)
    ensures |r| == if |xs| < n then |xs| else n
    ensures r == xs[..|r|]
  {
    if |xs| <= n then xs else xs[..n]
  }

  /**
   * The first `n` elements of a sorted list are its top `n`: no element left
   * behind strictly outranks any of them.
   */
  lemma {:induction false} TakeSortedIsTop<T>(s: seq<T>, key: T -> Key, n: nat)
    requires SortedDesc(s, key)
    ensures forall y, i :: y in multiset(s) - multiset(Take(s, n)) && 0 <= i < |Take(s, n)| ==>
              !Outranks(key(y), key(Take(s, n)[i]))
  {
    var top := Take(s, n);
    assert s == top + s[|top|..];
    assert multiset(s) == multiset(top) + multiset(s[|top|..]);
    forall y, i | y in multiset(s) - multiset(top) && 0 <= i < |top|
      ensures !Outranks(key(y), key(top[i]))
    {
      assert y in multiset(s[|top|..]);
      var j :| |top| <= j < |s| && s[j] == y;
    }
  }
}

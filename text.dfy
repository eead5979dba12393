/**
 * Python string primitives the services rely on, written out with the
 * semantics CPython gives them: substring test, `str.replace`,
 * `str.split(sep)`, `str.split()` on whitespace, `sep.join`, `str.startswith`
 * and slicing with negative bounds.
 */
module Text {

  type Str = seq<char>

  /** `s.startswith(p)`. */
  predicate StartsWith(s: Str, p: Str) {
    |p| <= |s| && s[..|p|] == p
  }

  /** `p in s` for strings: `p` occurs in `s` at some position. */
  predicate Contains(s: Str, p: Str)
    decreases |s|
  {
    StartsWith(s, p) || (|s| > 0 && Contains(s[1..], p))
  }

  /** A pattern that matches at no position does not occur. */
  lemma {:induction false} NoMatchNoContains(s: Str, p: Str)
    requires forall i :: 0 <= i <= |s| ==> !StartsWith(s[i..], p)
    ensures !Contains(s, p)
    decreases |s|
  {
    assert s[0..] == s;
    if |s| > 0 {
      forall i | 0 <= i <= |s[1..]| ensures !StartsWith(s[1..][i..], p) {
        assert s[1..][i..] == s[i + 1..];
      }
      NoMatchNoContains(s[1..], p);
    }
  }

  /** `s.replace(pat, rep)`: non-overlapping occurrences, scanned left to right. */
  function Replace(s: Str, pat: Str, rep: Str): Str
    requires |pat| > 0
    decreases |s|
  {
    if |s| < |pat| then s
    else if s[..|pat|] == pat then rep + Replace(s[|pat|..], pat, rep)
    else [s[0]] + Replace(s[1..], pat, rep)
  }

  /** A string in which the pattern does not occur is left unchanged by `replace`. */
  lemma {:induction false} ReplaceAbsent(s: Str, pat: Str, rep: Str)
    requires |pat| > 0 && !Contains(s, pat)
    ensures Replace(s, pat, rep) == s
    decreases |s|
  {
    if |s| >= |pat| {
      assert !StartsWith(s, pat);
      ReplaceAbsent(s[1..], pat, rep);
      assert [s[0]] + s[1..] == s;
    }
  }

  /** Replacing a one-character pattern by text that lacks it removes every occurrence. */
  lemma {:induction false} ReplaceCharRemoves(s: Str, c: char, rep: Str)
    requires c !in rep
    ensures c !in Replace(s, [c], rep)
    decreases |s|
  {
    if |s| >= 1 {
      ReplaceCharRemoves(s[1..], c, rep);
    }
  }

  /** Replacing one character by a one-character text keeps the length and maps position-wise. */
  lemma {:induction false} ReplaceCharAt(s: Str, c: char, d: char, k: nat)
    requires k < |s|
    ensures |Replace(s, [c], [d])| == |s|
    ensures Replace(s, [c], [d])[k] == if s[k] == c then d else s[k]
    decreases |s|
  {
    if k > 0 {
      ReplaceCharAt(s[1..], c, d, k - 1);
    } else if |s| > 1 {
      ReplaceCharAt(s[1..], c, d, 0);
    }
  }

  /** Replacing one character by another, at every position of `s`. */
  lemma ReplaceCharPointwise(s: Str, c: char, d: char)
    ensures && |Replace(s, [c], [d])| == |s|
            && forall k :: 0 <= k < |s| ==> Replace(s, [c], [d])[k] == if s[k] == c then d else s[k]
  {
    if |s| == 0 {
      assert Replace(s, [c], [d]) == s;
    } else {
      ReplaceCharAt(s, c, d, 0);
    }
    forall k | 0 <= k < |s|
      ensures Replace(s, [c], [d])[k] == if s[k] == c then d else s[k]
    {
      ReplaceCharAt(s, c, d, k);
    }
  }

  /** `a` and `b` agree on every position both have. */
  predicate Agree(a: Str, b: Str) {
    forall j :: 0 <= j < |a| && j < |b| ==> a[j] == b[j]
  }

  /**
   * Writing `rep` cannot make a new `pat`: no match of `pat` lines up with any position
   * of `rep`, and no proper tail of `pat` lines up with the start of `rep`.
   */
  predicate Unmixable(pat: Str, rep: Str) {
    && (forall i :: 0 <= i < |rep| ==> !Agree(rep[i..], pat))
    && (forall k :: 1 <= k < |pat| ==> !Agree(rep, pat[k..]))
  }

  /** When `rep` cannot make `pat`, a replaced text starts with a tail of `pat` only if the original did. */
  lemma {:induction false} ReplaceKeepsTail(t: Str, pat: Str, rep: Str, k: nat)
    requires |pat| > 0 && Unmixable(pat, rep) && 1 <= k <= |pat|
    requires StartsWith(Replace(t, pat, rep), pat[k..])
    ensures StartsWith(t, pat[k..])
    decreases |t|
  {
    if k < |pat| && |t| >= |pat| {
      var out := Replace(t, pat, rep);
      if t[..|pat|] == pat {
        assert out == rep + Replace(t[|pat|..], pat, rep);
        assert Agree(rep, pat[k..]) by {
          forall j | 0 <= j < |rep| && j < |pat[k..]| ensures rep[j] == pat[k..][j] {
            assert out[j] == rep[j];
            assert out[..|pat[k..]|][j] == out[j];
          }
        }
        assert false;
      } else {
        var out1 := Replace(t[1..], pat, rep);
        assert out == [t[0]] + out1;
        assert pat[k..][1..] == pat[k + 1..];
        assert out1[..|pat[k + 1..]|] == out[..|pat[k..]|][1..];
        ReplaceKeepsTail(t[1..], pat, rep, k + 1);
        assert t[..|pat[k..]|] == [t[0]] + t[1..][..|pat[k + 1..]|];
      }
    }
  }

  /** When `rep` cannot make `pat`, no match of `pat` survives the replacement, at any position. */
  lemma {:induction false} ReplaceLeavesNoMatch(s: Str, pat: Str, rep: Str)
    requires |pat| > 0 && Unmixable(pat, rep)
    ensures forall i :: 0 <= i <= |Replace(s, pat, rep)| ==> !StartsWith(Replace(s, pat, rep)[i..], pat)
    decreases |s|
  {
    var out := Replace(s, pat, rep);
    if |s| < |pat| {
      assert out == s;
    } else if s[..|pat|] == pat {
      var rest := Replace(s[|pat|..], pat, rep);
      assert out == rep + rest;
      ReplaceLeavesNoMatch(s[|pat|..], pat, rep);
      forall i | 0 <= i <= |out| ensures !StartsWith(out[i..], pat) {
        if i < |rep| {
          assert !Agree(rep[i..], pat);
        } else {
          assert out[i..] == rest[i - |rep|..];
        }
      }
    } else {
      var rest := Replace(s[1..], pat, rep);
      assert out == [s[0]] + rest;
      ReplaceLeavesNoMatch(s[1..], pat, rep);
      forall i | 0 <= i <= |out| ensures !StartsWith(out[i..], pat) {
        if i == 0 {
          if StartsWith(out, pat) {
            assert rest[..|pat[1..]|] == out[..|pat|][1..];
            ReplaceKeepsTail(s[1..], pat, rep, 1);
            assert false;
          }
        } else {
          assert out[i..] == rest[i - 1..];
        }
      }
    }
  }

  /** When `rep` cannot make `pat`, `s.replace(pat, rep)` no longer contains `pat`. */
  lemma ReplaceRemoves(s: Str, pat: Str, rep: Str)
    requires |pat| > 0 && Unmixable(pat, rep)
    ensures !Contains(Replace(s, pat, rep), pat)
  {
    ReplaceLeavesNoMatch(s, pat, rep);
    NoMatchNoContains(Replace(s, pat, rep), pat);
  }

  /** `s.split(sep)` with an explicit one-character separator: never empty, keeps empty fields. */
  function Split(s: Str, sep: char): (parts: seq<Str>)
    ensures |parts| >= 1
    decreases |s|
  {
    if |s| == 0 then [""]
    else if s[0] == sep then [""] + Split(s[1..], sep)
    else
      var rest := Split(s[1..], sep);
      [[s[0]] + rest[0]] + rest[1..]
  }

  /** `sep.join(parts)`. */
  function Join(parts: seq<Str>, sep: Str): Str
    decreases |parts|
  {
    if |parts| == 0 then ""
    else if |parts| == 1 then parts[0]
    else parts[0] + sep + Join(parts[1..], sep)
  }

  /** No field produced by `split(sep)` contains the separator. */
  lemma {:induction false} SplitFieldsLackSeparator(s: Str, sep: char)
    ensures forall i :: 0 <= i < |Split(s, sep)| ==> sep !in Split(s, sep)[i]
    decreases |s|
  {
    if |s| > 0 {
      SplitFieldsLackSeparator(s[1..], sep);
      var rest := Split(s[1..], sep);
      if s[0] != sep {
        assert forall i :: 1 <= i < |Split(s, sep)| ==> Split(s, sep)[i] == rest[i];
      }
    }
  }

  /** Joining the fields of `split(sep)` with `sep` gives back the original string. */
  lemma {:induction false} JoinSplit(s: Str, sep: char)
    ensures Join(Split(s, sep), [sep]) == s
    decreases |s|
  {
    if |s| > 0 {
      var rest := Split(s[1..], sep);
      JoinSplit(s[1..], sep);
      if s[0] == sep {
        assert Split(s, sep) == [""] + rest;
        assert Split(s, sep)[1..] == rest;
      } else {
        var parts := Split(s, sep);
        assert parts[1..] == rest[1..];
        if |rest| == 1 {
          assert rest[0] == s[1..];
          assert [s[0]] + s[1..] == s;
        } else {
          assert Join(rest, [sep]) == rest[0] + [sep] + Join(rest[1..], [sep]);
          assert Join(parts, [sep]) == [s[0]] + rest[0] + [sep] + Join(rest[1..], [sep]);
          assert [s[0]] + s[1..] == s;
        }
      }
    }
  }

  /** Joining with a separator char: the only occurrences of a char absent from all parts are separators. */
  lemma {:induction false} JoinLacks(parts: seq<Str>, sep: Str, c: char)
    requires c !in sep
    requires forall i :: 0 <= i < |parts| ==> c !in parts[i]
    ensures c !in Join(parts, sep)
    decreases |parts|
  {
    if |parts| > 1 {
      JoinLacks(parts[1..], sep, c);
    }
  }

  /** `xs[-k:]`: the last `k` elements (of a string or a list), or all of `xs` when it is shorter. */
  function Last<T>(xs: seq<T>, k: nat): (r: seq<T>)
    ensures |r| == if |xs| < k then |xs| else k
    ensures forall i :: 0 <= i < |r| ==> r[i] == xs[|xs| - |r| + i]
  {
    if |xs| <= k then xs else xs[|xs| - k..]
  }

  /**
   * The characters Python's `str.split()` and `str.isspace()` treat as whitespace:
   * the ASCII controls 0x09-0x0D and 0x1C-0x1F, the space, and the Unicode separators
   * U+0085, U+00A0, U+1680, U+2000-U+200A, U+2028, U+2029, U+202F, U+205F and U+3000.
   */
  predicate IsSpace(c: char) {
    || c == ' '
    || ('\t' <= c <= '\r')
    || ('\U{1C}' <= c <= '\U{1F}')
    || c == '\U{85}' || c == '\U{A0}' || c == '\U{1680}'
    || ('\U{2000}' <= c <= '\U{200A}')
    || c == '\U{2028}' || c == '\U{2029}' || c == '\U{202F}' || c == '\U{205F}' || c == '\U{3000}'
  }

  /** The leading run of non-whitespace characters of `s`. */
  function LeadingWord(s: Str): (w: Str)
    ensures |w| <= |s| && w == s[..|w|]
    ensures forall i :: 0 <= i < |w| ==> !IsSpace(w[i])
    ensures |w| < |s| ==> IsSpace(s[|w|])
    decreases |s|
  {
    if |s| == 0 || IsSpace(s[0]) then "" else [s[0]] + LeadingWord(s[1..])
  }

  /** `s.split()`: the maximal runs of non-whitespace characters, in order. */
  function Words(s: Str): seq<Str>
    decreases |s|
  {
    if |s| == 0 then []
    else if IsSpace(s[0]) then Words(s[1..])
    else
      var w := LeadingWord(s);
      [w] + Words(s[|w|..])
  }

  /** `s` with all whitespace removed. */
  function Squeeze(s: Str): Str
    decreases |s|
  {
    if |s| == 0 then "" else (if IsSpace(s[0]) then "" else [s[0]]) + Squeeze(s[1..])
  }

  /** Concatenation of a list of strings. */
  function Concat(parts: seq<Str>): Str
    decreases |parts|
  {
    if |parts| == 0 then "" else parts[0] + Concat(parts[1..])
  }

  lemma {:induction false} SqueezeAppend(a: Str, b: Str)
    ensures Squeeze(a + b) == Squeeze(a) + Squeeze(b)
    decreases |a|
  {
    if |a| > 0 {
      assert (a + b)[1..] == a[1..] + b;
      SqueezeAppend(a[1..], b);
    } else {
      assert a + b == b;
    }
  }

  lemma {:induction false} SqueezeWord(w: Str)
    requires forall i :: 0 <= i < |w| ==> !IsSpace(w[i])
    ensures Squeeze(w) == w
    decreases |w|
  {
    if |w| > 0 {
      SqueezeWord(w[1..]);
      assert [w[0]] + w[1..] == w;
    }
  }

  /**
   * The words of `s.split()` are non-empty, hold no whitespace, and together
   * hold exactly the non-whitespace characters of `s`, in order.
   */
  lemma {:induction false} WordsSound(s: Str)
    ensures forall i :: 0 <= i < |Words(s)| ==> |Words(s)[i]| > 0
    ensures forall i, j :: 0 <= i < |Words(s)| && 0 <= j < |Words(s)[i]| ==> !IsSpace(Words(s)[i][j])
    ensures Concat(Words(s)) == Squeeze(s)
    decreases |s|
  {
    if |s| > 0 {
      if IsSpace(s[0]) {
        WordsSound(s[1..]);
      } else {
        var w := LeadingWord(s);
        WordsSound(s[|w|..]);
        assert Words(s) == [w] + Words(s[|w|..]);
        assert Words(s)[1..] == Words(s[|w|..]);
        assert s == w + s[|w|..];
        SqueezeAppend(w, s[|w|..]);
        SqueezeWord(w);
      }
    }
  }

  /** `s` without the characters of `drop` (`str.translate` with a deletion table). */
  function RemoveChars(s: Str, drop: set<char>): (r: Str)
    ensures forall i :: 0 <= i < |r| ==> r[i] !in drop
    ensures |r| <= |s|
    decreases |s|
  {
    if |s| == 0 then ""
    else (if s[0] in drop then "" else [s[0]]) + RemoveChars(s[1..], drop)
  }

  /** Removing characters keeps every other character, in order (the kept ones form a subsequence). */
  lemma {:induction false} RemoveCharsKeeps(s: Str, drop: set<char>)
    requires forall i :: 0 <= i < |s| ==> s[i] !in drop
    ensures RemoveChars(s, drop) == s
    decreases |s|
  {
    if |s| > 0 {
      RemoveCharsKeeps(s[1..], drop);
      assert [s[0]] + s[1..] == s;
    }
  }

  /**
   * Splitting on a separator and joining the fields with `rep` is the same as
   * replacing every separator by `rep`.
   */
  lemma {:induction false} JoinSplitIsReplace(s: Str, sep: char, rep: Str)
    ensures Join(Split(s, sep), rep) == Replace(s, [sep], rep)
    decreases |s|
  {
    if |s| > 0 {
      var rest := Split(s[1..], sep);
      JoinSplitIsReplace(s[1..], sep, rep);
      assert s[..1] == [s[0]];
      if s[0] == sep {
        assert Split(s, sep)[1..] == rest;
      } else {
        var parts := Split(s, sep);
        assert parts[1..] == rest[1..];
        if |rest| > 1 {
          assert Join(rest, rep) == rest[0] + rep + Join(rest[1..], rep);
        }
      }
    }
  }
}

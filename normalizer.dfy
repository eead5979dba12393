/**
 * Token normalisation of attraction-type tags (recommender) and of free-text
 * search phrases (Python attraction service). Part-of-speech tagging (nltk)
 * and singularisation (inflect) are uninterpreted and arrive as a `Tagger`.
 */
module Normalizer {
  import opened Wrappers
  import opened Text

  /**
   * `isNoun(tokens, i)`: nltk tags token `i` of the sentence `tokens` as NN,
   * NNS, NNP or NNPS. `singular(w)`: inflect's `singular_noun`, which yields
   * `False` (here `None`) when it has no singular form for `w`.
   */
  datatype Tagger = Tagger(isNoun: (seq<Str>, nat) -> bool, singular: Str -> Option<Str>)

  /** Python's `if singular:` — a result that is `False` or the empty string is not used. */
  predicate HasSingular(tagger: Tagger, w: Str) {
    tagger.singular(w).Some? && tagger.singular(w).value != ""
  }

  const BeerGardenSuffix: Str := " beer garden"

  /**
   * Token `i` after normalisation: nouns with a singular form are replaced by
   * it; when `expandBiergarten` holds a singular "biergarten" also gains the
   * suffix " beer garden"; everything else passes through unchanged.
   */
  function NormalizeToken(tagger: Tagger, tokens: seq<Str>, i: nat, expandBiergarten: bool): (r: Str)
    requires i < |tokens|
    ensures !tagger.isNoun(tokens, i) ==> r == tokens[i]
    ensures !HasSingular(tagger, tokens[i]) ==> r == tokens[i]
    ensures tagger.isNoun(tokens, i) && HasSingular(tagger, tokens[i]) ==>
              StartsWith(r, tagger.singular(tokens[i]).value)
    ensures r != tokens[i] ==> tagger.isNoun(tokens, i) && HasSingular(tagger, tokens[i])
    ensures tagger.isNoun(tokens, i) && HasSingular(tagger, tokens[i]) ==>
              r == tagger.singular(tokens[i]).value +
                   (if expandBiergarten && tagger.singular(tokens[i]).value == "biergarten" then BeerGardenSuffix else "")
  {
    if tagger.isNoun(tokens, i) && HasSingular(tagger, tokens[i]) then
      var s := tagger.singular(tokens[i]).value;
      if expandBiergarten && s == "biergarten" then s + BeerGardenSuffix else s
    else tokens[i]
  }

  /** Every token of the sentence normalised in place. */
  function NormalizeTokens(tagger: Tagger, tokens: seq<Str>, expandBiergarten: bool): (r: seq<Str>)
    ensures |r| == |tokens|
    ensures forall i :: 0 <= i < |tokens| ==> r[i] == NormalizeToken(tagger, tokens, i, expandBiergarten)
  {
    seq(|tokens|, i requires 0 <= i < |tokens| => NormalizeToken(tagger, tokens, i, expandBiergarten))
  }

  /**
   * The fixed corrections applied to an attraction type before it is
   * tokenised: anything mentioning "nature_reserves" collapses to exactly that
   * tag, and the misspelling "accomodation" is rewritten.
   */
  function PrepareType(t: Str): (r: Str)
    ensures Contains(t, "nature_reserves") ==> r == "nature_reserves"
    ensures !Contains(r, "accomodation")
  {
    var t' := if Contains(t, "nature_reserves") then "nature_reserves" else t;
    CollapsedTagClean();
    ReplaceAbsent("nature_reserves", "accomodation", "accommodation");
    MisspellingUnmixable();
    ReplaceRemoves(t', "accomodation", "accommodation");
    Replace(t', "accomodation", "accommodation")
  }

  /** Writing "accommodation" can never spell "accomodation" anew. */
  lemma MisspellingUnmixable()
    ensures Unmixable("accomodation", "accommodation")
  {
    var pat: Str := "accomodation";
    var rep: Str := "accommodation";
    forall i | 0 <= i < |rep| ensures !Agree(rep[i..], pat) {
      if i == 0 {
        assert rep[i..][5] != pat[5];
      } else if i == 8 {
        assert rep[i..][1] != pat[1];
      } else {
        assert rep[i..][0] != pat[0];
      }
    }
    forall k | 1 <= k < |pat| ensures !Agree(rep, pat[k..]) {
      if k == 7 {
        assert rep[1] != pat[k..][1];
      } else {
        assert rep[0] != pat[k..][0];
      }
    }
  }

  /** A type that begins with the misspelling has it rewritten in place. */
  lemma {:induction false} PrepareTypeFixesSpelling(v: Str)
    requires !Contains("accomodation" + v, "nature_reserves")
    ensures PrepareType("accomodation" + v) == "accommodation" + Replace(v, "accomodation", "accommodation")
  {
    var t: Str := "accomodation" + v;
    assert t[..12] == "accomodation";
    assert t[12..] == v;
  }

  /** The collapsed tag holds no misspelling to rewrite. */
  lemma CollapsedTagClean()
    ensures !Contains("nature_reserves", "accomodation")
  {
    var s: Str := "nature_reserves";
    forall i | 0 <= i <= |s| ensures !StartsWith(s[i..], "accomodation") {
      if i < 4 {
        assert s[i..][1] != 'c';
      }
    }
    NoMatchNoContains(s, "accomodation");
  }

  /** `proc_attraction_type`: corrections, split on `_`, normalise tokens, join with spaces. */
  function NormalizeType(tagger: Tagger, t: Str): Str {
    Join(NormalizeTokens(tagger, Split(PrepareType(t), '_'), true), " ")
  }

  /** `proc_attraction_type`, as the source runs it: a loop that appends normalised tokens. */
  method ProcAttractionType(tagger: Tagger, t: Str) returns (r: Str)
    ensures r == NormalizeType(tagger, t)
  {
    var s := t;
    if Contains(s, "nature_reserves") {
      s := "nature_reserves";
    }
    s := Replace(s, "accomodation", "accommodation");
    assert s == PrepareType(t);
    var tokens := Split(s, '_');
    var resTokens: seq<Str> := [];
    var i := 0;
    while i < |tokens|
      invariant 0 <= i <= |tokens|
      invariant resTokens == NormalizeTokens(tagger, tokens, true)[..i]
    {
      var token := tokens[i];
      if tagger.isNoun(tokens, i) {
        var singular := tagger.singular(token);
        if singular.Some? && singular.value != "" {
          var w := singular.value;
          if w == "biergarten" {
            w := w + " beer garden";
          }
          resTokens := resTokens + [w];
        } else {
          resTokens := resTokens + [token];
        }
      } else {
        resTokens := resTokens + [token];
      }
      i := i + 1;
    }
    assert resTokens == NormalizeTokens(tagger, tokens, true);
    r := Join(resTokens, " ");
  }

  /** `proc_attraction_types`: each type normalised, in order. */
  method ProcAttractionTypes(tagger: Tagger, types: seq<Str>) returns (res: seq<Str>)
    ensures |res| == |types|
    ensures forall i :: 0 <= i < |types| ==> res[i] == NormalizeType(tagger, types[i])
  {
    ghost var expected := seq(|types|, k requires 0 <= k < |types| => NormalizeType(tagger, types[k]));
    res := [];
    var i := 0;
    while i < |types|
      invariant 0 <= i <= |types| && |res| == i
      invariant forall k :: 0 <= k < i ==> res[k] == expected[k]
    {
      var n := ProcAttractionType(tagger, types[i]);
      res := res + [n];
      i := i + 1;
    }
  }

  /** Every type mentioning "nature_reserves" normalises to the same tag. */
  lemma NatureReservesCollapse(tagger: Tagger, t: Str)
    requires Contains(t, "nature_reserves")
    ensures NormalizeType(tagger, t) == NormalizeType(tagger, "nature_reserves")
  {
  }

  /** A type free of both corrections reaches the tokeniser unchanged. */
  lemma PrepareTypeUntouched(t: Str)
    requires !Contains(t, "nature_reserves") && !Contains(t, "accomodation")
    ensures PrepareType(t) == t
  {
    ReplaceAbsent(t, "accomodation", "accommodation");
  }

  /**
   * When no token is a noun with a singular form, normalisation only turns the
   * underscores of the corrected type into spaces.
   */
  lemma NoNounsMeansUnderscoresToSpaces(tagger: Tagger, t: Str)
    requires forall i :: 0 <= i < |Split(PrepareType(t), '_')| ==>
               !tagger.isNoun(Split(PrepareType(t), '_'), i)
    ensures NormalizeType(tagger, t) == Replace(PrepareType(t), "_", " ")
  {
    var tokens := Split(PrepareType(t), '_');
    assert NormalizeTokens(tagger, tokens, true) == tokens;
    JoinSplitIsReplace(PrepareType(t), '_', " ");
  }

  /** Python's `string.punctuation`. */
  const Punctuation: set<char> := set c | c in "!\"#$%&'()*+,-./:;<=>?@[\\]^_`{|}~"

  /** The search phrase before tagging: `_` becomes a space, punctuation is deleted. */
  function CleanQuery(q: Str): Str {
    RemoveChars(Replace(q, "_", " "), Punctuation)
  }

  /** `proc_usr_query`: clean, split on whitespace, normalise tokens, join with spaces. */
  function NormalizeQuery(tagger: Tagger, q: Str): Str {
    Join(NormalizeTokens(tagger, Words(CleanQuery(q)), false), " ")
  }

  /** `proc_usr_query`, as the source runs it: a loop that appends normalised tokens. */
  method ProcUsrQuery(tagger: Tagger, q: Str) returns (r: Str)
    ensures r == NormalizeQuery(tagger, q)
  {
    var tokens := Words(RemoveChars(Replace(q, "_", " "), Punctuation));
    var resTokens: seq<Str> := [];
    var i := 0;
    while i < |tokens|
      invariant 0 <= i <= |tokens|
      invariant resTokens == NormalizeTokens(tagger, tokens, false)[..i]
    {
      var token := tokens[i];
      if tagger.isNoun(tokens, i) {
        var singular := tagger.singular(token);
        if singular.Some? && singular.value != "" {
          resTokens := resTokens + [singular.value];
        } else {
          resTokens := resTokens + [token];
        }
      } else {
        resTokens := resTokens + [token];
      }
      i := i + 1;
    }
    assert resTokens == NormalizeTokens(tagger, tokens, false);
    r := Join(resTokens, " ");
  }

  lemma {:induction false} WordsAvoid(s: Str, bad: set<char>)
    requires forall i :: 0 <= i < |s| ==> s[i] !in bad
    ensures forall i, j :: 0 <= i < |Words(s)| && 0 <= j < |Words(s)[i]| ==> Words(s)[i][j] !in bad
    decreases |s|
  {
    if |s| > 0 {
      if IsSpace(s[0]) {
        WordsAvoid(s[1..], bad);
      } else {
        var w := LeadingWord(s);
        WordsAvoid(s[|w|..], bad);
        assert Words(s)[1..] == Words(s[|w|..]);
      }
    }
  }

  /**
   * The tokens handed to the tagger are non-empty, hold no whitespace, no
   * punctuation and hence no underscore, and together spell out the cleaned
   * phrase without its whitespace.
   */
  lemma QueryTokensClean(q: Str)
    ensures forall i :: 0 <= i < |Words(CleanQuery(q))| ==> |Words(CleanQuery(q))[i]| > 0
    ensures forall i, j :: 0 <= i < |Words(CleanQuery(q))| && 0 <= j < |Words(CleanQuery(q))[i]| ==>
              !IsSpace(Words(CleanQuery(q))[i][j]) && Words(CleanQuery(q))[i][j] !in Punctuation
    ensures Concat(Words(CleanQuery(q))) == Squeeze(CleanQuery(q))
  {
    WordsSound(CleanQuery(q));
    WordsAvoid(CleanQuery(q), Punctuation);
  }

  /** A phrase whose tokens are all non-nouns comes back as its tokens joined by single spaces. */
  lemma QueryNonNounsPassThrough(tagger: Tagger, q: Str)
    requires forall i :: 0 <= i < |Words(CleanQuery(q))| ==> !tagger.isNoun(Words(CleanQuery(q)), i)
    ensures NormalizeQuery(tagger, q) == Join(Words(CleanQuery(q)), " ")
  {
    assert NormalizeTokens(tagger, Words(CleanQuery(q)), false) == Words(CleanQuery(q));
  }
}

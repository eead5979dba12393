/**
 * `search_by_histories`: a user's recent page views expanded into candidates
 * that are both content-similar to what was viewed and of the dominant
 * recent types or image labels.
 */
module HistoryExpander {
  import opened Wrappers
  import opened Text
  import opened Records
  import opened Sorting
  import opened Counting
  import Lists

  /** A hit of the ids search: its `_id` and the fields the index returns for it. */
  datatype HitFields = HitFields(
    id: Id,
    visSimilar: seq<Id>,
    descSimilar: Option<seq<Id>>,
    types: seq<Str>,
    labels: Option<seq<Str>>)

  /**
   * The three index searches of the expansion: by ids (the viewed
   * attractions), and by a disjunction of phrase matches on types or on
   * labels (each capped at 200 hits), the last two giving the hit ids.
   */
  datatype HistoryIndex = HistoryIndex(
    byIds: seq<Id> -> seq<HitFields>,
    byTypes: seq<Str> -> seq<Id>,
    byLabels: seq<Str> -> seq<Id>)

  /** An `ids` query returns only documents whose id it asked for, each at most once. */
  ghost predicate IndexValid(index: HistoryIndex) {
    && (forall ids, i :: 0 <= i < |index.byIds(ids)| ==> index.byIds(ids)[i].id in ids)
    && (forall ids :: |index.byIds(ids)| <= |ids|)
  }

  const SeedCount: nat := 5
  const TopCount: nat := 15
  /** The generic type that carries no signal. */
  const Filler: Str := "interesting place"

  /** Rows rank by last visit, then by visit count, both descending. */
  const RowKey: HistoryRow<int> -> Key := (row: HistoryRow<int>) => (row.lastVisit, row.cnt)

  /** `history[:5]` after the sort. */
  function RecentRows(history: seq<HistoryRow<int>>): seq<HistoryRow<int>> {
    Take(SortDesc(history, RowKey), SeedCount)
  }

  function Ids(rows: seq<HistoryRow<int>>): (r: seq<Id>)
    ensures |r| == |rows| && forall i :: 0 <= i < |rows| ==> r[i] == rows[i].attractionId
  {
    seq(|rows|, i requires 0 <= i < |rows| => rows[i].attractionId)
  }

  /**
   * The seed rows: at most five, all of them when there are no more than
   * five, in ranking order, and no row left out ranks above a chosen one.
   */
  lemma RecentRowsSpec(history: seq<HistoryRow<int>>)
    ensures |RecentRows(history)| == Lists.Min(SeedCount, |history|)
    ensures multiset(RecentRows(history)) <= multiset(history)
    ensures |history| <= SeedCount ==> multiset(RecentRows(history)) == multiset(history)
    ensures SortedDesc(RecentRows(history), RowKey)
    ensures forall row, i ::
              (row in multiset(history) - multiset(RecentRows(history)) && 0 <= i < |RecentRows(history)|) ==>
              !Outranks(RowKey(row), RowKey(RecentRows(history)[i]))
  {
    var sorted := SortDesc(history, RowKey);
    SortDescCorrect(history, RowKey);
    TakeSortedIsTop(sorted, RowKey, SeedCount);
    var top := RecentRows(history);
    assert sorted == top + sorted[|top|..];
    assert multiset(sorted) == multiset(top) + multiset(sorted[|top|..]);
  }

  /** The union of `visSimilar` and `descSimilar` over the hits. */
  function SimilarIds(hits: seq<HitFields>): set<Id>
    decreases |hits|
  {
    if hits == [] then {}
    else
      var h := hits[|hits| - 1];
      SimilarIds(hits[..|hits| - 1]) + (set x | x in h.visSimilar) +
      (set x | x in h.descSimilar.GetOr([]))
  }

  /** An id is similarity-expanded exactly when some hit lists it as visually or description-similar. */
  lemma {:induction false} SimilarIdsMembership(hits: seq<HitFields>, id: Id)
    ensures id in SimilarIds(hits) <==>
              exists i :: 0 <= i < |hits| && (id in hits[i].visSimilar || id in hits[i].descSimilar.GetOr([]))
    decreases |hits|
  {
    if hits != [] {
      var n := |hits| - 1;
      SimilarIdsMembership(hits[..n], id);
      if id in SimilarIds(hits[..n]) {
        var i :| 0 <= i < n && (id in hits[..n][i].visSimilar || id in hits[..n][i].descSimilar.GetOr([]));
        assert hits[i] == hits[..n][i];
      }
      if exists i :: 0 <= i < |hits| && (id in hits[i].visSimilar || id in hits[i].descSimilar.GetOr([])) {
        var i :| 0 <= i < |hits| && (id in hits[i].visSimilar || id in hits[i].descSimilar.GetOr([]));
        if i < n {
          assert hits[..n][i] == hits[i];
        }
      }
    }
  }

  /** `type_cntr` after updating with every hit's `attractionTypeP`. */
  function TypeCounter(hits: seq<HitFields>): Counter
    decreases |hits|
  {
    if hits == [] then Empty else AddAll(TypeCounter(hits[..|hits| - 1]), hits[|hits| - 1].types)
  }

  /** `label_cntr` after updating with every hit's `rekognitionLabels` (empty when missing). */
  function LabelCounter(hits: seq<HitFields>): Counter
    decreases |hits|
  {
    if hits == [] then Empty
    else AddAll(LabelCounter(hits[..|hits| - 1]), hits[|hits| - 1].labels.GetOr([]))
  }

  /** Number of times `k` occurs among the hits' types. */
  function TypeOccurrences(hits: seq<HitFields>, k: Str): nat
    decreases |hits|
  {
    if hits == [] then 0
    else TypeOccurrences(hits[..|hits| - 1], k) + Occurrences(hits[|hits| - 1].types, k)
  }

  /** The type counter is well formed and counts every occurrence of every type. */
  lemma {:induction false} TypeCounterCounts(hits: seq<HitFields>)
    ensures Valid(TypeCounter(hits))
    ensures forall k :: Count(TypeCounter(hits), k) == TypeOccurrences(hits, k)
    decreases |hits|
  {
    if hits != [] {
      TypeCounterCounts(hits[..|hits| - 1]);
      AddAllCounts(TypeCounter(hits[..|hits| - 1]), hits[|hits| - 1].types);
    }
  }

  /** Occurrences of label `k` in the hits' label lists (a hit without labels has none). */
  function LabelOccurrences(hits: seq<HitFields>, k: Str): nat
    decreases |hits|
  {
    if hits == [] then 0
    else LabelOccurrences(hits[..|hits| - 1], k) + Occurrences(hits[|hits| - 1].labels.GetOr([]), k)
  }

  /** The label counter is well formed and counts every occurrence of every label. */
  lemma {:induction false} LabelCounterCounts(hits: seq<HitFields>)
    ensures Valid(LabelCounter(hits))
    ensures forall k :: Count(LabelCounter(hits), k) == LabelOccurrences(hits, k)
    decreases |hits|
  {
    if hits != [] {
      LabelCounterCounts(hits[..|hits| - 1]);
      AddAllCounts(LabelCounter(hits[..|hits| - 1]), hits[|hits| - 1].labels.GetOr([]));
    }
  }

  /** `del type_cntr["interesting place"]`, then `most_common()[:15]`. */
  function TopTypes(hits: seq<HitFields>): seq<Str> {
    MostCommon(Delete(TypeCounter(hits), Filler), TopCount)
  }

  /** `label_cntr.most_common()[:15]`. */
  function TopLabels(hits: seq<HitFields>): seq<Str> {
    MostCommon(LabelCounter(hits), TopCount)
  }

  /**
   * At most 15 distinct types are chosen, never the filler type; each was
   * seen among the hits, no other type was seen more often than a chosen one,
   * and every other type seen is chosen when fewer than 15 are: the list has
   * `min(15, number of distinct non-filler types seen)` entries.
   */
  lemma TopTypesSpec(hits: seq<HitFields>)
    ensures |TopTypes(hits)| <= TopCount
    ensures |TopTypes(hits)| < TopCount ==>
              forall k :: k != Filler && TypeOccurrences(hits, k) > 0 ==> k in TopTypes(hits)
    ensures Filler !in TopTypes(hits)
    ensures Lists.Distinct(TopTypes(hits))
    ensures forall i :: 0 <= i < |TopTypes(hits)| ==> TypeOccurrences(hits, TopTypes(hits)[i]) > 0
    ensures forall i, k :: 0 <= i < |TopTypes(hits)| && k != Filler && k !in TopTypes(hits) ==>
              TypeOccurrences(hits, k) <= TypeOccurrences(hits, TopTypes(hits)[i])
  {
    var c := TypeCounter(hits);
    TypeCounterCounts(hits);
    DeleteForgets(c, Filler);
    var d := Delete(c, Filler);
    MostCommonTop(d, TopCount);
    forall i | 0 <= i < |TopTypes(hits)| ensures TypeOccurrences(hits, TopTypes(hits)[i]) > 0 {
      assert TopTypes(hits)[i] in d.keys;
      assert TopTypes(hits)[i] != Filler;
    }
    forall i, k | 0 <= i < |TopTypes(hits)| && k != Filler && k !in TopTypes(hits)
      ensures TypeOccurrences(hits, k) <= TypeOccurrences(hits, TopTypes(hits)[i])
    {
      if k !in d.keys {
        assert Count(d, k) == 0;
      }
    }
    if |TopTypes(hits)| < TopCount {
      forall k | k != Filler && TypeOccurrences(hits, k) > 0 ensures k in TopTypes(hits) {
        assert Count(d, k) > 0;
      }
    }
  }

  /**
   * At most 15 distinct labels are chosen, each seen among the hits; no other
   * label was seen more often than a chosen one, and every label seen is
   * chosen when fewer than 15 are.
   */
  lemma TopLabelsSpec(hits: seq<HitFields>)
    ensures |TopLabels(hits)| <= TopCount
    ensures Lists.Distinct(TopLabels(hits))
    ensures forall i :: 0 <= i < |TopLabels(hits)| ==> LabelOccurrences(hits, TopLabels(hits)[i]) > 0
    ensures forall i, k :: 0 <= i < |TopLabels(hits)| && k !in TopLabels(hits) ==>
              LabelOccurrences(hits, k) <= LabelOccurrences(hits, TopLabels(hits)[i])
    ensures |TopLabels(hits)| < TopCount ==>
              forall k :: LabelOccurrences(hits, k) > 0 ==> k in TopLabels(hits)
  {
    var c := LabelCounter(hits);
    LabelCounterCounts(hits);
    MostCommonTop(c, TopCount);
    forall i | 0 <= i < |TopLabels(hits)| ensures LabelOccurrences(hits, TopLabels(hits)[i]) > 0 {
      assert TopLabels(hits)[i] in c.keys;
    }
    forall i, k | 0 <= i < |TopLabels(hits)| && k !in TopLabels(hits)
      ensures LabelOccurrences(hits, k) <= LabelOccurrences(hits, TopLabels(hits)[i])
    {
      if k !in c.keys {
        assert Count(c, k) == 0;
      }
    }
    if |TopLabels(hits)| < TopCount {
      forall k | LabelOccurrences(hits, k) > 0 ensures k in TopLabels(hits) {
        assert Count(c, k) > 0;
      }
    }
  }

  /** The hits of the seed search for a history. */
  function SeedHits(index: HistoryIndex, history: seq<HistoryRow<int>>): seq<HitFields> {
    index.byIds(Ids(RecentRows(history)))
  }

  /** The ids of the type search and of the label search, together. */
  function TypeOrLabelIds(index: HistoryIndex, hits: seq<HitFields>): set<Id> {
    (set x | x in index.byTypes(TopTypes(hits))) + (set x | x in index.byLabels(TopLabels(hits)))
  }

  /** The history candidates of one user: `relevant_ids & (relevant_ids2 | relevant_ids3)`. */
  function Candidates(index: HistoryIndex, history: seq<HistoryRow<int>>): set<Id> {
    var hits := SeedHits(index, history);
    SimilarIds(hits) * TypeOrLabelIds(index, hits)
  }

  /**
   * A history candidate is exactly an id that some seed hit lists as similar
   * and that the type search or the label search returned.
   */
  lemma CandidatesSpec(index: HistoryIndex, history: seq<HistoryRow<int>>, id: Id)
    ensures var hits := SeedHits(index, history);
            id in Candidates(index, history) <==>
              (exists i :: 0 <= i < |hits| && (id in hits[i].visSimilar || id in hits[i].descSimilar.GetOr([])))
              && (id in index.byTypes(TopTypes(hits)) || id in index.byLabels(TopLabels(hits)))
  {
    SimilarIdsMembership(SeedHits(index, history), id);
  }

  /** A user with no history has no history candidates. */
  lemma NoHistoryNoCandidates(index: HistoryIndex)
    requires IndexValid(index)
    ensures Candidates(index, []) == {}
  {
    var hits := SeedHits(index, []);
    assert SortDesc([], RowKey) == [];
    assert Ids(RecentRows([])) == [];
    assert |hits| <= |Ids(RecentRows([]))|;
    assert SimilarIds(hits) == {};
  }

  /** One user's expansion, as the source runs it: a loop over the seed hits. */
  method SearchByHistory(index: HistoryIndex, history: seq<HistoryRow<int>>) returns (relevant: set<Id>)
    ensures relevant == Candidates(index, history)
  {
    var sorted := SortDesc(history, RowKey);
    var historyIds := Ids(Take(sorted, SeedCount));
    var hits := index.byIds(historyIds);
    relevant := {};
    var typeCntr := Empty;
    var labelCntr := Empty;
    var i := 0;
    while i < |hits|
      invariant 0 <= i <= |hits|
      invariant relevant == SimilarIds(hits[..i])
      invariant typeCntr == TypeCounter(hits[..i])
      invariant labelCntr == LabelCounter(hits[..i])
    {
      var fields := hits[i];
      assert hits[..i + 1][..i] == hits[..i];
      relevant := relevant + (set x | x in fields.visSimilar);
      relevant := relevant + (set x | x in fields.descSimilar.GetOr([]));
      typeCntr := AddAll(typeCntr, fields.types);
      labelCntr := AddAll(labelCntr, fields.labels.GetOr([]));
      i := i + 1;
    }
    assert hits[..|hits|] == hits;
    typeCntr := Delete(typeCntr, Filler);
    var relevantTypes := MostCommon(typeCntr, TopCount);
    var relevantIds2 := set x | x in index.byTypes(relevantTypes);
    var relevantLabels := MostCommon(labelCntr, TopCount);
    var relevantIds3 := set x | x in index.byLabels(relevantLabels);
    relevant := relevant * (relevantIds2 + relevantIds3);
  }

  /** `search_by_histories`: one candidate set per user, in user order. */
  method SearchByHistories(index: HistoryIndex, historyOf: Str -> seq<HistoryRow<int>>, usrs: seq<Str>)
    returns (all: seq<set<Id>>)
    ensures |all| == |usrs|
    ensures forall i :: 0 <= i < |usrs| ==> all[i] == Candidates(index, historyOf(usrs[i]))
  {
    all := [];
    var i := 0;
    while i < |usrs|
      invariant 0 <= i <= |usrs| && |all| == i
      invariant forall j :: 0 <= j < i ==> all[j] == Candidates(index, historyOf(usrs[j]))
    {
      var ids := SearchByHistory(index, historyOf(usrs[i]));
      all := all + [ids];
      i := i + 1;
    }
  }
}

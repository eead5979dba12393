/**
 * Elasticsearch search bodies as tagged query trees; chiefly
 * `get_es_query_body_for_pref`, the query that turns a user profile into
 * preference candidates.
 */
module QueryBuilder {
  import opened Wrappers
  import opened Text
  import opened Records
  import opened Normalizer

  /** A leaf clause: `match_phrase`, `match`, or `wildcard` with its pattern. */
  datatype Clause = MatchPhrase(field: Str, text: Str) | Match(field: Str, text: Str) | Wildcard(field: Str, pattern: Str)

  /** A `bool` query: `should` holds leaf clauses, `must` holds nested `bool` queries. */
  datatype BoolQuery = Should(clauses: seq<Clause>) | Must(parts: seq<BoolQuery>)

  /**
   * A search body: page `size`, the optional inner query of the
   * `function_score` wrapper (its `random_score` seed is not modelled), the
   * requested `fields` and whether `_source` is returned.
   */
  datatype SearchBody = SearchBody(size: nat, query: Option<BoolQuery>, fields: seq<Str>, source: bool)

  const PrefPageSize: nat := 100

  /** One `match_phrase` on `address` per country, then one on `description` per country. */
  function LocationClauses(countries: seq<Str>): (r: seq<Clause>)
    ensures |r| == 2 * |countries|
    ensures forall i :: 0 <= i < |countries| ==>
              r[i] == MatchPhrase("address", countries[i]) &&
              r[|countries| + i] == MatchPhrase("description", countries[i])
  {
    seq(|countries|, i requires 0 <= i < |countries| => MatchPhrase("address", countries[i])) +
    seq(|countries|, i requires 0 <= i < |countries| => MatchPhrase("description", countries[i]))
  }

  /** Per type: a `match` on `attractionTypeP`, then `match_phrase` on `attractionName`, then on `descriptionP`. */
  function TypeClauses(types: seq<Str>): (r: seq<Clause>)
    ensures |r| == 3 * |types|
    ensures forall i :: 0 <= i < |types| ==>
              r[i] == Match("attractionTypeP", types[i]) &&
              r[|types| + i] == MatchPhrase("attractionName", types[i]) &&
              r[2 * |types| + i] == MatchPhrase("descriptionP", types[i])
  {
    seq(|types|, i requires 0 <= i < |types| => Match("attractionTypeP", types[i])) +
    seq(|types|, i requires 0 <= i < |types| => MatchPhrase("attractionName", types[i])) +
    seq(|types|, i requires 0 <= i < |types| => MatchPhrase("descriptionP", types[i]))
  }

  /** The profile's preferred types after normalisation. */
  function NormalizedTypes(tagger: Tagger, p: Profile): (r: seq<Str>)
    ensures |r| == |p.attractions|
    ensures forall i :: 0 <= i < |r| ==> r[i] == NormalizeType(tagger, p.attractions[i])
  {
    seq(|p.attractions|, i requires 0 <= i < |p.attractions| => NormalizeType(tagger, p.attractions[i]))
  }

  /** The preference query of a profile. */
  function PrefQuery(tagger: Tagger, p: Profile): SearchBody {
    var loc := LocationClauses(p.favCty);
    var typ := TypeClauses(NormalizedTypes(tagger, p));
    var inner :=
      if |loc| > 0 && |typ| > 0 then Some(Must([Should(loc), Should(typ)]))
      else if |loc| > 0 then Some(Should(loc))
      else if |typ| > 0 then Some(Should(typ))
      else None;
    SearchBody(PrefPageSize, inner, ["_id"], false)
  }

  /** The leaf clauses of a query, left to right. */
  function Leaves(q: BoolQuery): seq<Clause> {
    match q
    case Should(cs) => cs
    case Must(parts) => if |parts| == 2 then Leaves(parts[0]) + Leaves(parts[1]) else []
  }

  /**
   * The combination policy: both clause lists non-empty gives a `must` of two
   * `should`s (location, then type); exactly one non-empty gives a `should`
   * of that one; neither gives no inner query at all. In every case the page
   * size is 100 and only `_id` is requested.
   */
  lemma PrefQueryShape(tagger: Tagger, p: Profile)
    ensures PrefQuery(tagger, p).size == 100
    ensures PrefQuery(tagger, p).fields == ["_id"] && !PrefQuery(tagger, p).source
    ensures |p.favCty| > 0 && |p.attractions| > 0 <==>
              PrefQuery(tagger, p).query ==
              Some(Must([Should(LocationClauses(p.favCty)), Should(TypeClauses(NormalizedTypes(tagger, p)))]))
    ensures |p.favCty| > 0 && |p.attractions| == 0 <==>
              PrefQuery(tagger, p).query == Some(Should(LocationClauses(p.favCty))) && |p.favCty| > 0
    ensures |p.favCty| == 0 && |p.attractions| > 0 <==>
              PrefQuery(tagger, p).query == Some(Should(TypeClauses(NormalizedTypes(tagger, p)))) && |p.attractions| > 0
    ensures |p.favCty| == 0 && |p.attractions| == 0 <==> PrefQuery(tagger, p).query.None?
  {
  }

  /**
   * Whatever the combination, the filter holds exactly the location clauses
   * followed by the type clauses: 2 per country and 3 per preferred type.
   */
  lemma PrefQueryLeaves(tagger: Tagger, p: Profile)
    ensures var q := PrefQuery(tagger, p).query;
            (if q.Some? then Leaves(q.value) else []) ==
            LocationClauses(p.favCty) + TypeClauses(NormalizedTypes(tagger, p))
    ensures var q := PrefQuery(tagger, p).query;
            |if q.Some? then Leaves(q.value) else []| == 2 * |p.favCty| + 3 * |p.attractions|
  {
    var loc := LocationClauses(p.favCty);
    var typ := TypeClauses(NormalizedTypes(tagger, p));
    if |loc| == 0 { assert loc + typ == typ; }
    if |typ| == 0 { assert loc + typ == loc; }
  }
}

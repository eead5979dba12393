/**
 * The JavaScript attraction service: the same routes as the Python one, with
 * a raw-keyword search, ISO-8601 text stamps in the page history, and
 * restaurants defaulted to `[]` in the response instead of fetched.
 */
module AttractionJs {
  import opened Wrappers
  import opened Text
  import opened Records
  import opened QueryBuilder
  import opened AttractionService

  /** The fields the keyword search looks at; only the type is matched by a prefix wildcard. */
  const KeywordFields: set<Str> := {"attractionType", "attractionName", "address", "description"}
  const WildcardField: Str := "attractionType"

  /** The search body of a keyword: a prefix wildcard on the type, phrases on name, address and description. */
  function KeywordQuery(keyword: Str): (q: SearchBody)
    ensures q.size == KeywordPageSize && q.fields == ["_id"] && !q.source
    ensures q.query.Some? && q.query.value.Should? && |q.query.value.clauses| == 4
    ensures forall c :: c in q.query.value.clauses ==>
              if c.Wildcard? then c.pattern == keyword + "*" else c.MatchPhrase? && c.text == keyword
    ensures forall c :: c in q.query.value.clauses ==> (c.Wildcard? <==> c.field == WildcardField)
    ensures forall f :: f in KeywordFields <==> exists c :: c in q.query.value.clauses && c.field == f
  {
    SearchBody(KeywordPageSize, Some(Should([
      Wildcard("attractionType", keyword + "*"),
      MatchPhrase("attractionName", keyword),
      MatchPhrase("address", keyword),
      MatchPhrase("description", keyword)])), ["_id"], false)
  }

  /** The message of the error thrown for a route the handler does not serve. */
  function UnsupportedRoute(routeKey: Str): Str {
    "Unsupported route: \"" + routeKey + "\""
  }

  /**
   * `handler` at ISO time `t`. A search with no hits answers `[]` without a
   * fetch, otherwise the projected listing. An attraction page counts the
   * view in both tables and returns the record with a missing `restaurants`
   * shown as `[]`; an unknown attraction gives 404. Any other route throws,
   * which the handler answers with 400 and the error's message.
   */
  method Handle(tables: Tables<Str>, search: SearchBody -> seq<Id>, req: Request, t: Str) returns (resp: Response)
    modifies tables
    ensures req.routeKey == SearchRoute ==>
              && tables.attractions == old(tables.attractions) && tables.pageHistory == old(tables.pageHistory)
              && var hits := search(KeywordQuery(req.param));
                 resp == Response(200, Listing(if hits == [] then [] else SearchListing(tables.attractions, hits)))
    ensures req.routeKey == AttractionRoute && req.param !in old(tables.attractions) ==>
              && tables.attractions == old(tables.attractions) && tables.pageHistory == old(tables.pageHistory)
              && resp == Response(404, Failure(NotFoundMessage(req.param)))
    ensures req.routeKey == AttractionRoute && req.param in old(tables.attractions) ==>
              var stored := Viewed(old(tables.attractions)[req.param]);
              && tables.attractions == old(tables.attractions)[req.param := stored]
              && tables.pageHistory == Replay(old(tables.pageHistory), [PageView(req.param, req.username, t)])
              && resp == Response(200, Details(WithRestaurants(stored, [])))
    ensures req.routeKey != SearchRoute && req.routeKey != AttractionRoute ==>
              && tables.attractions == old(tables.attractions) && tables.pageHistory == old(tables.pageHistory)
              && resp == Response(400, Failure(UnsupportedRoute(req.routeKey)))
    ensures old(tables.Valid()) ==> tables.Valid()
  {
    if req.routeKey == SearchRoute {
      var hits := search(KeywordQuery(req.param));
      if |hits| == 0 {
        return Response(200, Listing([]));
      }
      resp := Response(200, Listing(SearchListing(tables.attractions, hits)));
    } else if req.routeKey == AttractionRoute {
      var body := tables.View(req.param, req.username, t);
      if body.None? {
        return Response(404, Failure(NotFoundMessage(req.param)));
      }
      var record := body.value;
      if record.restaurants.None? {
        record := record.(restaurants := Some([]));
      }
      resp := Response(200, Details(record));
    } else {
      resp := Response(400, Failure(UnsupportedRoute(req.routeKey)));
    }
  }

  /**
   * The record a page shows is complete and is the stored record with at
   * most `restaurants` filled in, and it is what the recommender's backfill
   * makes of the stored record.
   */
  lemma ShownRecord(a: Attraction)
    ensures Complete(WithRestaurants(Viewed(a), []))
    ensures WithRestaurants(Viewed(a), []) == Backfilled(Viewed(a))
    ensures WithRestaurants(Viewed(a), []).cnt == Some(a.cnt.GetOr(0) + 1)
  {
  }
}

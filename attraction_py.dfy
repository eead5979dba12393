/**
 * The Python attraction service: keyword search over normalised user
 * queries, attraction pages that count views and page history, and nearby
 * restaurants from Yelp for records that have none.
 */
module AttractionPy {
  import opened Wrappers
  import opened Text
  import opened Records
  import opened Normalizer
  import opened QueryBuilder
  import opened AttractionService

  /** The attributes of a Yelp business that are kept (the keys of the sample business). */
  const ExampleKeys: set<Str> := {"rating", "price", "phone", "id", "categories", "review_count", "name", "location"}

  const RestaurantTerm: Str := "restaurant"
  const SearchLimit: int := 5
  const SearchRadius: int := 40000

  const UnsupportedPath: Str := "Unsupported path!"

  /** The full-width comma of addresses written in Chinese. */
  const FullWidthComma: char := '\U{FF0C}'

  /** The query parameters of a Yelp business search. */
  datatype YelpParams = YelpParams(term: Str, location: Str, limit: int, radius: int)

  /** The services the handler calls: the keyword search, and Yelp (its `businesses`, possibly missing). */
  datatype Env = Env(search: SearchBody -> seq<Id>, yelp: YelpParams -> Option<seq<Business>>)

  /** Why `get_location_query` raises: an index past the parts of the address. */
  datatype LocationError = IndexOutOfRange

  /** A business with only the kept attributes. */
  function KeepExampleKeys(b: Business): (r: Business)
    ensures forall k :: k in r <==> k in b && k in ExampleKeys
    ensures forall k :: k in r ==> r[k] == b[k]
  {
    map k | k in b && k in ExampleKeys :: b[k]
  }

  /** The Yelp parameters of a search: spaces become `+`, five results within 40 km. */
  function RestaurantParams(term: Str, location: Str): (p: YelpParams)
    ensures p.limit == SearchLimit && p.radius == SearchRadius
    ensures ' ' !in p.term && ' ' !in p.location
    ensures |p.term| == |term| && forall k :: 0 <= k < |term| ==> p.term[k] == if term[k] == ' ' then '+' else term[k]
    ensures |p.location| == |location|
    ensures forall k :: 0 <= k < |location| ==> p.location[k] == if location[k] == ' ' then '+' else location[k]
  {
    ReplaceCharRemoves(term, ' ', "+");
    ReplaceCharRemoves(location, ' ', "+");
    ReplaceCharPointwise(term, ' ', '+');
    ReplaceCharPointwise(location, ' ', '+');
    YelpParams(Replace(term, " ", "+"), Replace(location, " ", "+"), SearchLimit, SearchRadius)
  }

  /** `search_restaurants`: the businesses Yelp finds (none when it sends none), each cut to the kept attributes. */
  method SearchRestaurants(yelp: YelpParams -> Option<seq<Business>>, term: Str, location: Str) returns (res: seq<Business>)
    ensures var found := yelp(RestaurantParams(term, location)).GetOr([]);
            && |res| == |found|
            && forall i :: 0 <= i < |res| ==> res[i] == KeepExampleKeys(found[i])
    ensures forall i :: 0 <= i < |res| ==> res[i].Keys <= ExampleKeys
  {
    res := yelp(RestaurantParams(term, location)).GetOr([]);
    ghost var found := res;
    var i := 0;
    while i < |res|
      invariant 0 <= i <= |res| && |res| == |found|
      invariant forall j :: 0 <= j < i ==> res[j] == KeepExampleKeys(found[j])
      invariant forall j :: i <= j < |res| ==> res[j] == found[j]
    {
      res := res[i := KeepExampleKeys(res[i])];
      i := i + 1;
    }
  }

  /** An address with full-width commas and `", "` turned into `,`. */
  function NormalizedAddress(addr: Str): Str {
    Replace(Replace(addr, [FullWidthComma], ","), ", ", ",")
  }

  /** The comma-separated parts of an address, after normalisation. */
  function AddressParts(addr: Str): (parts: seq<Str>)
    ensures |parts| >= 1
  {
    Split(NormalizedAddress(addr), ',')
  }

  /**
   * `get_location_query`: the Yelp location of an address. US addresses give
   * their second-to-last part; addresses that start with China give the
   * second part, the last six characters of the last part and the first part;
   * other Chinese and Vietnamese addresses give their last three parts, and
   * any other address its last two, joined by `+`. An index past the parts
   * raises.
   */
  function GetLocationQuery(addr: Str): Result<Str, LocationError> {
    var parts := AddressParts(addr);
    var n := |parts|;
    if Contains(addr, "USA") then
      if n >= 2 then Ok(parts[n - 2]) else Err(IndexOutOfRange)
    else if Contains(addr, "China") then
      if StartsWith(addr, "China") then
        if n >= 2 then Ok(Join([parts[1], Last(parts[n - 1], 6), parts[0]], "+")) else Err(IndexOutOfRange)
      else Ok(Join(Last(parts, 3), "+"))
    else if Contains(addr, "Vietnam") then Ok(Join(Last(parts, 3), "+"))
    else Ok(Join(Last(parts, 2), "+"))
  }

  /**
   * The lookup fails exactly for US addresses and addresses that start with
   * China that have a single part.
   */
  lemma LocationQueryFails(addr: Str)
    ensures GetLocationQuery(addr).Err? <==>
              |AddressParts(addr)| < 2 &&
              (Contains(addr, "USA") || (Contains(addr, "China") && StartsWith(addr, "China")))
  {
  }

  /** A location query never holds a comma: every part is a field between commas. */
  lemma LocationQueryCommaFree(addr: Str)
    requires GetLocationQuery(addr).Ok?
    ensures ',' !in GetLocationQuery(addr).value
  {
    var parts := AddressParts(addr);
    var n := |parts|;
    AddressPartsCommaFree(addr);
    if Contains(addr, "USA") {
      assert GetLocationQuery(addr).value == parts[n - 2];
    } else if Contains(addr, "China") && StartsWith(addr, "China") {
      var last := Last(parts[n - 1], 6);
      LastLacks(parts[n - 1], 6, ',');
      JoinLacks([parts[1], last, parts[0]], "+", ',');
      assert GetLocationQuery(addr).value == Join([parts[1], last, parts[0]], "+");
    } else {
      var k := if Contains(addr, "China") || Contains(addr, "Vietnam") then 3 else 2;
      JoinLacks(Last(parts, k), "+", ',');
      assert GetLocationQuery(addr).value == Join(Last(parts, k), "+");
    }
  }

  /** No part of an address holds a comma. */
  lemma AddressPartsCommaFree(addr: Str)
    ensures forall i :: 0 <= i < |AddressParts(addr)| ==> ',' !in AddressParts(addr)[i]
  {
    SplitFieldsLackSeparator(NormalizedAddress(addr), ',');
  }

  /**
   * An address with no more parts than its rule keeps (three for Chinese and
   * Vietnamese addresses, two for others) is its own location query once
   * normalised, with each comma turned into `+`.
   */
  lemma LocationQueryShortAddress(addr: Str)
    requires !Contains(addr, "USA") && !(Contains(addr, "China") && StartsWith(addr, "China"))
    requires |AddressParts(addr)| <= (if Contains(addr, "China") || Contains(addr, "Vietnam") then 3 else 2)
    ensures GetLocationQuery(addr) == Ok(Replace(NormalizedAddress(addr), ",", "+"))
  {
    var parts := AddressParts(addr);
    var k := if Contains(addr, "China") || Contains(addr, "Vietnam") then 3 else 2;
    assert Last(parts, k) == parts;
    JoinSplitIsReplace(NormalizedAddress(addr), ',', "+");
  }

  /** A suffix lacks what the string lacks. */
  lemma LastLacks(s: Str, k: nat, c: char)
    requires c !in s
    ensures c !in Last(s, k)
  {
    var r := Last(s, k);
    forall i | 0 <= i < |r| ensures r[i] != c {
      assert r[i] == s[|s| - |r| + i];
    }
  }

  /** An address without commas that is not a US or China-first address is its own location query. */
  lemma {:induction false} LocationQueryOnePart(addr: Str)
    requires ',' !in addr && FullWidthComma !in addr
    requires !Contains(addr, "USA") && !(Contains(addr, "China") && StartsWith(addr, "China"))
    ensures GetLocationQuery(addr) == Ok(addr)
  {
    NoCharNoContains(addr, FullWidthComma, "");
    assert [FullWidthComma] + "" == [FullWidthComma];
    ReplaceAbsent(addr, [FullWidthComma], ",");
    NoCharNoContains(addr, ',', " ");
    assert [','] + " " == ", ";
    ReplaceAbsent(addr, ", ", ",");
    SplitLacking(addr, ',');
    assert AddressParts(addr) == [addr];
  }

  /** A string without `c` contains no pattern that starts with `c`. */
  lemma {:induction false} NoCharNoContains(s: Str, c: char, rest: Str)
    requires c !in s
    ensures !Contains(s, [c] + rest)
    decreases |s|
  {
    if s != [] {
      var p := [c] + rest;
      assert s[0] in s;
      assert |p| <= |s| ==> s[..|p|][0] != p[0];
      NoCharNoContains(s[1..], c, rest);
    }
  }

  /** A string without the separator splits into itself alone. */
  lemma {:induction false} SplitLacking(s: Str, sep: char)
    requires sep !in s
    ensures Split(s, sep) == [s]
    decreases |s|
  {
    if s != [] {
      assert s[0] in s;
      SplitLacking(s[1..], sep);
      assert [s[0]] + s[1..] == s;
    }
  }

  /** The fields a keyword search matches; only the name and the address see the keyword as typed. */
  const KeywordFields: set<Str> := {"attractionTypeP", "attractionName", "address", "descriptionP", "rekognitionLabels"}
  const RawKeywordFields: set<Str> := {"attractionName", "address"}

  /** The search body of a keyword: the normalised query on the processed fields, the raw one on name and address. */
  function KeywordQuery(keyword: Str, normalized: Str): (q: SearchBody)
    ensures q.size == KeywordPageSize && q.fields == ["_id"] && !q.source
    ensures q.query.Some? && q.query.value.Should? && |q.query.value.clauses| == 5
    ensures forall c :: c in q.query.value.clauses ==>
              && c.MatchPhrase?
              && c.text == if c.field in RawKeywordFields then keyword else normalized
    ensures forall f :: f in KeywordFields <==> exists c :: c in q.query.value.clauses && c.field == f
  {
    SearchBody(KeywordPageSize, Some(Should([
      MatchPhrase("attractionTypeP", normalized),
      MatchPhrase("attractionName", keyword),
      MatchPhrase("address", keyword),
      MatchPhrase("descriptionP", normalized),
      MatchPhrase("rekognitionLabels", normalized)])), ["_id"], false)
  }

  /**
   * `lambda_handler` at time `t`. A search returns the projected listing of
   * the hits, or `[]` without a fetch when there are none. An attraction page
   * counts the view in both tables and returns the record, with restaurants
   * from Yelp (not written back) when it has none, or raises when the address
   * has too few parts. An unknown attraction gives 404 and any other route 400.
   */
  method Handle(tables: Tables<int>, env: Env, tagger: Tagger, req: Request, t: int) returns (resp: Response)
    modifies tables
    ensures req.routeKey == SearchRoute ==>
              && tables.attractions == old(tables.attractions) && tables.pageHistory == old(tables.pageHistory)
              && var hits := env.search(KeywordQuery(req.param, NormalizeQuery(tagger, req.param)));
                 resp == Response(200, Listing(if hits == [] then [] else SearchListing(tables.attractions, hits)))
    ensures req.routeKey == AttractionRoute && req.param !in old(tables.attractions) ==>
              && tables.attractions == old(tables.attractions) && tables.pageHistory == old(tables.pageHistory)
              && resp == Response(404, Failure(NotFoundMessage(req.param)))
    ensures req.routeKey == AttractionRoute && req.param in old(tables.attractions) ==>
              var stored := Viewed(old(tables.attractions)[req.param]);
              && tables.attractions == old(tables.attractions)[req.param := stored]
              && tables.pageHistory == Replay(old(tables.pageHistory), [PageView(req.param, req.username, t)])
              && (stored.restaurants.Some? ==> resp == Response(200, Details(stored)))
              && (stored.restaurants.None? && GetLocationQuery(stored.address).Err? ==> resp.Crashed?)
              && (stored.restaurants.None? && GetLocationQuery(stored.address).Ok? ==>
                    && resp.Response? && resp.statusCode == 200 && resp.body.Details?
                    && resp.body.record == stored.(restaurants := resp.body.record.restaurants)
                    && resp.body.record.restaurants.Some?
                    && var found := env.yelp(RestaurantParams(RestaurantTerm, GetLocationQuery(stored.address).value)).GetOr([]);
                       && |resp.body.record.restaurants.value| == |found|
                       && forall i :: 0 <= i < |found| ==> resp.body.record.restaurants.value[i] == KeepExampleKeys(found[i]))
    ensures req.routeKey != SearchRoute && req.routeKey != AttractionRoute ==>
              && tables.attractions == old(tables.attractions) && tables.pageHistory == old(tables.pageHistory)
              && resp == Response(400, Failure(UnsupportedPath))
    ensures old(tables.Valid()) ==> tables.Valid()
  {
    if req.routeKey == SearchRoute {
      var keywordP := ProcUsrQuery(tagger, req.param);
      var hits := env.search(KeywordQuery(req.param, keywordP));
      if |hits| > 0 {
        resp := Response(200, Listing(SearchListing(tables.attractions, hits)));
      } else {
        resp := Response(200, Listing([]));
      }
    } else if req.routeKey == AttractionRoute {
      var body := tables.View(req.param, req.username, t);
      if body.None? {
        return Response(404, Failure(NotFoundMessage(req.param)));
      }
      var record := body.value;
      if record.restaurants.None? {
        var location := GetLocationQuery(record.address);
        if location.Err? {
          return Crashed;
        }
        var restaurants := SearchRestaurants(env.yelp, RestaurantTerm, location.value);
        record := record.(restaurants := Some(restaurants));
      }
      resp := Response(200, Details(record));
    } else {
      resp := Response(400, Failure(UnsupportedPath));
    }
  }
}

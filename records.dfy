/**
 * The stored entities the services share: user profiles, attraction records
 * and page-history rows, with the default backfill of the optional fields.
 */
module Records {
  import opened Wrappers
  import opened Text
  import opened Lists

  type Id = Str

  /** A row of the profile table: `{username, attractions, favCty}`. */
  datatype Profile = Profile(username: Str, attractions: seq<Str>, favCty: seq<Str>)

  /** A Yelp business as a map from attribute name to its (serialised) value. */
  type Business = map<Str, Str>

  /** The `opening_hours` structure; `weekday_text` may be missing. */
  datatype OpeningHours = OpeningHours(weekdayText: Option<seq<Str>>, other: map<Str, Str>)

  /**
   * A row of the attraction table. `cnt` (view counter) and `restaurants` may
   * be missing; `details` holds the attributes no service here rewrites
   * (name, description, photos, rating, similarity lists, ...).
   */
  datatype Attraction = Attraction(
    id: Id,
    address: Str,
    cnt: Option<int>,
    openingHours: OpeningHours,
    restaurants: Option<seq<Business>>,
    details: map<Str, Str>)

  /** A row of the page-history table, keyed by (attractionId, username); `S` is the stamp's type. */
  datatype HistoryRow<S> = HistoryRow(attractionId: Id, username: Str, cnt: int, lastVisit: S)

  /** `opening_hours.weekday_text` defaulted to `[]` when missing. */
  function WithWeekdayText(a: Attraction): (r: Attraction)
    ensures r.openingHours.weekdayText.Some?
    ensures a.openingHours.weekdayText.Some? ==> r == a
    ensures r.(openingHours := r.openingHours.(weekdayText := a.openingHours.weekdayText)) == a
  {
    if a.openingHours.weekdayText.None? then a.(openingHours := a.openingHours.(weekdayText := Some([])))
    else a
  }

  /** `restaurants` defaulted to `dflt` when missing. */
  function WithRestaurants(a: Attraction, dflt: seq<Business>): (r: Attraction)
    ensures r.restaurants.Some?
    ensures a.restaurants.Some? ==> r == a
    ensures r.(restaurants := a.restaurants) == a
  {
    if a.restaurants.None? then a.(restaurants := Some(dflt)) else a
  }

  /** Both optional fields present (what every backfilled record satisfies). */
  predicate Complete(a: Attraction) {
    a.restaurants.Some? && a.openingHours.weekdayText.Some?
  }

  /** The recommender's backfill: missing `restaurants` and `weekday_text` become `[]`. */
  function Backfilled(a: Attraction): Attraction {
    WithWeekdayText(WithRestaurants(a, []))
  }

  /**
   * Backfilling completes a record, never changes a value that was present,
   * touches no other field, and is idempotent.
   */
  lemma BackfilledSpec(a: Attraction)
    ensures Complete(Backfilled(a))
    ensures a.restaurants.Some? ==> Backfilled(a).restaurants == a.restaurants
    ensures a.restaurants.None? ==> Backfilled(a).restaurants == Some([])
    ensures a.openingHours.weekdayText.Some? ==> Backfilled(a).openingHours.weekdayText == a.openingHours.weekdayText
    ensures a.openingHours.weekdayText.None? ==> Backfilled(a).openingHours.weekdayText == Some([])
    ensures Backfilled(a).(restaurants := a.restaurants, openingHours := a.openingHours) == a
    ensures Backfilled(a).openingHours.other == a.openingHours.other
    ensures Backfilled(Backfilled(a)) == Backfilled(a)
    ensures Complete(a) ==> Backfilled(a) == a
  {
  }

  /** Every record of a table is stored under its own `attractionId`. */
  ghost predicate WellKeyed(table: map<Id, Attraction>) {
    forall k :: k in table ==> table[k].id == k
  }

  /** The requested keys the table holds, in request order. */
  function Present(table: map<Id, Attraction>, keys: seq<Id>): (p: seq<Id>)
    ensures |p| <= |keys|
    ensures forall k :: k in p <==> k in keys && k in table
    ensures Distinct(keys) ==> Distinct(p)
    ensures Subsequence(p, keys)
    decreases |keys|
  {
    if keys == [] then []
    else
      var n := |keys| - 1;
      assert forall k :: k in keys[..n] ==> k in keys;
      assert Distinct(keys) ==> keys[n] !in keys[..n];
      var front := Present(table, keys[..n]);
      var r := front + (if keys[n] in table then [keys[n]] else []);
      assert keys[n] in table ==> r[..|r| - 1] == front && r[|r| - 1] == keys[n];
      assert keys[n] !in table ==> r == front;
      r
  }

  /**
   * A batch get: the stored records of the requested keys the table holds,
   * in request order (the order of the store's reply is not modelled).
   */
  function BatchGet(table: map<Id, Attraction>, keys: seq<Id>): seq<Attraction> {
    var p := Present(table, keys);
    seq(|p|, i requires 0 <= i < |p| => table[p[i]])
  }
}

/**
 * What the two attraction services share: the attraction and page-history
 * tables, the view that bumps a record's counter and a user's page-history
 * row, and the projected listing of search hits.
 */
module AttractionService {
  import opened Wrappers
  import opened Text
  import opened Records

  const SearchRoute: Str := "GET /search/{keyword}"
  const AttractionRoute: Str := "GET /attraction/{attractionId}"

  /** Hits per keyword search. */
  const KeywordPageSize: nat := 60

  /** The attributes of the listing's `ProjectionExpression`, besides `attractionId`. */
  const ProjectedFields: set<Str> := {"attractionName", "description", "photos", "rating", "reviews_cnt"}

  /** A request: its route, the caller's email from the token, and the route's path parameter. */
  datatype Request = Request(routeKey: Str, username: Str, param: Str)

  /** A response body: a search listing, an attraction, or `{"err": ...}`. */
  datatype Body = Listing(items: seq<map<Str, Str>>) | Details(record: Attraction) | Failure(err: Str)

  /** A response; `Crashed` is an uncaught exception. */
  datatype Response = Response(statusCode: int, body: Body) | Crashed

  function NotFoundMessage(id: Id): Str {
    "Attraction with ID " + id + " doesn't exist!"
  }

  /** A record as the listing's projection returns it. */
  function Project(a: Attraction): (r: map<Str, Str>)
    ensures r.Keys <= ProjectedFields + {"attractionId"}
    ensures "attractionId" in r && r["attractionId"] == a.id
    ensures forall k :: k in ProjectedFields ==> (k in r <==> k in a.details)
    ensures forall k :: k in ProjectedFields && k in r ==> r[k] == a.details[k]
  {
    (map k | k in a.details && k in ProjectedFields :: a.details[k])["attractionId" := a.id]
  }

  /**
   * The search listing: the projections of the stored records of the hits,
   * in hit order; of a well-keyed table, one item per stored hit.
   */
  function SearchListing(table: map<Id, Attraction>, hits: seq<Id>): (items: seq<map<Str, Str>>)
    ensures |items| == |Present(table, hits)| <= |hits|
    ensures forall i :: 0 <= i < |items| ==> items[i] == Project(table[Present(table, hits)[i]])
    ensures WellKeyed(table) ==> forall i :: 0 <= i < |items| ==>
              "attractionId" in items[i] && items[i]["attractionId"] in hits && items[i]["attractionId"] in table
  {
    var p := Present(table, hits);
    var items := seq(|p|, i requires 0 <= i < |p| => Project(table[p[i]]));
    assert forall i :: 0 <= i < |p| ==> p[i] in p;
    items
  }

  /** A view of a record: the counter goes up by one (from 1 when missing) and `weekday_text` defaults to `[]`. */
  function Viewed(a: Attraction): (r: Attraction)
    ensures r.cnt == Some(a.cnt.GetOr(0) + 1)
    ensures r.openingHours.weekdayText.Some?
    ensures a.openingHours.weekdayText.Some? ==> r.openingHours.weekdayText == a.openingHours.weekdayText
    ensures r.(cnt := a.cnt, openingHours := a.openingHours) == a
    ensures r.openingHours.other == a.openingHours.other
  {
    var counted := if a.cnt.Some? then a.(cnt := Some(a.cnt.value + 1)) else a.(cnt := Some(1));
    WithWeekdayText(counted)
  }

  /** The page-history row after `username` views `id` at time `t`: one more view, last at `t`. */
  function NextRow<S>(history: map<(Id, Str), HistoryRow<S>>, id: Id, username: Str, t: S): HistoryRow<S> {
    if (id, username) in history then
      var row := history[(id, username)];
      row.(cnt := row.cnt + 1, lastVisit := t)
    else HistoryRow(id, username, 1, t)
  }

  /** A page view: who viewed which attraction, and when. */
  datatype PageView<S> = PageView(attractionId: Id, username: Str, stamp: S)

  /** The page-history table after a sequence of views. */
  function Replay<S>(history: map<(Id, Str), HistoryRow<S>>, views: seq<PageView<S>>): map<(Id, Str), HistoryRow<S>>
    decreases |views|
  {
    if views == [] then history
    else
      var h := Replay(history, views[..|views| - 1]);
      var v := views[|views| - 1];
      h[(v.attractionId, v.username) := NextRow(h, v.attractionId, v.username, v.stamp)]
  }

  /** The number of views of `id` by `username`. */
  function Hits<S>(views: seq<PageView<S>>, id: Id, username: Str): nat
    decreases |views|
  {
    if views == [] then 0
    else
      var v := views[|views| - 1];
      Hits(views[..|views| - 1], id, username) + (if v.attractionId == id && v.username == username then 1 else 0)
  }

  /** Every row of the page-history table is stored under its own (attractionId, username) and counts at least one view. */
  ghost predicate HistoryValid<S>(history: map<(Id, Str), HistoryRow<S>>) {
    forall key :: key in history ==>
      history[key].attractionId == key.0 && history[key].username == key.1 && history[key].cnt >= 1
  }

  /**
   * The upsert counts views: after a sequence of views, a user's row for an
   * attraction holds the views it held before plus the new ones, stamped
   * with the latest of them; rows nobody viewed are untouched; and the table
   * stays well formed.
   */
  lemma {:induction false} ReplayCounts<S>(history: map<(Id, Str), HistoryRow<S>>, views: seq<PageView<S>>, id: Id, username: Str)
    ensures (id, username) in Replay(history, views) <==> (id, username) in history || Hits(views, id, username) > 0
    ensures Hits(views, id, username) > 0 ==>
              Replay(history, views)[(id, username)].cnt ==
              (if (id, username) in history then history[(id, username)].cnt else 0) + Hits(views, id, username)
    ensures Hits(views, id, username) == 0 && (id, username) in history ==>
              Replay(history, views)[(id, username)] == history[(id, username)]
    ensures HistoryValid(history) ==> HistoryValid(Replay(history, views))
    decreases |views|
  {
    if views != [] {
      var front := views[..|views| - 1];
      ReplayCounts(history, front, id, username);
      var h := Replay(history, front);
      var v := views[|views| - 1];
      if HistoryValid(history) {
        forall key | key in Replay(history, views)
          ensures Replay(history, views)[key].attractionId == key.0
          ensures Replay(history, views)[key].username == key.1
          ensures Replay(history, views)[key].cnt >= 1
        {
          if key != (v.attractionId, v.username) {
            ReplayCounts(history, front, key.0, key.1);
          }
        }
      }
    }
  }

  /** The latest view of `id` by `username` is what its row's `lastVisit` holds. */
  lemma {:induction false} ReplayStamps<S>(history: map<(Id, Str), HistoryRow<S>>, views: seq<PageView<S>>, i: nat)
    requires i < |views|
    requires forall j :: i < j < |views| ==>
               (views[j].attractionId, views[j].username) != (views[i].attractionId, views[i].username)
    ensures (views[i].attractionId, views[i].username) in Replay(history, views)
    ensures Replay(history, views)[(views[i].attractionId, views[i].username)].lastVisit == views[i].stamp
    decreases |views|
  {
    var n := |views| - 1;
    if i < n {
      ReplayStamps(history, views[..n], i);
    }
  }

  /** The attraction table and the page-history table of one service. */
  class Tables<S> {
    var attractions: map<Id, Attraction>
    var pageHistory: map<(Id, Str), HistoryRow<S>>

    ghost predicate Valid()
      reads this
    {
      WellKeyed(attractions) && HistoryValid(pageHistory)
    }

    constructor(attractions: map<Id, Attraction>, pageHistory: map<(Id, Str), HistoryRow<S>>)
      ensures this.attractions == attractions && this.pageHistory == pageHistory
    {
      this.attractions := attractions;
      this.pageHistory := pageHistory;
    }

    /**
     * A view of attraction `id` by `username` at time `t`: the record is read,
     * its counter bumped and `weekday_text` defaulted, and written back; then
     * the user's page-history row is upserted. An unknown id changes nothing.
     */
    method View(id: Id, username: Str, t: S) returns (body: Option<Attraction>)
      modifies this
      ensures id !in old(attractions) ==>
                body == None && attractions == old(attractions) && pageHistory == old(pageHistory)
      ensures id in old(attractions) ==>
                && body == Some(Viewed(old(attractions)[id]))
                && attractions == old(attractions)[id := body.value]
                && pageHistory == Replay(old(pageHistory), [PageView(id, username, t)])
      ensures old(Valid()) ==> Valid()
    {
      if id !in attractions {
        return None;
      }
      var record := attractions[id];
      if record.cnt.Some? {
        record := record.(cnt := Some(record.cnt.value + 1));
      } else {
        record := record.(cnt := Some(1));
      }
      if record.openingHours.weekdayText.None? {
        record := record.(openingHours := record.openingHours.(weekdayText := Some([])));
      }
      attractions := attractions[id := record];
      var row;
      if (id, username) in pageHistory {
        row := pageHistory[(id, username)];
        row := row.(cnt := row.cnt + 1, lastVisit := t);
      } else {
        row := HistoryRow(id, username, 1, t);
      }
      pageHistory := pageHistory[(id, username) := row];
      body := Some(record);
      ghost var views := [PageView(id, username, t)];
      assert views[..0] == [];
      ReplayCounts(old(pageHistory), views, id, username);
    }
  }
}

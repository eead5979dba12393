/**
 * The recommender: preference candidates from the profile query, history
 * candidates from the expander, a capped random merge, the batch fetch with
 * default backfill, and the handler with its cache-aside paths.
 */
module Recommender {
  import opened Wrappers
  import opened Text
  import opened Records
  import opened Normalizer
  import opened QueryBuilder
  import opened HistoryExpander
  import opened Randomness
  import opened Lists
  import opened CacheService

  /** Preference samples are capped at 100 ids, history samples at 30. */
  const PrefSampleCap: nat := 100
  const HistorySampleCap: nat := 30
  /** The store's batch-get limit. */
  const BatchLimit: nat := 100
  /** Records returned per request. */
  const ReturnCount: nat := 36

  /**
   * What the recommender reads: the ids on the page of hits of a preference
   * query, the history searches, the page-history rows of a user, the
   * attraction table and the profile table.
   */
  datatype Backend = Backend(
    prefHits: SearchBody -> seq<Id>,
    history: HistoryIndex,
    historyOf: Str -> seq<HistoryRow<int>>,
    attractions: map<Id, Attraction>,
    profiles: map<Str, Profile>)

  /** `es_multi_search` result shaping: the ids of each response as a set, in response order. */
  method EsMultiSearch(responses: seq<seq<Id>>) returns (allIds: seq<set<Id>>)
    ensures |allIds| == |responses|
    ensures forall i :: 0 <= i < |responses| ==> forall x :: x in allIds[i] <==> x in responses[i]
  {
    allIds := [];
    var i := 0;
    while i < |responses|
      invariant 0 <= i <= |responses| && |allIds| == i
      invariant forall j :: 0 <= j < i ==> forall x :: x in allIds[j] <==> x in responses[j]
    {
      allIds := allIds + [set x | x in responses[i]];
      i := i + 1;
    }
  }

  /** The preference candidates of a profile. */
  function PrefIds(be: Backend, tagger: Tagger, p: Profile): set<Id> {
    set x | x in be.prefHits(PrefQuery(tagger, p))
  }

  /** `search_by_prefs`: one query per profile, one id set per profile, in profile order. */
  method SearchByPrefs(be: Backend, tagger: Tagger, profiles: seq<Profile>) returns (allIds: seq<set<Id>>)
    ensures |allIds| == |profiles|
    ensures forall i :: 0 <= i < |profiles| ==> allIds[i] == PrefIds(be, tagger, profiles[i])
  {
    var queries := seq(|profiles|, i requires 0 <= i < |profiles| => PrefQuery(tagger, profiles[i]));
    var responses := seq(|queries|, i requires 0 <= i < |queries| => be.prefHits(queries[i]));
    allIds := EsMultiSearch(responses);
  }

  /**
   * The candidate merge of one user: a sample of at most 100 preference ids
   * and at most 30 history ids, their union, and the keys sent to the batch
   * fetch — the union as a list, shuffled and cut to 100 when longer.
   */
  method MergeCandidates(pref: set<Id>, hist: set<Id>) returns (merged: set<Id>, keys: seq<Id>)
    ensures merged <= pref + hist
    ensures |merged| <= Min(|pref|, PrefSampleCap) + Min(|hist|, HistorySampleCap)
    ensures |pref| <= PrefSampleCap ==> pref <= merged
    ensures |hist| <= HistorySampleCap ==> hist <= merged
    ensures merged == {} <==> pref + hist == {}
    ensures Distinct(keys) && |keys| == Min(|merged|, BatchLimit)
    ensures forall k :: k in keys ==> k in merged
    ensures |merged| <= BatchLimit ==> forall k :: k in merged ==> k in keys
    ensures SampledUnion(merged, pref, hist)
  {
    var prefSample := Sample(pref, PrefSampleCap);
    var histSample := Sample(hist, HistorySampleCap);
    merged := prefSample + histSample;
    assert |merged| <= |prefSample| + |histSample|;
    if pref != {} {
      var x :| x in pref;
      assert |prefSample| > 0;
    }
    if hist != {} {
      assert |histSample| > 0;
    }
    keys := SetToSeq(merged);
    if |keys| > BatchLimit {
      var shuffled := Shuffled(keys);
      DistinctPerm(keys, shuffled);
      PrefixOfDistinct(shuffled, BatchLimit);
      keys := shuffled[..BatchLimit];
      forall k | k in keys ensures k in merged {
        assert k in multiset(shuffled);
      }
    }
    assert prefSample <= pref && |prefSample| == Min(|pref|, PrefSampleCap);
    assert histSample <= hist && |histSample| == Min(|hist|, HistorySampleCap);
  }

  /**
   * `merged` is the union of a sample of `min(len(pref), 100)` preference ids
   * and a sample of `min(len(hist), 30)` history ids.
   */
  ghost predicate SampledUnion(merged: set<Id>, pref: set<Id>, hist: set<Id>) {
    exists ps: set<Id>, hs: set<Id> ::
      && ps <= pref && |ps| == Min(|pref|, PrefSampleCap)
      && hs <= hist && |hs| == Min(|hist|, HistorySampleCap)
      && merged == ps + hs
  }

  /** The keys of the batch fetch: `min(len(merged), 100)` distinct ids of `merged`, all of it when it fits. */
  ghost predicate FetchKeys(keys: seq<Id>, merged: set<Id>) {
    && Distinct(keys) && |keys| == Min(|merged|, BatchLimit)
    && (forall k :: k in keys ==> k in merged)
    && (|merged| <= BatchLimit ==> forall k :: k in merged ==> k in keys)
  }

  /** The batch fetch of `keys` with defaults backfilled: one record per key the table holds, in key order. */
  function Fetched(table: map<Id, Attraction>, keys: seq<Id>): (l: seq<Attraction>)
    ensures |l| == |Present(table, keys)|
  {
    var p := Present(table, keys);
    seq(|p|, j requires 0 <= j < |p| => Backfilled(table[p[j]]))
  }

  /**
   * A list the recommender can produce for preference candidates `pref` and
   * history candidates `hist`: the fetch of the keys drawn from a sampled union.
   */
  ghost predicate Recommended(table: map<Id, Attraction>, l: seq<Attraction>, pref: set<Id>, hist: set<Id>) {
    exists merged: set<Id>, keys: seq<Id> ::
      SampledUnion(merged, pref, hist) && FetchKeys(keys, merged) && l == Fetched(table, keys)
  }

  /** The record is the backfilled stored record of one of the candidates. */
  ghost predicate FromCandidate(table: map<Id, Attraction>, a: Attraction, candidates: set<Id>) {
    exists k :: k in candidates && k in table && a == Backfilled(table[k])
  }

  /**
   * A sampled union lies within the candidates, is no larger than the two
   * caps together, is empty without candidates, and is all of them when both
   * sets fit their caps.
   */
  lemma SampledUnionSpec(merged: set<Id>, pref: set<Id>, hist: set<Id>)
    requires SampledUnion(merged, pref, hist)
    ensures merged <= pref + hist
    ensures |merged| <= Min(|pref|, PrefSampleCap) + Min(|hist|, HistorySampleCap)
    ensures pref + hist == {} ==> merged == {}
    ensures |pref| <= PrefSampleCap && |hist| <= HistorySampleCap ==> merged == pref + hist
  {
    var ps, hs :| && ps <= pref && |ps| == Min(|pref|, PrefSampleCap)
                  && hs <= hist && |hs| == Min(|hist|, HistorySampleCap)
                  && merged == ps + hs;
    assert |merged| <= |ps| + |hs|;
    if pref + hist == {} {
      assert |ps| == 0 && |hs| == 0;
    }
    if |pref| <= PrefSampleCap && |hist| <= HistorySampleCap {
      FullSubset(ps, pref);
      FullSubset(hs, hist);
    }
  }

  /**
   * Each fetched record is the complete, backfilled record of a key; of a
   * well-keyed table the ids are the keys the table holds, without repeats.
   */
  lemma FetchedSpec(table: map<Id, Attraction>, keys: seq<Id>, candidates: set<Id>)
    requires Distinct(keys) && forall k :: k in keys ==> k in candidates
    ensures forall j :: 0 <= j < |Fetched(table, keys)| ==>
              Complete(Fetched(table, keys)[j]) && FromCandidate(table, Fetched(table, keys)[j], candidates)
    ensures WellKeyed(table) ==> forall j :: 0 <= j < |Fetched(table, keys)| ==> Fetched(table, keys)[j].id in candidates
    ensures WellKeyed(table) ==> forall i, j :: 0 <= i < j < |Fetched(table, keys)| ==>
              Fetched(table, keys)[i].id != Fetched(table, keys)[j].id
    ensures forall k :: k in keys && k in table ==> Backfilled(table[k]) in Fetched(table, keys)
  {
    var l := Fetched(table, keys);
    var p := Present(table, keys);
    forall j | 0 <= j < |l|
      ensures Complete(l[j]) && FromCandidate(table, l[j], candidates)
      ensures WellKeyed(table) ==> l[j].id == p[j]
    {
      BackfilledSpec(table[p[j]]);
      assert p[j] in keys;
    }
    forall k | k in keys && k in table ensures Backfilled(table[k]) in l {
      var j :| 0 <= j < |p| && p[j] == k;
      assert l[j] == Backfilled(table[k]);
    }
  }

  /**
   * A recommendation holds at most 100 records, no more than the two samples
   * together, and none without candidates; each is the complete, backfilled
   * record of a candidate, and of a well-keyed table the ids are candidates
   * and distinct. When both candidate sets fit their caps and their union
   * fits the fetch, every stored candidate is recommended.
   */
  lemma RecommendedSpec(table: map<Id, Attraction>, l: seq<Attraction>, pref: set<Id>, hist: set<Id>)
    requires Recommended(table, l, pref, hist)
    ensures |l| <= BatchLimit
    ensures |l| <= Min(|pref|, PrefSampleCap) + Min(|hist|, HistorySampleCap)
    ensures pref + hist == {} ==> l == []
    ensures forall j :: 0 <= j < |l| ==> Complete(l[j]) && FromCandidate(table, l[j], pref + hist)
    ensures WellKeyed(table) ==> forall j :: 0 <= j < |l| ==> l[j].id in pref + hist
    ensures WellKeyed(table) ==> forall i, j :: 0 <= i < j < |l| ==> l[i].id != l[j].id
    ensures |pref| <= PrefSampleCap && |hist| <= HistorySampleCap && |pref + hist| <= BatchLimit ==>
              forall k :: k in pref + hist && k in table ==> Backfilled(table[k]) in l
  {
    var merged, keys :| SampledUnion(merged, pref, hist) && FetchKeys(keys, merged) && l == Fetched(table, keys);
    SampledUnionSpec(merged, pref, hist);
    FetchedSpec(table, keys, pref + hist);
  }

  /** The backfill loop of `get_recommendations`, record by record in place. */
  method BackfillAll(found: seq<Attraction>) returns (ret: seq<Attraction>)
    ensures |ret| == |found|
    ensures forall j :: 0 <= j < |ret| ==> ret[j] == Backfilled(found[j])
  {
    ret := found;
    var i := 0;
    while i < |ret|
      invariant 0 <= i <= |ret| && |ret| == |found|
      invariant forall j :: 0 <= j < i ==> ret[j] == Backfilled(found[j])
      invariant forall j :: i <= j < |ret| ==> ret[j] == found[j]
    {
      var rec := ret[i];
      if rec.restaurants.None? {
        rec := rec.(restaurants := Some([]));
      }
      if rec.openingHours.weekdayText.None? {
        rec := rec.(openingHours := rec.openingHours.(weekdayText := Some([])));
      }
      ret := ret[i := rec];
      i := i + 1;
    }
  }

  /**
   * The per-user body of `get_recommendations`. `fetched` holds the keys sent
   * to the batch fetch, or `None` when the candidate union is empty and no
   * fetch is made.
   */
  method RecommendFor(table: map<Id, Attraction>, pref: set<Id>, hist: set<Id>)
    returns (ret: seq<Attraction>, merged: set<Id>, fetched: Option<seq<Id>>)
    ensures merged <= pref + hist && SampledUnion(merged, pref, hist)
    ensures fetched.None? <==> pref + hist == {}
    ensures fetched.None? ==> ret == []
    ensures fetched.Some? ==> FetchKeys(fetched.value, merged) && ret == Fetched(table, fetched.value)
    ensures Recommended(table, ret, pref, hist)
  {
    var keys;
    merged, keys := MergeCandidates(pref, hist);
    ret := [];
    fetched := None;
    if |keys| > 0 {
      fetched := Some(keys);
      var found := BatchGet(table, keys);
      ret := BackfillAll(found);
      var p := Present(table, keys);
      assert |found| == |p| && forall j :: 0 <= j < |p| ==> found[j] == table[p[j]];
      assert ret == Fetched(table, keys);
      assert pref + hist != {};
    }
    assert FetchKeys(keys, merged) && ret == Fetched(table, keys);
  }

  /** The list of one user, by what it is drawn from. */
  method RecommendOne(table: map<Id, Attraction>, pref: set<Id>, hist: set<Id>) returns (ret: seq<Attraction>)
    ensures Recommended(table, ret, pref, hist)
  {
    var merged, fetched;
    ret, merged, fetched := RecommendFor(table, pref, hist);
  }

  /** `get_recommendations`: one list per (profile, email) pair, `zip` stopping at the shorter. */
  method GetRecommendations(be: Backend, tagger: Tagger, profiles: seq<Profile>, emails: seq<Str>)
    returns (res: seq<seq<Attraction>>)
    ensures |res| == Min(|profiles|, |emails|)
    ensures forall i :: 0 <= i < |res| ==>
              Recommended(be.attractions, res[i], PrefIds(be, tagger, profiles[i]), HistoryIds(be, emails[i]))
  {
    var allIdsByPref := SearchByPrefs(be, tagger, profiles);
    var allIdsByHistory := SearchByHistories(be.history, be.historyOf, emails);
    res := RecommendAll(be.attractions, allIdsByPref, allIdsByHistory);
  }

  /** The loop of `get_recommendations`: one list per pair of candidate sets, up to the shorter. */
  method RecommendAll(table: map<Id, Attraction>, prefs: seq<set<Id>>, hists: seq<set<Id>>)
    returns (res: seq<seq<Attraction>>)
    ensures |res| == Min(|prefs|, |hists|)
    ensures forall i :: 0 <= i < |res| ==> Recommended(table, res[i], prefs[i], hists[i])
  {
    var n := Min(|prefs|, |hists|);
    res := [];
    var i := 0;
    while i < n
      invariant 0 <= i <= n && |res| == i
      invariant forall j :: 0 <= j < i ==> Recommended(table, res[j], prefs[j], hists[j])
    {
      var ret := RecommendOne(table, prefs[i], hists[i]);
      res := res + [ret];
      i := i + 1;
    }
  }

  /** A shuffled copy of the list cut to the first `n`: some `n` (or fewer) of its elements. */
  method ShuffleAndTake<T>(l: seq<T>, n: nat) returns (r: seq<T>)
    ensures |r| == Min(n, |l|)
    ensures multiset(r) <= multiset(l)
  {
    var s := Shuffled(l);
    var m := Min(n, |s|);
    assert s == s[..m] + s[m..];
    r := s[..m];
  }

  /** What triggers the handler: a user's request (with the email from the token) or the schedule. */
  datatype Trigger = UserRequest(email: Str) | Scheduled

  /** The handler's outcome; `Crashed` is an uncaught exception. */
  datatype Outcome = Recommendations(statusCode: int, body: seq<Attraction>) | Refreshed(statusCode: int) | Crashed

  /** The history candidates of the user whose page history is filed under `email`. */
  function HistoryIds(be: Backend, email: Str): set<Id> {
    Candidates(be.history, be.historyOf(email))
  }

  /** `cache_get(keys)`: a `get` request to the cache service; it changes no entry. */
  method CacheGet(cache: Cache<seq<Attraction>>, keys: seq<Str>) returns (resp: Response<seq<Attraction>>)
    ensures |keys| == 0 ==> resp == Response(400, Invalid)
    ensures |keys| > 0 ==> resp == Response(200, Results(GetReplies(cache.store, cache.now, keys)))
  {
    GetRequest<seq<Attraction>>(keys);
    var cmd := Validate<seq<Attraction>>(Event(Some(Payload(Some("get"), Some(keys), None))));
    if cmd.None? {
      return Response(400, Invalid);
    }
    var replies := cache.GetAll(cmd.value.keys);
    resp := Response(200, Results(replies));
  }

  /** `cache_set(keys, values)`: a `set` request to the cache service, refused unless it pairs each key with a value. */
  method CacheSet(cache: Cache<seq<Attraction>>, keys: seq<Str>, values: seq<seq<Attraction>>)
    returns (resp: Response<seq<Attraction>>)
    modifies cache
    ensures cache.now == old(cache.now)
    ensures |keys| > 0 && |keys| == |values| ==>
              && cache.store == SetAll(old(cache.store), keys, values, cache.now + DefaultTtl)
              && resp == Response(200, Results(seq(|keys|, _ => Stored)))
    ensures !(|keys| > 0 && |keys| == |values|) ==> cache.store == old(cache.store) && resp == Response(400, Invalid)
  {
    SetRequest(keys, values);
    resp := cache.Handle(Event(Some(Payload(Some("set"), Some(keys), Some(values)))));
  }

  /** `cache_set([key], [value])`: one key written for the TTL. */
  method CacheSetOne(cache: Cache<seq<Attraction>>, key: Str, value: seq<Attraction>)
    modifies cache
    ensures cache.now == old(cache.now)
    ensures cache.store == old(cache.store)[key := Entry(value, cache.now + DefaultTtl)]
  {
    ghost var before := cache.store;
    var _ := CacheSet(cache, [key], [value]);
    SetOne(before, key, value, cache.now + DefaultTtl);
  }

  /** `get_recommendations([profile], [email])[0]`: the list of one user. */
  method RecommendUser(be: Backend, tagger: Tagger, profile: Profile, email: Str) returns (l: seq<Attraction>)
    ensures Recommended(be.attractions, l, PrefIds(be, tagger, profile), HistoryIds(be, email))
  {
    var res := GetRecommendations(be, tagger, [profile], [email]);
    assert [profile][0] == profile && [email][0] == email;
    l := res[0];
  }

  /** The store after a user request at time `now` that wrote `written` under `email`, if anything. */
  function AfterRequest(store: map<Str, Entry<seq<Attraction>>>, email: Str, written: Option<seq<Attraction>>, now: int)
    : map<Str, Entry<seq<Attraction>>>
  {
    if written.Some? then store[email := Entry(written.value, now + DefaultTtl)] else store
  }

  /**
   * The user-request branch of `lambda_handler`. A cache hit returns a
   * shuffled cut of the cached list and writes nothing; on a miss the
   * profile lookup raises when there is none, and otherwise the list is
   * computed, written under the email for the TTL and a shuffled cut of it
   * returned. `written` is the list written.
   */
  method Recommend(be: Backend, tagger: Tagger, cache: Cache<seq<Attraction>>, email: Str)
    returns (out: Outcome, ghost written: Option<seq<Attraction>>)
    modifies cache
    ensures cache.now == old(cache.now)
    ensures cache.store == AfterRequest(old(cache.store), email, written, old(cache.now))
    ensures Lookup(old(cache.store), old(cache.now), email).Some? ==>
              var cached := Lookup(old(cache.store), old(cache.now), email).value;
              && written == None
              && out.Recommendations? && out.statusCode == 200
              && |out.body| == Min(ReturnCount, |cached|) && multiset(out.body) <= multiset(cached)
    ensures Lookup(old(cache.store), old(cache.now), email).None? && email !in be.profiles ==>
              out.Crashed? && written == None
    ensures Lookup(old(cache.store), old(cache.now), email).None? && email in be.profiles ==>
              && written.Some?
              && Recommended(be.attractions, written.value, PrefIds(be, tagger, be.profiles[email]), HistoryIds(be, email))
              && out.Recommendations? && out.statusCode == 200
              && |out.body| == Min(ReturnCount, |written.value|)
              && multiset(out.body) <= multiset(written.value)
  {
    ghost var before, now := cache.store, cache.now;
    var got := CacheGet(cache, [email]);
    var cached := got.body.replies[0].value;
    out, written := Serve(be, tagger, cache, email, cached, before, now);
  }

  /**
   * What `Recommend` does once the cache has answered `cached` for `email`;
   * `before` and `now` are the cache's store and clock at that point.
   */
  method Serve(be: Backend, tagger: Tagger, cache: Cache<seq<Attraction>>, email: Str,
               cached: Option<seq<Attraction>>, ghost before: map<Str, Entry<seq<Attraction>>>, ghost now: int)
    returns (out: Outcome, ghost written: Option<seq<Attraction>>)
    requires cache.store == before && cache.now == now && cached == Lookup(before, now, email)
    modifies cache
    ensures cache.now == now
    ensures cache.store == AfterRequest(before, email, written, now)
    ensures Lookup(before, now, email).Some? ==>
              var cached := Lookup(before, now, email).value;
              && written == None
              && out.Recommendations? && out.statusCode == 200
              && |out.body| == Min(ReturnCount, |cached|) && multiset(out.body) <= multiset(cached)
    ensures Lookup(before, now, email).None? && email !in be.profiles ==> out.Crashed? && written == None
    ensures Lookup(before, now, email).None? && email in be.profiles ==>
              && written.Some?
              && Recommended(be.attractions, written.value, PrefIds(be, tagger, be.profiles[email]), HistoryIds(be, email))
              && out.Recommendations? && out.statusCode == 200
              && |out.body| == Min(ReturnCount, |written.value|)
              && multiset(out.body) <= multiset(written.value)
  {
    written := None;
    if cached.Some? {
      var body := ShuffleAndTake(cached.value, ReturnCount);
      out := Recommendations(200, body);
    } else if email !in be.profiles {
      out := Crashed;
    } else {
      out, written := RecommendMiss(be, tagger, cache, email, before, now);
    }
  }

  /**
   * The cache-miss path of a user request: the list of the user's profile,
   * written under the email for the TTL, and a shuffled cut of it returned.
   * `before` and `now` are the cache's store and clock on entry.
   */
  method RecommendMiss(be: Backend, tagger: Tagger, cache: Cache<seq<Attraction>>, email: Str,
                       ghost before: map<Str, Entry<seq<Attraction>>>, ghost now: int)
    returns (out: Outcome, ghost written: Option<seq<Attraction>>)
    requires email in be.profiles && cache.store == before && cache.now == now
    modifies cache
    ensures cache.now == now
    ensures && written.Some?
            && cache.store == before[email := Entry(written.value, now + DefaultTtl)]
            && Recommended(be.attractions, written.value, PrefIds(be, tagger, be.profiles[email]), HistoryIds(be, email))
            && out.Recommendations? && out.statusCode == 200
            && |out.body| == Min(ReturnCount, |written.value|)
            && multiset(out.body) <= multiset(written.value)
  {
    var usrRes := RecommendUser(be, tagger, be.profiles[email], email);
    out := WriteAndCut(cache, email, usrRes, before, now);
    written := Some(usrRes);
  }

  /**
   * The list `l` written under `email` for the TTL, then a shuffled cut of
   * it as the response; the write stores `l` as it was before the shuffle.
   * `before` and `now` are the cache's store and clock on entry.
   */
  method WriteAndCut(cache: Cache<seq<Attraction>>, email: Str, l: seq<Attraction>,
                     ghost before: map<Str, Entry<seq<Attraction>>>, ghost now: int)
    returns (out: Outcome)
    requires cache.store == before && cache.now == now
    modifies cache
    ensures cache.now == now && cache.store == before[email := Entry(l, now + DefaultTtl)]
    ensures out.Recommendations? && out.statusCode == 200
    ensures |out.body| == Min(ReturnCount, |l|) && multiset(out.body) <= multiset(l)
  {
    CacheSetOne(cache, email, l);
    var body := ShuffleAndTake(l, ReturnCount);
    out := Recommendations(200, body);
  }

  /**
   * The store after a batch `set` of `users` to `lists`: a write of each, or
   * no change when there are no users, because the cache refuses an empty
   * key list.
   */
  ghost predicate Wrote<V>(before: map<Str, Entry<V>>, after: map<Str, Entry<V>>, users: seq<Str>, lists: seq<V>, expiresAt: int) {
    && |users| == |lists|
    && (users == [] ==> after == before)
    && (users != [] ==> after == SetAll(before, users, lists, expiresAt))
  }

  /**
   * The scheduled branch of `lambda_handler`: a list for every profile of the
   * table (scanned in some order), written in one `set` keyed by the
   * profiles' usernames — which the cache refuses, writing nothing, when the
   * table is empty. `scanned` is the order of the scan.
   */
  method Refresh(be: Backend, tagger: Tagger, cache: Cache<seq<Attraction>>)
    returns (out: Outcome, ghost scanned: seq<Str>, users: seq<Str>, lists: seq<seq<Attraction>>)
    modifies cache
    ensures cache.now == old(cache.now)
    ensures out == Refreshed(200)
    ensures Distinct(scanned) && (forall k :: k in scanned <==> k in be.profiles)
    ensures |users| == |scanned| && |lists| == |scanned|
    ensures Wrote(old(cache.store), cache.store, users, lists, cache.now + DefaultTtl)
    ensures forall i :: 0 <= i < |scanned| ==>
              && users[i] == be.profiles[scanned[i]].username
              && Recommended(be.attractions, lists[i], PrefIds(be, tagger, be.profiles[scanned[i]]), HistoryIds(be, users[i]))
  {
    var keys := SetToSeq(be.profiles.Keys);
    scanned := keys;
    users, lists := RecommendScanned(be, tagger, keys);
    var _ := CacheSet(cache, users, lists);
    out := Refreshed(200);
  }

  /** The lists of the scanned profiles, keyed by their usernames. */
  method RecommendScanned(be: Backend, tagger: Tagger, keys: seq<Str>)
    returns (users: seq<Str>, lists: seq<seq<Attraction>>)
    requires forall k :: k in keys ==> k in be.profiles
    ensures |users| == |keys| && |lists| == |keys|
    ensures forall i :: 0 <= i < |keys| ==>
              && users[i] == be.profiles[keys[i]].username
              && Recommended(be.attractions, lists[i], PrefIds(be, tagger, be.profiles[keys[i]]), HistoryIds(be, users[i]))
  {
    var profiles := seq(|keys|, i requires 0 <= i < |keys| => be.profiles[keys[i]]);
    users := seq(|profiles|, i requires 0 <= i < |profiles| => profiles[i].username);
    lists := GetRecommendations(be, tagger, profiles, users);
  }

  /** `lambda_handler`: a request with a caller identity asks for recommendations, any other event refreshes them all. */
  method LambdaHandler(be: Backend, tagger: Tagger, cache: Cache<seq<Attraction>>, ev: Trigger)
    returns (out: Outcome)
    modifies cache
    ensures cache.now == old(cache.now)
    ensures ev.Scheduled? <==> out.Refreshed?
    ensures out.Recommendations? ==> out.statusCode == 200 && |out.body| <= ReturnCount
    ensures out.Crashed? ==> ev.UserRequest? && ev.email !in be.profiles && cache.store == old(cache.store)
  {
    match ev {
      case UserRequest(email) =>
        ghost var written;
        out, written := Recommend(be, tagger, cache, email);
      case Scheduled =>
        ghost var scanned;
        var users, lists;
        out, scanned, users, lists := Refresh(be, tagger, cache);
    }
  }
}

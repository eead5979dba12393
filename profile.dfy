/**
 * The user-profile service: read a profile, register one, and update one,
 * evicting the user's cached recommendations after an update.
 */
module ProfileService {
  import opened Wrappers
  import opened Text
  import opened Records
  import CacheService

  const GetRoute: Str := "GET /profile/{username}"
  const RegisterRoute: Str := "POST /register"
  const UpdateRoute: Str := "POST /update_profile"

  const MissingUser: Str := "User doesn't exist!"

  /** Stands for the message of the error `JSON.parse` throws on a malformed body. */
  const MalformedBody: Str := "Unexpected token in JSON"

  /**
   * A request: its route, the `username` path parameter, and the request
   * body as parsed — `None` when it is not valid JSON.
   */
  datatype Request = Request(routeKey: Str, pathUsername: Str, body: Option<Profile>)

  /** A response body: a profile, `{"err": ...}`, or `{"success": ..., "err"?: ...}`. */
  datatype Body = Item(profile: Profile) | Error(err: Str) | Success | Unsuccessful(err: Str)

  datatype Response = Response(statusCode: int, body: Body)

  function UnsupportedRoute(routeKey: Str): Str {
    "Unsupported route: \"" + routeKey + "\""
  }

  /** The profile table, and the cache of recommendations the service evicts from. */
  class Profiles {
    var table: map<Str, Profile>
    const cache: CacheService.Cache<seq<Attraction>>

    constructor(table: map<Str, Profile>, cache: CacheService.Cache<seq<Attraction>>)
      ensures this.table == table && this.cache == cache
    {
      this.table := table;
      this.cache := cache;
    }

    /**
     * `handler`. A read returns the stored profile or 404. Registration
     * stores the submitted profile whether or not one existed. An update of
     * an unknown user gives 400 and writes nothing; otherwise it stores the
     * submitted profile and then deletes the user's cached recommendations.
     * A malformed body or any other route gives 400 with `success: false`.
     */
    method Handle(req: Request) returns (resp: Response)
      modifies this, cache
      ensures cache.now == old(cache.now)
      ensures req.routeKey == GetRoute ==>
                && table == old(table) && cache.store == old(cache.store)
                && resp == (if req.pathUsername in table then Response(200, Item(table[req.pathUsername]))
                            else Response(404, Error(MissingUser)))
      ensures (req.routeKey == RegisterRoute || req.routeKey == UpdateRoute) && req.body.None? ==>
                && table == old(table) && cache.store == old(cache.store)
                && resp == Response(400, Unsuccessful(MalformedBody))
      ensures req.routeKey == RegisterRoute && req.body.Some? ==>
                && table == old(table)[req.body.value.username := req.body.value]
                && cache.store == old(cache.store)
                && resp == Response(200, Success)
      ensures req.routeKey == UpdateRoute && req.body.Some? && req.body.value.username !in old(table) ==>
                && table == old(table) && cache.store == old(cache.store)
                && resp == Response(400, Unsuccessful(MissingUser))
      ensures req.routeKey == UpdateRoute && req.body.Some? && req.body.value.username in old(table) ==>
                && table == old(table)[req.body.value.username := req.body.value]
                && cache.store == old(cache.store) - {req.body.value.username}
                && resp == Response(200, Success)
      ensures req.routeKey !in {GetRoute, RegisterRoute, UpdateRoute} ==>
                && table == old(table) && cache.store == old(cache.store)
                && resp == Response(400, Unsuccessful(UnsupportedRoute(req.routeKey)))
    {
      if req.routeKey == GetRoute {
        if req.pathUsername in table {
          resp := Response(200, Item(table[req.pathUsername]));
        } else {
          resp := Response(404, Error(MissingUser));
        }
      } else if req.routeKey == RegisterRoute || req.routeKey == UpdateRoute {
        if req.body.None? {
          return Response(400, Unsuccessful(MalformedBody));
        }
        var submitted := req.body.value;
        var username := submitted.username;
        if req.routeKey == UpdateRoute && username !in table {
          return Response(400, Unsuccessful(MissingUser));
        }
        table := table[username := Profile(username, submitted.attractions, submitted.favCty)];
        resp := Response(200, Success);
        if req.routeKey == UpdateRoute {
          var evict := CacheService.Event(Some(CacheService.Payload(Some("del"), Some([username]), None)));
          CacheService.DelRequest<seq<Attraction>>([username]);
          var _ := cache.Handle(evict);
          CacheService.DeleteAllRemoves(old(cache.store), [username]);
          assert (set k | k in [username]) == {username};
        }
      } else {
        resp := Response(400, Unsuccessful(UnsupportedRoute(req.routeKey)));
      }
    }
  }

  /**
   * After an update the recommender misses its cache for that user and
   * recomputes from the new profile: an update leaves no live entry under
   * the username.
   */
  method UpdateEvicts(profiles: Profiles, p: Profile)
    requires p.username in profiles.table
    modifies profiles, profiles.cache
  {
    var resp := profiles.Handle(Request(UpdateRoute, "", Some(p)));
    assert profiles.table[p.username] == p;
    assert CacheService.Lookup(profiles.cache.store, profiles.cache.now, p.username) == None;
    assert resp == Response(200, Success);
  }
}

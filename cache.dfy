/**
 * The cache service: a request handler in front of a key-value store whose
 * entries expire a fixed number of seconds after they are written. Values are
 * kept as the caller sent them (the JSON serialisation round trip is taken as
 * the identity).
 */
module CacheService {
  import opened Wrappers
  import opened Text

  /** Seconds an entry stays readable after `set`. */
  const DefaultTtl: int := 15

  datatype Entry<V> = Entry(value: V, expiresAt: int)

  /** The decoded request body: `op`, `keys` and `values`, each possibly missing. */
  datatype Payload<V> = Payload(op: Option<Str>, keys: Option<seq<Str>>, values: Option<seq<V>>)

  /** A request: `body` may be missing. */
  datatype Event<V> = Event(body: Option<Payload<V>>)

  /** What the pipeline answers per key: `GET` a value or null, `DEL` a count, `SET` an acknowledgement. */
  datatype Reply<V> = Got(value: Option<V>) | Deleted(count: nat) | Stored

  datatype Body<V> = Invalid | Results(replies: seq<Reply<V>>)

  datatype Response<V> = Response(statusCode: int, body: Body<V>)

  /** A request that passed validation. */
  datatype Command<V> = GetKeys(keys: seq<Str>) | DelKeys(keys: seq<Str>) | SetKeys(keys: seq<Str>, values: seq<V>)

  /**
   * The validation of `lambda_handler`: a body with `op` and `keys`; `get` and
   * `del` need at least one key; `set` needs `values`, at least one key, and
   * exactly one value per key; any other op is invalid.
   */
  function Validate<V>(ev: Event<V>): (r: Option<Command<V>>)
    ensures r.Some? <==>
              && ev.body.Some? && ev.body.value.op.Some? && ev.body.value.keys.Some?
              && |ev.body.value.keys.value| > 0
              && (|| ev.body.value.op.value == "get" || ev.body.value.op.value == "del"
                  || (&& ev.body.value.op.value == "set" && ev.body.value.values.Some?
                      && |ev.body.value.keys.value| == |ev.body.value.values.value|))
    ensures r.Some? ==> r.value.keys == ev.body.value.keys.value
    ensures r.Some? && r.value.GetKeys? <==> r.Some? && ev.body.value.op.value == "get"
    ensures r.Some? && r.value.DelKeys? <==> r.Some? && ev.body.value.op.value == "del"
    ensures r.Some? && r.value.SetKeys? ==>
              r.value.values == ev.body.value.values.value && |r.value.keys| == |r.value.values|
  {
    if ev.body.None? then None
    else
      var data := ev.body.value;
      if data.op.None? || data.keys.None? then None
      else
        var op, keys := data.op.value, data.keys.value;
        if op == "get" || op == "del" then
          if |keys| == 0 then None
          else if op == "get" then Some(GetKeys(keys)) else Some(DelKeys(keys))
        else if op == "set" then
          if data.values.None? then None
          else
            var values := data.values.value;
            if |keys| == 0 || |keys| != |values| then None
            else Some(SetKeys(keys, values))
        else None
  }

  /** The live value of `k` at time `now`: absent once the entry has expired. */
  function Lookup<V>(store: map<Str, Entry<V>>, now: int, k: Str): Option<V> {
    if k in store && now < store[k].expiresAt then Some(store[k].value) else None
  }

  /** The replies to `GET` of each key: the live value or null. */
  function GetReplies<V>(store: map<Str, Entry<V>>, now: int, keys: seq<Str>): (r: seq<Reply<V>>)
    ensures |r| == |keys|
    ensures forall i :: 0 <= i < |keys| ==> r[i] == Got(Lookup(store, now, keys[i]))
  {
    seq(|keys|, i requires 0 <= i < |keys| => Got(Lookup(store, now, keys[i])))
  }

  /** The store after `DEL` of each key in turn. */
  function DeleteAll<V>(store: map<Str, Entry<V>>, keys: seq<Str>): map<Str, Entry<V>>
    decreases |keys|
  {
    if keys == [] then store
    else DeleteAll(store, keys[..|keys| - 1]) - {keys[|keys| - 1]}
  }

  /** The replies to `DEL` of each key in turn: 1 when the key was live at that point, else 0. */
  function DeleteReplies<V>(store: map<Str, Entry<V>>, now: int, keys: seq<Str>): seq<Reply<V>>
    decreases |keys|
  {
    if keys == [] then []
    else
      var front := keys[..|keys| - 1];
      var k := keys[|keys| - 1];
      DeleteReplies(store, now, front) +
      [Deleted(if Lookup(DeleteAll(store, front), now, k).Some? then 1 else 0)]
  }

  /** The store after `SET k v EX ttl` for each pair in turn. */
  function SetAll<V>(store: map<Str, Entry<V>>, keys: seq<Str>, values: seq<V>, expiresAt: int): map<Str, Entry<V>>
    requires |keys| == |values|
    decreases |keys|
  {
    if keys == [] then store
    else
      var n := |keys| - 1;
      SetAll(store, keys[..n], values[..n], expiresAt)[keys[n] := Entry(values[n], expiresAt)]
  }
  /** Setting one key is one map update. */
  lemma SetOne<V>(store: map<Str, Entry<V>>, k: Str, v: V, expiresAt: int)
    ensures SetAll(store, [k], [v], expiresAt) == store[k := Entry(v, expiresAt)]
  {
    assert [k][..0] == [] && [v][..0] == [];
  }


  /** Deleting a list of keys removes exactly those keys. */
  lemma {:induction false} DeleteAllRemoves<V>(store: map<Str, Entry<V>>, keys: seq<Str>)
    ensures DeleteAll(store, keys) == store - set k | k in keys
    decreases |keys|
  {
    if keys != [] {
      var front := keys[..|keys| - 1];
      DeleteAllRemoves(store, front);
      assert keys == front + [keys[|keys| - 1]];
      assert (set k | k in keys) == (set k | k in front) + {keys[|keys| - 1]};
    }
  }

  /**
   * One reply per key, in key order; the reply to key `i` is 1 exactly when
   * that key was live and not already deleted by an earlier key of the request.
   */
  lemma {:induction false} DeleteRepliesSpec<V>(store: map<Str, Entry<V>>, now: int, keys: seq<Str>)
    ensures |DeleteReplies(store, now, keys)| == |keys|
    ensures forall i :: 0 <= i < |keys| ==>
              DeleteReplies(store, now, keys)[i] ==
              Deleted(if Lookup(store, now, keys[i]).Some? && keys[i] !in keys[..i] then 1 else 0)
    decreases |keys|
  {
    if keys != [] {
      var n := |keys| - 1;
      var front := keys[..n];
      DeleteRepliesSpec(store, now, front);
      DeleteAllRemoves(store, front);
      forall i | 0 <= i < n
        ensures DeleteReplies(store, now, keys)[i] ==
                Deleted(if Lookup(store, now, keys[i]).Some? && keys[i] !in keys[..i] then 1 else 0)
      {
        assert keys[i] == front[i] && keys[..i] == front[..i];
      }
      assert keys[n] in front <==> keys[n] in keys[..n];
    }
  }

  /** `SET` leaves the keys it does not name as they were. */
  lemma {:induction false} SetAllUntouched<V>(store: map<Str, Entry<V>>, keys: seq<Str>, values: seq<V>, expiresAt: int)
    requires |keys| == |values|
    ensures forall k :: k !in keys ==> (k in SetAll(store, keys, values, expiresAt) <==> k in store)
    ensures forall k :: k !in keys && k in store ==> SetAll(store, keys, values, expiresAt)[k] == store[k]
    decreases |keys|
  {
    if keys != [] {
      var n := |keys| - 1;
      SetAllUntouched(store, keys[..n], values[..n], expiresAt);
      assert forall k :: k in keys[..n] ==> k in keys;
    }
  }

  /**
   * `SET` pairs keys and values positionally: a key's entry holds the value
   * of its last occurrence in the request, with the new expiry.
   */
  lemma {:induction false} SetAllSpec<V>(store: map<Str, Entry<V>>, keys: seq<Str>, values: seq<V>, expiresAt: int)
    requires |keys| == |values|
    ensures forall i :: 0 <= i < |keys| && keys[i] !in keys[i + 1..] ==>
              keys[i] in SetAll(store, keys, values, expiresAt) &&
              SetAll(store, keys, values, expiresAt)[keys[i]] == Entry(values[i], expiresAt)
    decreases |keys|
  {
    if keys != [] {
      var n := |keys| - 1;
      var front := SetAll(store, keys[..n], values[..n], expiresAt);
      assert SetAll(store, keys, values, expiresAt) == front[keys[n] := Entry(values[n], expiresAt)];
      SetAllSpec(store, keys[..n], values[..n], expiresAt);
      forall i | 0 <= i < n && keys[i] !in keys[i + 1..]
        ensures keys[i] in front && front[keys[i]] == Entry(values[i], expiresAt) && keys[i] != keys[n]
      {
        assert keys[n] in keys[i + 1..];
        assert keys[..n][i + 1..] == keys[i + 1..n];
        assert keys[..n][i] == keys[i] && values[..n][i] == values[i];
      }
    }
  }

  /**
   * The round trip: a value written by `set` is read back by `get` until the
   * TTL has elapsed, and is absent from then on.
   */
  lemma SetThenGet<V>(store: map<Str, Entry<V>>, now: int, k: Str, v: V, elapsed: nat)
    ensures Lookup(SetAll(store, [k], [v], now + DefaultTtl), now + elapsed, k) ==
            if elapsed < DefaultTtl then Some(v) else None
  {
    assert [k][..0] == [] && [v][..0] == [];
  }

  class Cache<V> {
    var store: map<Str, Entry<V>>
    /** The clock, in seconds. */
    var now: int

    constructor ()
      ensures store == map[] && now == 0
    {
      store := map[];
      now := 0;
    }

    /** The passing of time; expiry is decided by `Lookup` against the clock. */
    method Tick(seconds: nat)
      modifies this
      ensures now == old(now) + seconds && store == old(store)
    {
      now := now + seconds;
    }

    method GetAll(keys: seq<Str>) returns (replies: seq<Reply<V>>)
      ensures replies == GetReplies(store, now, keys)
    {
      replies := [];
      var i := 0;
      while i < |keys|
        invariant 0 <= i <= |keys| && |replies| == i
        invariant forall j :: 0 <= j < i ==> replies[j] == Got(Lookup(store, now, keys[j]))
      {
        replies := replies + [Got(Lookup(store, now, keys[i]))];
        i := i + 1;
      }
      assert replies == GetReplies(store, now, keys);
    }

    method DelAll(keys: seq<Str>) returns (replies: seq<Reply<V>>)
      modifies this
      ensures now == old(now)
      ensures store == DeleteAll(old(store), keys)
      ensures replies == DeleteReplies(old(store), now, keys)
    {
      replies := [];
      var i := 0;
      while i < |keys|
        invariant 0 <= i <= |keys| && now == old(now)
        invariant store == DeleteAll(old(store), keys[..i])
        invariant replies == DeleteReplies(old(store), now, keys[..i])
      {
        var k := keys[i];
        assert keys[..i + 1][..i] == keys[..i];
        var live := k in store && now < store[k].expiresAt;
        store := store - {k};
        replies := replies + [Deleted(if live then 1 else 0)];
        i := i + 1;
      }
      assert keys[..|keys|] == keys;
    }

    method PutAll(keys: seq<Str>, values: seq<V>) returns (replies: seq<Reply<V>>)
      requires |keys| == |values|
      modifies this
      ensures now == old(now)
      ensures store == SetAll(old(store), keys, values, now + DefaultTtl)
      ensures replies == seq(|keys|, _ => Stored)
    {
      replies := [];
      var i := 0;
      while i < |keys|
        invariant 0 <= i <= |keys| && now == old(now)
        invariant store == SetAll(old(store), keys[..i], values[..i], now + DefaultTtl)
        invariant replies == seq(i, _ => Stored)
      {
        assert keys[..i + 1][..i] == keys[..i] && values[..i + 1][..i] == values[..i];
        store := store[keys[i] := Entry(values[i], now + DefaultTtl)];
        replies := replies + [Stored];
        i := i + 1;
      }
      assert keys[..|keys|] == keys && values[..|values|] == values;
    }

    /**
     * `lambda_handler`: an invalid request is answered 400 and writes
     * nothing; a valid one runs its op key by key and is answered 200 with
     * one reply per key, in key order.
     */
    method Handle(ev: Event<V>) returns (resp: Response<V>)
      modifies this
      ensures now == old(now)
      ensures Validate(ev).None? ==> resp == Response(400, Invalid) && store == old(store)
      ensures Validate(ev).Some? ==> resp.statusCode == 200 && resp.body.Results?
      ensures Validate(ev).Some? && Validate(ev).value.GetKeys? ==>
                store == old(store) &&
                resp.body.replies == GetReplies(store, now, ev.body.value.keys.value)
      ensures Validate(ev).Some? && Validate(ev).value.DelKeys? ==>
                store == DeleteAll(old(store), ev.body.value.keys.value) &&
                resp.body.replies == DeleteReplies(old(store), now, ev.body.value.keys.value)
      ensures Validate(ev).Some? && Validate(ev).value.SetKeys? ==>
                store == SetAll(old(store), ev.body.value.keys.value, ev.body.value.values.value,
                                now + DefaultTtl) &&
                resp.body.replies == seq(|ev.body.value.keys.value|, _ => Stored)
    {
      var cmd := Validate(ev);
      if cmd.None? {
        return Response(400, Invalid);
      }
      var replies;
      match cmd.value {
        case GetKeys(keys) =>
          replies := GetAll(keys);
        case DelKeys(keys) =>
          replies := DelAll(keys);
        case SetKeys(keys, values) =>
          replies := PutAll(keys, values);
      }
      resp := Response(200, Results(replies));
    }
  }

  /** A `get` request is valid exactly when it names a key. */
  lemma GetRequest<V>(keys: seq<Str>)
    ensures Validate<V>(Event(Some(Payload(Some("get"), Some(keys), None)))) ==
            (if |keys| > 0 then Some(GetKeys(keys)) else None)
  {
  }

  /** A `del` request is valid exactly when it names a key. */
  lemma DelRequest<V>(keys: seq<Str>)
    ensures Validate<V>(Event(Some(Payload(Some("del"), Some(keys), None)))) ==
            (if |keys| > 0 then Some(DelKeys(keys)) else None)
  {
    assert "del" != "get";
  }

  /** A `set` request is valid exactly when it names a key and gives one value per key. */
  lemma SetRequest<V>(keys: seq<Str>, values: seq<V>)
    ensures Validate(Event(Some(Payload(Some("set"), Some(keys), Some(values))))) ==
            (if |keys| > 0 && |keys| == |values| then Some(SetKeys(keys, values)) else None)
  {
    assert "set" != "get" && "set" != "del";
  }

  /** A client of the handler: `set` then `get` reads the value back; after the TTL it is gone. */
  method RoundTrip<V>(k: Str, v: V)
  {
    var cache := new Cache<V>();
    var r := cache.Handle(Event(Some(Payload(Some("set"), Some([k]), Some([v])))));
    assert cache.store == map[k := Entry(v, DefaultTtl)] by {
      assert [k][..0] == [] && [v][..0] == [];
    }
    r := cache.Handle(Event(Some(Payload(Some("get"), Some([k]), None))));
    assert r.body.replies == [Got(Some(v))];
    cache.Tick(DefaultTtl);
    r := cache.Handle(Event(Some(Payload(Some("get"), Some([k]), None))));
    assert r.body.replies == [Got(None)];
  }
}

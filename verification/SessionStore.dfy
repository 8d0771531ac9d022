/** The session store as objects over the shared keys: the gateway's `redisStore` and the API's
    reader. */
module SessionStore {
  import opened Redis
  import opened Wrappers
  import opened Sessions

  /** The keys both services share. */
  class Keys {
    var store: KeyStore

    constructor ()
      ensures store == Store(map[], 0)
    {
      store := Store(map[], 0);
    }

    /** SMEMBERS: every member once, in no promised order. */
    method SMembers(u: UserId) returns (ids: seq<SessionId>)
      ensures Distinct(ids) && forall id :: id in ids <==> id in Members(store, u)
    {
      ids := [];
      var left := Members(store, u);
      while left != {}
        invariant Distinct(ids) && left <= Members(store, u)
        invariant forall id :: id in ids <==> id in Members(store, u) && id !in left
        decreases |left|
      {
        var id :| id in left;
        ids := ids + [id];
        left := left - {id};
      }
    }

    /** MGET of the sessions with these ids. */
    method MGet(ids: seq<SessionId>) returns (values: seq<Option<Meta>>)
      ensures |values| == |ids| && forall i | 0 <= i < |ids| :: values[i] == Sessions.Get(store, ids[i])
    {
      var s := store;
      values := seq(|ids|, i requires 0 <= i < |ids| => Sessions.Get(s, ids[i]));
    }

    method SRem(u: UserId, ids: set<SessionId>)
      modifies this
      ensures store == Remove(old(store), u, ids)
    {
      store := Remove(store, u, ids);
    }
  }

  predicate Distinct<T(==)>(s: seq<T>) { forall i, j | 0 <= i < j < |s| :: s[i] != s[j] }

  /** A list of sessions as `List` returns it: each one listed, once. */
  ghost predicate ListOf(result: seq<Meta>, s: KeyStore, u: UserId) {
    && (forall meta :: meta in result <==> Listed(s, u, meta))
    && forall i, j | 0 <= i < j < |result| :: result[i].id != result[j].id
  }

  class RedisStore {
    const redis: Keys
    const ttl: int

    constructor (redis: Keys, ttl: int)
      ensures this.redis == redis && this.ttl == ttl
    {
      this.redis := redis;
      this.ttl := ttl;
    }

    method Put(meta: Meta)
      modifies redis
      ensures redis.store == Sessions.Put(old(redis.store), meta, ttl)
    {
      redis.store := redis.store.Set(SessionKey(meta.id), Session(meta), Some(ttl));
      redis.store := Add(redis.store, meta.userId, meta.id, ttl);
    }

    method Delete(id: SessionId)
      modifies redis
      ensures redis.store == Sessions.Delete(old(redis.store), id)
    {
      var meta := Sessions.Get(redis.store, id);
      redis.store := redis.store.Del(SessionKey(id));
      if meta.Some? {
        redis.SRem(meta.value.userId, {id});
      }
    }

    method List(u: UserId) returns (result: seq<Meta>)
      requires Indexed(redis.store)
      modifies redis
      ensures ListOf(result, old(redis.store), u)
      ensures redis.store == Pruned(old(redis.store), u)
    {
      var ids := redis.SMembers(u);
      if |ids| == 0 {
        return [];
      }
      var values := redis.MGet(ids);
      result := [];
      var stale: set<SessionId> := {};
      for i := 0 to |values|
        invariant redis.store == old(redis.store)
        invariant forall id :: id in stale <==> exists k | 0 <= k < i :: ids[k] == id && values[k].None?
        invariant forall meta :: meta in result <==> exists k | 0 <= k < i :: values[k] == Some(meta)
        invariant Distinct(result)
      {
        if values[i].None? {
          stale := stale + {ids[i]};
        } else {
          result := result + [values[i].value];
        }
      }
      Found(redis.store, u, ids, values, result);
      assert stale == Stale(redis.store, u);
      if stale != {} {
        redis.SRem(u, stale);
      }
    }
  }

  /** The API's reader, which lists from the same keys. */
  class SessionReader {
    const redis: Keys

    constructor (redis: Keys)
      ensures this.redis == redis
    {
      this.redis := redis;
    }

    method Get(id: SessionId) returns (meta: Option<Meta>)
      ensures meta == Sessions.Get(redis.store, id)
    {
      meta := Sessions.Get(redis.store, id);
    }

    method List(u: UserId) returns (result: seq<Meta>)
      requires Indexed(redis.store)
      modifies redis
      ensures ListOf(result, old(redis.store), u)
      ensures redis.store == Pruned(old(redis.store), u)
    {
      var ids := redis.SMembers(u);
      if |ids| == 0 {
        return [];
      }
      var values := redis.MGet(ids);
      result := [];
      var staleIds: seq<SessionId> := [];
      var i := 0;
      while i < |values|
        invariant 0 <= i <= |values| && redis.store == old(redis.store)
        invariant forall id :: id in staleIds <==> exists k | 0 <= k < i :: ids[k] == id && values[k].None?
        invariant forall meta :: meta in result <==> exists k | 0 <= k < i :: values[k] == Some(meta)
        invariant Distinct(result)
      {
        if values[i].None? {
          staleIds := staleIds + [ids[i]];
        } else {
          result := result + [values[i].value];
        }
        i := i + 1;
      }
      Found(redis.store, u, ids, values, result);
      var stale := set id | id in staleIds;
      assert stale == Stale(redis.store, u);
      if |staleIds| > 0 {
        assert staleIds[0] in stale;
        redis.SRem(u, stale);
      }
    }
  }

  lemma Found(s: KeyStore, u: UserId, ids: seq<SessionId>, values: seq<Option<Meta>>, result: seq<Meta>)
    requires Indexed(s) && |values| == |ids| && Distinct(result)
    requires forall id :: id in ids <==> id in Members(s, u)
    requires forall k | 0 <= k < |ids| :: values[k] == Sessions.Get(s, ids[k])
    requires forall meta :: meta in result <==> exists k | 0 <= k < |values| :: values[k] == Some(meta)
    ensures ListOf(result, s, u)
  {
    forall meta ensures meta in result <==> Listed(s, u, meta) {
      if Listed(s, u, meta) {
        var id :| id in Members(s, u) && Sessions.Get(s, id) == Some(meta);
        assert id in ids;
        var k :| 0 <= k < |ids| && ids[k] == id;
        assert values[k] == Some(meta);
      }
      if meta in result {
        var k :| 0 <= k < |values| && values[k] == Some(meta);
        assert ids[k] in Members(s, u);
      }
    }
    forall i, j | 0 <= i < j < |result| ensures result[i].id != result[j].id {
      assert result[i] in result && result[j] in result;
    }
  }

}

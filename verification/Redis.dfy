/** The Redis subset the services use: keys with an optional expiry on an integer clock.
    `Store` is the meaning of each command; `MockRedis` is the stateful object that implements it. */
module Redis {
  import opened Wrappers

  datatype Entry<+V> = Entry(value: V, expiresAt: Option<int>)

  datatype Store<!K, V> = Store(data: map<K, Entry<V>>, now: int)
  {
    predicate Live(k: K) {
      k in data && (data[k].expiresAt.Some? ==> now < data[k].expiresAt.value)
    }

    /** The part of the store a client can observe. */
    function Visible(): Store<K, V> {
      Store(map k | k in data && Live(k) :: data[k], now)
    }

    function Get(k: K): Option<V> {
      if Live(k) then Some(data[k].value) else None
    }

    function Set(k: K, v: V, ex: Option<int>): Store<K, V> {
      this.(data := data[k := Entry(v, if ex.Some? then Some(now + ex.value) else None)])
    }

    function Del(k: K): Store<K, V> {
      this.(data := data - {k})
    }

    function DelAll(keys: seq<K>): Store<K, V> {
      this.(data := data - (set k | k in keys))
    }

    function Ttl(k: K): int {
      if !Live(k) then -2
      else if data[k].expiresAt.None? then -1
      else data[k].expiresAt.value - now
    }

    function Advance(seconds: nat): Store<K, V> {
      this.(now := now + seconds)
    }
  }

  lemma SameVisibleSameAnswers<K, V>(a: Store<K, V>, b: Store<K, V>, k: K)
    requires a.Visible() == b.Visible()
    ensures a.Live(k) == b.Live(k) && a.Get(k) == b.Get(k) && a.Ttl(k) == b.Ttl(k)
    ensures a.Live(k) ==> a.data[k] == b.data[k]
  {
    assert k in a.Visible().data <==> k in b.Visible().data;
    if a.Live(k) {
      assert a.Visible().data[k] == b.Visible().data[k];
    }
  }

  ghost predicate SameLive<K(!new), V>(a: Store<K, V>, b: Store<K, V>) {
    a.now == b.now && forall k :: a.Live(k) == b.Live(k) && (a.Live(k) ==> a.data[k] == b.data[k])
  }

  /** Two stores look alike exactly when they hold the same live entries. */
  lemma SameVisible<K(!new), V>(a: Store<K, V>, b: Store<K, V>)
    ensures a.Visible() == b.Visible() <==> SameLive(a, b)
  {
    if a.Visible() == b.Visible() {
      forall k
        ensures a.Live(k) == b.Live(k) && (a.Live(k) ==> a.data[k] == b.data[k])
      {
        SameVisibleSameAnswers(a, b, k);
      }
    }
    if SameLive(a, b) {
      assert a.Visible().data == b.Visible().data;
    }
  }

  lemma SameLiveAfter<K(!new), V>(a: Store<K, V>, b: Store<K, V>, k: K, v: V, ex: Option<int>, seconds: nat)
    requires SameLive(a, b)
    ensures SameLive(a.Set(k, v, ex), b.Set(k, v, ex))
    ensures SameLive(a.Del(k), b.Del(k))
    ensures SameLive(a.Advance(seconds), b.Advance(seconds))
  {
  }

  /** Expired entries that have not been purged yet never show: each command leaves stores that
      look alike when it starts from stores that look alike. */
  lemma SetIsInvisible<K(!new), V>(a: Store<K, V>, b: Store<K, V>, k: K, v: V, ex: Option<int>)
    requires a.Visible() == b.Visible()
    ensures a.Set(k, v, ex).Visible() == b.Set(k, v, ex).Visible()
  {
    SameVisible(a, b);
    SameLiveAfter(a, b, k, v, ex, 0);
    SameVisible(a.Set(k, v, ex), b.Set(k, v, ex));
  }

  lemma DelIsInvisible<K(!new), V>(a: Store<K, V>, b: Store<K, V>, k: K)
    requires a.Visible() == b.Visible()
    ensures a.Del(k).Visible() == b.Del(k).Visible()
  {
    SameVisible(a, b);
    SameVisible(a.Del(k), b.Del(k));
  }

  lemma DelOneMore<K, V>(s: Store<K, V>, keys: seq<K>, i: nat)
    requires i < |keys|
    ensures s.DelAll(keys[..i + 1]) == s.DelAll(keys[..i]).Del(keys[i])
  {
    assert keys[..i + 1] == keys[..i] + [keys[i]];
    assert s.DelAll(keys[..i + 1]).data == s.DelAll(keys[..i]).Del(keys[i]).data;
  }

  lemma DelOne<K, V>(s: Store<K, V>, k: K)
    ensures s.DelAll([k]) == s.Del(k)
  {
    assert s.DelAll([k]).data == s.Del(k).data;
  }

  lemma OneFewer<K, V>(data: map<K, V>, k: K)
    ensures k in data ==> |(data - {k}).Keys| == |data.Keys| - 1
    ensures k !in data ==> data - {k} == data
  {
    if k in data {
      assert (data - {k}).Keys == data.Keys - {k};
    } else {
      assert data - {k} == data;
    }
  }

  /** The in-memory store of the tests, with its lazy purge of expired entries. */
  class MockRedis<!K(==,!new), V> {
    var data: map<K, Entry<V>>
    var now: int

    constructor ()
      ensures Model() == Store(map[], 0)
    {
      data := map[];
      now := 0;
    }

    function Model(): Store<K, V>
      reads this
    {
      Store(data, now)
    }

    method Advance(seconds: nat)
      modifies this
      ensures Model() == old(Model().Advance(seconds))
    {
      now := now + seconds;
    }

    method Purge(k: K) returns (e: Option<Entry<V>>)
      modifies this
      ensures Model().Visible() == old(Model().Visible())
      ensures k in data <==> old(Model().Live(k))
      ensures e == if old(Model().Live(k)) then Some(old(data)[k]) else None
    {
      if k !in data {
        return None;
      }
      var entry := data[k];
      if entry.expiresAt.Some? && entry.expiresAt.value <= now {
        data := data - {k};
        assert Model().Visible().data == old(Model().Visible().data);
        return None;
      }
      return Some(entry);
    }

    method Get(k: K) returns (v: Option<V>)
      modifies this
      ensures v == old(Model().Get(k))
      ensures Model().Visible() == old(Model().Visible())
    {
      var e := Purge(k);
      v := if e.Some? then Some(e.value.value) else None;
    }

    method GetDel(k: K) returns (v: Option<V>)
      modifies this
      ensures v == old(Model().Get(k))
      ensures Model().Visible() == old(Model().Del(k).Visible())
    {
      var e := Purge(k);
      v := if e.Some? then Some(e.value.value) else None;
      DelIsInvisible(Model(), old(Model()), k);
      data := data - {k};
    }

    method Set(k: K, v: V, ex: Option<int>, nx: bool) returns (ok: bool)
      modifies this
      ensures ok == !(nx && old(Model().Live(k)))
      ensures Model().Visible() == if ok then old(Model().Set(k, v, ex).Visible()) else old(Model().Visible())
    {
      if nx {
        var e := Purge(k);
        if e.Some? {
          return false;
        }
      }
      SetIsInvisible(Model(), old(Model()), k, v, ex);
      data := data[k := Entry(v, if ex.Some? then Some(now + ex.value) else None)];
      return true;
    }

    /** Counts the keys it removes, expired ones that have not been purged among them. */
    method Del(keys: seq<K>) returns (removed: nat)
      modifies this
      ensures Model() == old(Model().DelAll(keys))
      ensures removed == |old(data.Keys)| - |data.Keys|
    {
      removed := 0;
      ghost var was := Model();
      assert was.DelAll(keys[..0]) == was by { assert was.DelAll([]).data == was.data; }
      for i := 0 to |keys|
        invariant Model() == was.DelAll(keys[..i])
        invariant removed == |old(data.Keys)| - |data.Keys|
      {
        DelOneMore(was, keys, i);
        OneFewer(data, keys[i]);
        if keys[i] in data {
          removed := removed + 1;
          data := data - {keys[i]};
        }
      }
      assert keys[..|keys|] == keys;
    }

    method Ttl(k: K) returns (ttl: int)
      modifies this
      ensures ttl == old(Model().Ttl(k))
      ensures Model().Visible() == old(Model().Visible())
    {
      var e := Purge(k);
      if e.None? {
        return -2;
      }
      ttl := if e.value.expiresAt.None? then -1 else e.value.expiresAt.value - now;
    }
  }
}

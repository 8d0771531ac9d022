/** The sessions of connected machines: one key a session and one set a user, both with a time to
    live (gateway/store.go, and the reading half again in api/src/store.ts). */
module Sessions {
  import opened Redis
  import opened Wrappers

  type SessionId = string
  type UserId = string

  datatype Meta = Meta(id: SessionId, userId: UserId, directory: string, gatewayAddr: string)

  datatype Key = SessionKey(id: SessionId) | UserKey(user: UserId)

  datatype Value = Session(meta: Meta) | Ids(ids: set<SessionId>)

  type KeyStore = Store<Key, Value>

  // ---------------------------------------------------------------- commands

  function Members(s: KeyStore, u: UserId): set<SessionId> {
    match s.Get(UserKey(u))
    case Some(Ids(ids)) => ids
    case _ => {}
  }

  /** SADD and EXPIRE. */
  function Add(s: KeyStore, u: UserId, id: SessionId, ttl: int): KeyStore {
    s.Set(UserKey(u), Ids(Members(s, u) + {id}), Some(ttl))
  }

  /** SREM: the expiry stays, and an empty set is gone. */
  function Remove(s: KeyStore, u: UserId, ids: set<SessionId>): KeyStore {
    if !s.Live(UserKey(u)) then s
    else if Members(s, u) - ids == {} then s.Del(UserKey(u))
    else s.(data := s.data[UserKey(u) := s.data[UserKey(u)].(value := Ids(Members(s, u) - ids))])
  }

  function Get(s: KeyStore, id: SessionId): Option<Meta> {
    match s.Get(SessionKey(id))
    case Some(Session(meta)) => Some(meta)
    case _ => None
  }

  function Put(s: KeyStore, meta: Meta, ttl: int): KeyStore {
    Add(s.Set(SessionKey(meta.id), Session(meta), Some(ttl)), meta.userId, meta.id, ttl)
  }

  function Delete(s: KeyStore, id: SessionId): KeyStore {
    var gone := s.Del(SessionKey(id));
    if Get(s, id).Some? then Remove(gone, Get(s, id).value.userId, {id}) else gone
  }

  /** The members of a user's set whose session is gone. */
  function Stale(s: KeyStore, u: UserId): set<SessionId> {
    set id | id in Members(s, u) && Get(s, id).None?
  }

  function Pruned(s: KeyStore, u: UserId): KeyStore {
    if Stale(s, u) == {} then s else Remove(s, u, Stale(s, u))
  }

  /** What `List` answers, as a set. */
  predicate Listed(s: KeyStore, u: UserId, meta: Meta) {
    exists id | id in Members(s, u) :: Get(s, id) == Some(meta)
  }

  /** A live session of this user. */
  predicate Owns(s: KeyStore, u: UserId, meta: Meta) { Get(s, meta.id) == Some(meta) && meta.userId == u }

  // ---------------------------------------------------------------- runs

  datatype Event = Putting(meta: Meta) | Deleting(id: SessionId) | Listing(user: UserId) | Waiting(seconds: nat)

  function Apply(s: KeyStore, e: Event, ttl: int): KeyStore {
    match e
    case Putting(meta) => Put(s, meta, ttl)
    case Deleting(id) => Delete(s, id)
    case Listing(u) => Pruned(s, u)
    case Waiting(seconds) => s.Advance(seconds)
  }

  function After(run: seq<Event>, ttl: int): KeyStore {
    if run == [] then Store(map[], 0) else Apply(After(run[..|run| - 1], ttl), run[|run| - 1], ttl)
  }

  /** Keys hold values of their kind and expire; a live session is in its owner's set, which lives
      at least as long. */
  ghost predicate Indexed(s: KeyStore) {
    && (forall id | s.Live(SessionKey(id)) ::
          var e := s.data[SessionKey(id)]; e.value.Session? && e.value.meta.id == id && e.expiresAt.Some?)
    && (forall u | s.Live(UserKey(u)) ::
          var e := s.data[UserKey(u)]; e.value.Ids? && e.expiresAt.Some?)
    && forall id | s.Live(SessionKey(id)) && s.data[SessionKey(id)].value.Session? :: HeldByOwner(s, id)
  }

  ghost predicate HeldByOwner(s: KeyStore, id: SessionId)
    requires s.Live(SessionKey(id)) && s.data[SessionKey(id)].value.Session?
  {
    var e := s.data[SessionKey(id)];
    var u := e.value.meta.userId;
    && id in Members(s, u) && s.Live(UserKey(u))
    && e.expiresAt.Some? && s.data[UserKey(u)].expiresAt.Some?
    && e.expiresAt.value <= s.data[UserKey(u)].expiresAt.value
  }

  lemma RemoveIndexed(s: KeyStore, t: KeyStore, u: UserId, ids: set<SessionId>)
    requires t == Remove(s, u, ids)
    requires forall v | s.Live(UserKey(v)) :: s.data[UserKey(v)].value.Ids? && s.data[UserKey(v)].expiresAt.Some?
    requires forall id | s.Live(SessionKey(id)) ::
               var e := s.data[SessionKey(id)]; e.value.Session? && e.value.meta.id == id && e.expiresAt.Some?
    requires forall id | s.Live(SessionKey(id)) ::
               HeldByOwner(s, id) && (id in ids ==> s.data[SessionKey(id)].value.meta.userId != u)
    ensures Indexed(t)
  {
    forall id | t.Live(SessionKey(id)) ensures s.Live(SessionKey(id)) && HeldByOwner(t, id) {
      assert s.Live(SessionKey(id)) && HeldByOwner(s, id);
    }
  }

  lemma ApplyIndexed(s: KeyStore, e: Event, ttl: int)
    requires Indexed(s) && ttl > 0
    requires forall k | s.Live(k) :: s.data[k].expiresAt.Some? && s.data[k].expiresAt.value <= s.now + ttl
    ensures Indexed(Apply(s, e, ttl))
  {
    match e
    case Putting(meta) =>
    case Deleting(id) =>
      var gone := s.Del(SessionKey(id));
      forall i | gone.Live(SessionKey(i)) ensures HeldByOwner(gone, i) {
        assert s.Live(SessionKey(i)) && HeldByOwner(s, i);
      }
      if Get(s, id).Some? {
        RemoveIndexed(gone, Delete(s, id), Get(s, id).value.userId, {id});
      }
    case Listing(u) =>
      if Stale(s, u) != {} {
        RemoveIndexed(s, Pruned(s, u), u, Stale(s, u));
      }
    case Waiting(seconds) =>
      var t := s.Advance(seconds);
      forall id | t.Live(SessionKey(id)) ensures HeldByOwner(t, id) {
        assert s.Live(SessionKey(id)) && HeldByOwner(s, id);
      }
  }

  /** Nothing lives longer than ttl from now. */
  ghost predicate Capped(s: KeyStore, ttl: int) {
    forall k | k in s.data :: s.data[k].expiresAt.Some? && s.data[k].expiresAt.value <= s.now + ttl
  }

  lemma ApplyCapped(s: KeyStore, e: Event, ttl: int)
    requires Capped(s, ttl) && ttl > 0
    ensures Capped(Apply(s, e, ttl), ttl)
  {}

  lemma {:induction false} RunIndexed(run: seq<Event>, ttl: int)
    requires ttl > 0
    ensures Indexed(After(run, ttl)) && Capped(After(run, ttl), ttl)
  {
    hide Indexed, Apply;
    if run == [] {
      assert Indexed(Store(map[], 0)) by { EmptyIndexed(); }
    } else {
      RunIndexed(run[..|run| - 1], ttl);
      ApplyCapped(After(run[..|run| - 1], ttl), run[|run| - 1], ttl);
      ApplyIndexed(After(run[..|run| - 1], ttl), run[|run| - 1], ttl);
    }
  }

  lemma EmptyIndexed()
    ensures Indexed(Store(map[], 0))
  {}

  /** Every live session is in the list of its owner, whatever happened before. */
  lemma ListIsComplete(run: seq<Event>, ttl: int, u: UserId, meta: Meta)
    requires ttl > 0 && Owns(After(run, ttl), u, meta)
    ensures Listed(After(run, ttl), u, meta)
  {
    RunIndexed(run, ttl);
    assert HeldByOwner(After(run, ttl), meta.id);
  }

  /** A put session is there, with its user's set holding it, both for the whole time to live; nothing
      else shows a change. */
  lemma PutAdds(s: KeyStore, meta: Meta, ttl: int)
    requires ttl > 0
    ensures var t := Put(s, meta, ttl);
            && Get(t, meta.id) == Some(meta)
            && t.Ttl(SessionKey(meta.id)) == ttl == t.Ttl(UserKey(meta.userId))
            && (forall id | id != meta.id :: Get(t, id) == Get(s, id))
            && (forall u :: Members(t, u) == if u == meta.userId then Members(s, u) + {meta.id} else Members(s, u))
  {}

  /** A deleted session is gone, and out of its owner's set; every other session and membership stays. */
  lemma DeleteRemoves(s: KeyStore, id: SessionId)
    ensures var t := Delete(s, id);
            && Get(t, id).None?
            && (forall i | i != id :: Get(t, i) == Get(s, i))
            && forall u ::
                 Members(t, u) ==
                 if Get(s, id).Some? && Get(s, id).value.userId == u then Members(s, u) - {id} else Members(s, u)
  {
    var t := Delete(s, id);
    forall u
      ensures Members(t, u) ==
              if Get(s, id).Some? && Get(s, id).value.userId == u then Members(s, u) - {id} else Members(s, u)
    {
      assert Members(s.Del(SessionKey(id)), u) == Members(s, u);
    }
  }

  // ---------------------------------------------------------------- whose sessions a list holds

  /** The list of u is the live sessions of u, no more and no less. */
  ghost predicate Exact(s: KeyStore, u: UserId) { forall meta :: Listed(s, u, meta) <==> Owns(s, u, meta) }

  /** Another user's set still holds the id that is put. */
  ghost predicate HeldByAnother(s: KeyStore, meta: Meta) {
    exists u :: u != meta.userId && meta.id in Members(s, u)
  }

  ghost predicate Clean(s: KeyStore) {
    forall u, id | id in Members(s, u) :: Get(s, id).Some? ==> Get(s, id).value.userId == u
  }

  lemma ApplyClean(s: KeyStore, e: Event, ttl: int)
    requires Clean(s) && (e.Putting? ==> !HeldByAnother(s, e.meta))
    ensures Clean(Apply(s, e, ttl))
  {
    var t := Apply(s, e, ttl);
    forall u, id | id in Members(t, u) && Get(t, id).Some? ensures Get(t, id).value.userId == u {
      match e
      case Putting(meta) =>
        if u != meta.userId || id != meta.id {
          assert id in Members(s, u);
          assert id != meta.id;
          assert Get(t, id) == Get(s, id);
        }
      case Deleting(gone) =>
        assert Get(t, id) == if id == gone then None else Get(s, id);
        assert id in Members(s, u);
      case Listing(_) =>
        assert Get(t, id) == Get(s, id) && id in Members(s, u);
      case Waiting(_) =>
        assert Get(t, id) == Get(s, id) && id in Members(s, u);
    }
  }

  lemma CleanIsExact(s: KeyStore, u: UserId)
    requires Indexed(s) && Clean(s)
    ensures Exact(s, u)
  {
    forall meta ensures Listed(s, u, meta) <==> Owns(s, u, meta) {
      if Owns(s, u, meta) {
        assert HeldByOwner(s, meta.id);
      }
    }
  }

  lemma {:induction false} RunClean(run: seq<Event>, ttl: int)
    requires ttl > 0
    requires forall k | 0 <= k < |run| :: run[k].Putting? ==> !HeldByAnother(After(run[..k], ttl), run[k].meta)
    ensures Clean(After(run, ttl))
  {
    hide HeldByAnother;
    if run != [] {
      var p := run[..|run| - 1];
      forall k | 0 <= k < |p| ensures p[..k] == run[..k] && p[k] == run[k] {}
      RunClean(p, ttl);
      ApplyClean(After(p, ttl), run[|run| - 1], ttl);
    }
  }

  /** A put of an id that another user's set still holds shows in that user's list at once. */
  lemma HeldShows(s: KeyStore, meta: Meta, ttl: int, u: UserId)
    requires ttl > 0 && u != meta.userId && meta.id in Members(s, u)
    ensures Listed(Put(s, meta, ttl), u, meta) && !Owns(Put(s, meta, ttl), u, meta)
  {
    assert meta.id in Members(Put(s, meta, ttl), u);
  }

  /** All lists are exact throughout a run if and only if no session was put under an id that
      another user's set still held at that moment. */
  lemma ListsAreExactExactlyWhen(run: seq<Event>, ttl: int)
    requires ttl > 0
    ensures (forall k, u | 0 <= k <= |run| :: Exact(After(run[..k], ttl), u))
            <==> (forall k | 0 <= k < |run| :: run[k].Putting? ==> !HeldByAnother(After(run[..k], ttl), run[k].meta))
  {
    hide Exact, HeldByAnother;
    if forall k | 0 <= k < |run| :: run[k].Putting? ==> !HeldByAnother(After(run[..k], ttl), run[k].meta) {
      forall k, u | 0 <= k <= |run| ensures Exact(After(run[..k], ttl), u) {
        var p := run[..k];
        forall i | 0 <= i < |p| ensures p[..i] == run[..i] && p[i] == run[i] {}
        RunClean(p, ttl);
        RunIndexed(p, ttl);
        CleanIsExact(After(p, ttl), u);
      }
    } else {
      var k :| 0 <= k < |run| && run[k].Putting? && HeldByAnother(After(run[..k], ttl), run[k].meta);
      var u := NotExact(run, ttl, k);
      assert !Exact(After(run[..k + 1], ttl), u);
    }
  }

  lemma NotExact(run: seq<Event>, ttl: int, k: nat) returns (u: UserId)
    requires ttl > 0 && k < |run| && run[k].Putting? && HeldByAnother(After(run[..k], ttl), run[k].meta)
    ensures !Exact(After(run[..k + 1], ttl), u)
  {
    var s := After(run[..k], ttl);
    u :| u != run[k].meta.userId && run[k].meta.id in Members(s, u);
    HeldShows(s, run[k].meta, ttl, u);
    assert run[..k + 1][..k] == run[..k];
  }

  // ---------------------------------------------------------------- ids that keep their owner

  predicate KeepOwners(run: seq<Event>) {
    forall i, j | 0 <= i < |run| && 0 <= j < |run| && run[i].Putting? && run[j].Putting? ::
      run[i].meta.id == run[j].meta.id ==> run[i].meta.userId == run[j].meta.userId
  }

  ghost predicate PutFor(run: seq<Event>, u: UserId, id: SessionId) {
    exists i | 0 <= i < |run| :: run[i].Putting? && run[i].meta.id == id && run[i].meta.userId == u
  }

  lemma {:induction false} MembersWerePut(run: seq<Event>, ttl: int, u: UserId, id: SessionId)
    requires id in Members(After(run, ttl), u)
    ensures PutFor(run, u, id)
  {
    hide PutFor;
    if run != [] {
      var p, e := run[..|run| - 1], run[|run| - 1];
      if e.Putting? && e.meta.id == id && e.meta.userId == u {
        PutHere(run, u, id, |run| - 1);
      } else {
        assert id in Members(After(p, ttl), u);
        MembersWerePut(p, ttl, u, id);
        PutBefore(run, u, id);
      }
    }
  }

  lemma PutHere(run: seq<Event>, u: UserId, id: SessionId, i: nat)
    requires i < |run| && run[i].Putting? && run[i].meta.id == id && run[i].meta.userId == u
    ensures PutFor(run, u, id)
  {}

  lemma PutBefore(run: seq<Event>, u: UserId, id: SessionId)
    requires run != [] && PutFor(run[..|run| - 1], u, id)
    ensures PutFor(run, u, id)
  {}

  /** If no id ever changed owner, every list is exact. */
  lemma OwnersKeptListsExact(run: seq<Event>, ttl: int, u: UserId)
    requires ttl > 0 && KeepOwners(run)
    ensures Exact(After(run, ttl), u)
  {
    hide Exact;
    forall k | 0 <= k < |run| && run[k].Putting? ensures !HeldByAnother(After(run[..k], ttl), run[k].meta) {
      var s, meta := After(run[..k], ttl), run[k].meta;
      if v :| v != meta.userId && meta.id in Members(s, v) {
        MembersWerePut(run[..k], ttl, v, meta.id);
      }
    }
    ListsAreExactExactlyWhen(run, ttl);
    assert run[..|run|] == run;
  }

  /** Refusing a put while the id is another user's live session, as the gateway's registry does, is
      not enough: here the old session has expired, but its id is still in the set. */
  lemma ExpiredIdStaysInSet(ttl: int, a: SessionId, b: SessionId, u: UserId, v: UserId, dir: string, addr: string)
    requires ttl > 1 && a != b && u != v
    ensures var run := [Putting(Meta(a, u, dir, addr)), Waiting(1), Putting(Meta(b, u, dir, addr)), Waiting(ttl - 1)];
            var theirs := Meta(a, v, dir, addr);
            Get(After(run, ttl), a).None? && Listed(After(run + [Putting(theirs)], ttl), u, theirs)
  {
    hide After;
    var mine, other, theirs := Meta(a, u, dir, addr), Meta(b, u, dir, addr), Meta(a, v, dir, addr);
    var run := [Putting(mine), Waiting(1), Putting(other), Waiting(ttl - 1)];
    Plays(run, ttl, 0);
    var s1 := After(run[..1], ttl);
    assert Members(s1, u) == {a};
    assert s1.data[SessionKey(a)] == Entry(Session(mine), Some(ttl));
    Plays(run, ttl, 1);
    Plays(run, ttl, 2);
    var s3 := After(run[..3], ttl);
    assert Members(s3, u) == {a, b};
    assert s3.data[SessionKey(a)] == Entry(Session(mine), Some(ttl));
    Plays(run, ttl, 3);
    assert run[..4] == run;
    var s4 := After(run, ttl);
    assert Members(s4, u) == {a, b};
    Plays(run + [Putting(theirs)], ttl, 4);
    assert (run + [Putting(theirs)])[..4] == run;
    assert (run + [Putting(theirs)])[..5] == run + [Putting(theirs)];
    HeldShows(s4, theirs, ttl, u);
  }

  lemma Plays(run: seq<Event>, ttl: int, k: nat)
    requires k < |run|
    ensures After(run[..k + 1], ttl) == Apply(After(run[..k], ttl), run[k], ttl)
    ensures After(run[..0], ttl) == Store(map[], 0)
  {
    assert run[..k + 1][..k] == run[..k];
  }
}

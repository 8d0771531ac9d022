/** Listing and deleting sessions as the separate commands they are, interleaved with each other, with
    registrations and with the clock. */
module SessionRaces {
  import opened Redis
  import opened Wrappers
  import opened Sessions

  type TaskId = nat

  /** A `List` after SMEMBERS and after MGET, a `Delete` after GET; and either one when it has ended. */
  datatype Task =
    | Asked(user: UserId, ids: set<SessionId>)
    | Read(user: UserId, stale: set<SessionId>)
    | Found(id: SessionId, meta: Option<Meta>)
    | Ended

  datatype State = State(store: KeyStore, tasks: map<TaskId, Task>)

  datatype Command =
    | PutAll(meta: Meta)
    | Wait(seconds: nat)
    | Smembers(task: TaskId, user: UserId)
    | Mget(task: TaskId)
    | Srem(task: TaskId)
    | Look(task: TaskId, id: SessionId)
    | Drop(task: TaskId)

  const INITIAL := State(Store(map[], 0), map[])

  predicate Enabled(s: State, c: Command) {
    match c
    case PutAll(_) => true
    case Wait(_) => true
    case Smembers(t, _) => t !in s.tasks
    case Mget(t) => t in s.tasks && s.tasks[t].Asked?
    case Srem(t) => t in s.tasks && s.tasks[t].Read?
    case Look(t, _) => t !in s.tasks
    case Drop(t) => t in s.tasks && s.tasks[t].Found?
  }

  /** The ids whose session the MGET of a list found gone. */
  function Gone(s: KeyStore, ids: set<SessionId>): set<SessionId> {
    set id | id in ids && Get(s, id).None?
  }

  function Apply(s: State, c: Command, ttl: int): State {
    if !Enabled(s, c) then s else
    match c
    case PutAll(meta) => s.(store := Put(s.store, meta, ttl))
    case Wait(seconds) => s.(store := s.store.Advance(seconds))
    case Smembers(t, u) =>
      var ids := Members(s.store, u);
      s.(tasks := s.tasks[t := if ids == {} then Ended else Asked(u, ids)])
    case Mget(t) =>
      var stale := Gone(s.store, s.tasks[t].ids);
      s.(tasks := s.tasks[t := if stale == {} then Ended else Read(s.tasks[t].user, stale)])
    case Srem(t) =>
      State(Remove(s.store, s.tasks[t].user, s.tasks[t].stale), s.tasks[t := Ended])
    case Look(t, id) => s.(tasks := s.tasks[t := Found(id, Get(s.store, id))])
    case Drop(t) =>
      var gone := s.store.Del(SessionKey(s.tasks[t].id));
      var meta := s.tasks[t].meta;
      State(if meta.Some? then Remove(gone, meta.value.userId, {s.tasks[t].id}) else gone, s.tasks[t := Ended])
  }

  function After(run: seq<Command>, ttl: int): State {
    if run == [] then INITIAL else Apply(After(run[..|run| - 1], ttl), run[|run| - 1], ttl)
  }

  // ---------------------------------------------------------------- one removal

  /** Every live session of every user would be listed. */
  ghost predicate Complete(s: KeyStore) { forall u, meta :: Owns(s, u, meta) ==> Listed(s, u, meta) }

  /** None of these ids is now a live session of this user. */
  predicate Harmless(s: KeyStore, u: UserId, ids: set<SessionId>) {
    forall id | id in ids :: Get(s, id).None? || Get(s, id).value.userId != u
  }

  ghost predicate Keyed(s: KeyStore) { forall id | Get(s, id).Some? :: Get(s, id).value.id == id }

  lemma IndexedIsComplete(s: KeyStore)
    requires Indexed(s)
    ensures Complete(s)
  {
    forall u, meta | Owns(s, u, meta) ensures Listed(s, u, meta) {
      assert HeldByOwner(s, meta.id);
    }
  }

  lemma HarmfulHides(s: KeyStore, u: UserId, ids: set<SessionId>)
    requires Keyed(s) && !Harmless(s, u, ids)
    ensures !Complete(Remove(s, u, ids))
  {
    var t := Remove(s, u, ids);
    var id :| id in ids && Get(s, id).Some? && Get(s, id).value.userId == u;
    assert forall i :: Get(t, i) == Get(s, i);
    assert id !in Members(t, u);
    assert Owns(t, u, Get(s, id).value);
  }

  /** Removing ids from a user's set leaves every live session listed if and only if none of them is a
      live session of that user at that moment. */
  lemma RemovalKeepsExactly(s: KeyStore, u: UserId, ids: set<SessionId>)
    requires Indexed(s)
    ensures Complete(Remove(s, u, ids)) <==> Harmless(s, u, ids)
  {
    if Harmless(s, u, ids) {
      HarmlessKeeps(s, u, ids);
      IndexedIsComplete(Remove(s, u, ids));
    } else {
      HarmfulHides(s, u, ids);
    }
  }

  lemma HarmlessKeeps(s: KeyStore, u: UserId, ids: set<SessionId>)
    requires Indexed(s) && Harmless(s, u, ids)
    ensures Indexed(Remove(s, u, ids))
  {
    forall id | s.Live(SessionKey(id)) && id in ids ensures s.data[SessionKey(id)].value.meta.userId != u {
      assert Get(s, id) == Some(s.data[SessionKey(id)].value.meta);
    }
    RemoveIndexed(s, Remove(s, u, ids), u, ids);
  }

  // ---------------------------------------------------------------- whole runs

  /** At command k, if it is a list's removal, nothing it removes is a live session of that user. */
  predicate RemovesOnlyDead(run: seq<Command>, ttl: int, k: nat)
    requires k < |run|
  {
    var s, c := After(run[..k], ttl), run[k];
    c.Srem? && Enabled(s, c) ==> Harmless(s.store, s.tasks[c.task].user, s.tasks[c.task].stale)
  }

  lemma ApplyIndexed(s: State, c: Command, ttl: int)
    requires Indexed(s.store) && Capped(s.store, ttl) && ttl > 0
    requires c.Srem? && Enabled(s, c) ==> Harmless(s.store, s.tasks[c.task].user, s.tasks[c.task].stale)
    ensures Indexed(Apply(s, c, ttl).store)
  {
    hide Indexed;
    match c
    case PutAll(meta) =>
      Sessions.ApplyIndexed(s.store, Putting(meta), ttl);
    case Wait(seconds) =>
      Sessions.ApplyIndexed(s.store, Waiting(seconds), ttl);
    case Srem(t) =>
      if Enabled(s, c) {
        HarmlessKeeps(s.store, s.tasks[t].user, s.tasks[t].stale);
      }
    case Drop(t) =>
      if Enabled(s, c) {
        DropIndexed(s.store, s.tasks[t].id, s.tasks[t].meta);
      }
    case _ =>
  }

  lemma DropIndexed(s: KeyStore, id: SessionId, meta: Option<Meta>)
    requires Indexed(s)
    ensures Indexed(s.Del(SessionKey(id)))
    ensures meta.Some? ==> Indexed(Remove(s.Del(SessionKey(id)), meta.value.userId, {id}))
  {
    var gone := s.Del(SessionKey(id));
    forall i | gone.Live(SessionKey(i)) ensures HeldByOwner(gone, i) {
      assert s.Live(SessionKey(i)) && HeldByOwner(s, i);
    }
    if meta.Some? {
      HarmlessKeeps(gone, meta.value.userId, {id});
    }
  }

  lemma KeyedStep(s: State, c: Command, ttl: int)
    requires Keyed(s.store)
    ensures Keyed(Apply(s, c, ttl).store)
  {
    var t := Apply(s, c, ttl).store;
    forall i | Get(t, i).Some? ensures Get(t, i).value.id == i {
      assert (c.PutAll? && i == c.meta.id && Get(t, i) == Some(c.meta)) || Get(t, i) == Get(s.store, i);
    }
  }

  lemma {:induction false} RunCapped(run: seq<Command>, ttl: int)
    requires ttl > 0
    ensures Capped(After(run, ttl).store, ttl) && Keyed(After(run, ttl).store)
  {
    if run != [] {
      RunCapped(run[..|run| - 1], ttl);
      KeyedStep(After(run[..|run| - 1], ttl), run[|run| - 1], ttl);
    }
  }

  lemma {:induction false} RunIndexed(run: seq<Command>, ttl: int)
    requires ttl > 0
    requires forall k: nat | k < |run| :: RemovesOnlyDead(run, ttl, k)
    ensures Indexed(After(run, ttl).store)
  {
    hide Indexed, Capped, Harmless;
    if run == [] {
      EmptyIndexed();
    } else {
      var p := run[..|run| - 1];
      forall k: nat | k < |p| ensures RemovesOnlyDead(p, ttl, k) {
        assert RemovesOnlyDead(run, ttl, k) && p[..k] == run[..k];
      }
      assert RemovesOnlyDead(run, ttl, |run| - 1);
      RunIndexed(p, ttl);
      RunCapped(p, ttl);
      ApplyIndexed(After(p, ttl), run[|run| - 1], ttl);
    }
  }

  /** However lists, deletions and registrations interleave: every live session is listed at every
      moment if and only if each removal by a list met none of its ids registered again. */
  lemma CompleteExactlyWhen(run: seq<Command>, ttl: int)
    requires ttl > 0
    ensures (forall k: nat | k <= |run| :: Complete(After(run[..k], ttl).store))
            <==> (forall k: nat | k < |run| :: RemovesOnlyDead(run, ttl, k))
  {
    hide Complete, Indexed, Capped;
    if forall k: nat | k < |run| :: RemovesOnlyDead(run, ttl, k) {
      forall k: nat | k <= |run| ensures Complete(After(run[..k], ttl).store) {
        var p := run[..k];
        forall i: nat | i < |p| ensures RemovesOnlyDead(p, ttl, i) {
          assert RemovesOnlyDead(run, ttl, i) && p[..i] == run[..i];
        }
        RunIndexed(p, ttl);
        IndexedIsComplete(After(p, ttl).store);
      }
    } else {
      var k: nat :| k < |run| && !RemovesOnlyDead(run, ttl, k);
      var s := After(run[..k], ttl);
      Plays(run, ttl, k);
      RunCapped(run[..k], ttl);
      HarmfulHides(s.store, s.tasks[run[k].task].user, s.tasks[run[k].task].stale);
    }
  }

  lemma Plays(run: seq<Command>, ttl: int, k: nat)
    requires k < |run|
    ensures After(run[..k + 1], ttl) == Apply(After(run[..k], ttl), run[k], ttl)
    ensures After(run[..0], ttl) == INITIAL
  {
    assert run[..k + 1][..k] == run[..k];
  }

  // ---------------------------------------------------------------- without interruption

  /** A list that nothing interrupts leaves the store as the one-step list does. */
  lemma ListAlone(s: State, t: TaskId, u: UserId, ttl: int)
    requires t !in s.tasks
    ensures var s1 := Apply(s, Smembers(t, u), ttl);
            var s2 := Apply(s1, Mget(t), ttl);
            Apply(s2, Srem(t), ttl).store == Pruned(s.store, u) && Apply(s2, Srem(t), ttl).tasks[t] == Ended
  {
    assert Gone(s.store, Members(s.store, u)) == Stale(s.store, u);
  }

  /** So does a deletion. */
  lemma DeleteAlone(s: State, t: TaskId, id: SessionId, ttl: int)
    requires t !in s.tasks
    ensures var s2 := Apply(Apply(s, Look(t, id), ttl), Drop(t), ttl);
            s2.store == Delete(s.store, id) && s2.tasks[t] == Ended
  {}

  // ---------------------------------------------------------------- what a harmful removal takes

  predicate PutSince(run: seq<Command>, i: nat, id: SessionId) {
    exists j | i < j < |run| :: run[j].PutAll? && run[j].meta.id == id
  }

  /** Since event i, this task's MGET, every id it found gone is gone still or has been put again. */
  predicate GoneSince(run: seq<Command>, ttl: int, t: TaskId, i: nat) {
    && i < |run| && run[i] == Mget(t)
    && var s := After(run, ttl);
    && t in s.tasks && s.tasks[t].Read?
    && forall id | id in s.tasks[t].stale :: Get(s.store, id).None? || PutSince(run, i, id)
  }

  lemma GoneStep(run: seq<Command>, ttl: int, c: Command, t: TaskId, i: nat)
    requires GoneSince(run, ttl, t, i) && c != Srem(t)
    ensures GoneSince(run + [c], ttl, t, i)
  {
    var r := run + [c];
    assert r[..|run|] == run;
    var s, s' := After(run, ttl), After(r, ttl);
    assert s' == Apply(s, c, ttl) && s'.tasks[t] == s.tasks[t];
    forall id | id in s.tasks[t].stale ensures Get(s'.store, id).None? || PutSince(r, i, id) {
      if PutSince(run, i, id) {
        var j :| i < j < |run| && run[j].PutAll? && run[j].meta.id == id;
        assert r[j] == run[j];
      } else if c.PutAll? && c.meta.id == id {
        assert r[|run|] == c;
      } else {
        StaysGone(s, c, id, ttl);
      }
    }
  }

  lemma StaysGone(s: State, c: Command, id: SessionId, ttl: int)
    requires Get(s.store, id).None? && !(c.PutAll? && c.meta.id == id)
    ensures Get(Apply(s, c, ttl).store, id).None?
  {}

  /** A task that has read was given its ids by an MGET of its own. */
  lemma {:induction false} ReadWasGone(run: seq<Command>, ttl: int, t: TaskId) returns (i: nat)
    requires t in After(run, ttl).tasks && After(run, ttl).tasks[t].Read?
    ensures GoneSince(run, ttl, t, i)
  {
    var p, c := run[..|run| - 1], run[|run| - 1];
    assert run == p + [c];
    var s := After(p, ttl);
    if t in s.tasks && s.tasks[t].Read? {
      i := ReadWasGone(p, ttl, t);
      GoneStep(p, ttl, c, t, i);
    } else {
      i := |p|;
    }
  }

  /** A removal by a list takes a live session out of the index only if that session was registered again
      after the list had read it as gone. */
  lemma HarmNeedsPut(run: seq<Command>, ttl: int, k: nat)
    requires k < |run| && !RemovesOnlyDead(run, ttl, k)
    ensures exists i: nat, id :: i < k && run[i] == Mget(run[k].task) && PutSince(run[..k], i, id)
  {
    var s := After(run[..k], ttl);
    var t := run[k].task;
    var i := ReadWasGone(run[..k], ttl, t);
    var id :| id in s.tasks[t].stale && Get(s.store, id).Some? && Get(s.store, id).value.userId == s.tasks[t].user;
    assert PutSince(run[..k], i, id) && run[..k][i] == run[i];
  }

  // ---------------------------------------------------------------- a race

  /** One session keeps the set alive while another expires; a list reads both; the expired one is
      registered again; the list removes it. */
  function Race(mine: Meta, other: Meta, ttl: int): (run: seq<Command>)
    requires ttl > 1
    ensures |run| == 8
  {
    [PutAll(mine), Wait(1), PutAll(other), Wait(ttl - 1), Smembers(0, mine.userId), Mget(0), PutAll(mine), Srem(0)]
  }

  lemma BeforeRace(mine: Meta, other: Meta, ttl: int)
    requires ttl > 1 && mine.id != other.id && mine.userId == other.userId
    ensures var s := After(Race(mine, other, ttl)[..4], ttl);
            && s.tasks == map[] && Members(s.store, mine.userId) == {mine.id, other.id}
            && Get(s.store, mine.id) == None && Get(s.store, other.id) == Some(other)
  {
    hide After;
    var run := Race(mine, other, ttl);
    Plays(run, ttl, 0);
    Plays(run, ttl, 1);
    Plays(run, ttl, 2);
    var s3 := After(run[..3], ttl).store;
    assert Members(s3, mine.userId) == {mine.id, other.id};
    assert s3.data[SessionKey(mine.id)].expiresAt == Some(ttl);
    Plays(run, ttl, 3);
  }

  /** The race can happen: a live session drops out of its owner's list. */
  lemma RaceHidesSession(mine: Meta, other: Meta, ttl: int)
    requires ttl > 1 && mine.id != other.id && mine.userId == other.userId
    ensures var s := After(Race(mine, other, ttl), ttl).store;
            Owns(s, mine.userId, mine) && !Listed(s, mine.userId, mine)
  {
    hide After;
    var run := Race(mine, other, ttl);
    BeforeRace(mine, other, ttl);
    Plays(run, ttl, 4);
    Plays(run, ttl, 5);
    var s4, s6 := After(run[..4], ttl).store, After(run[..6], ttl);
    assert Gone(s4, {mine.id, other.id}) == {mine.id};
    assert s6 == State(s4, map[0 := Read(mine.userId, {mine.id})]);
    Plays(run, ttl, 6);
    Plays(run, ttl, 7);
    assert run[..8] == run;
    var s := After(run, ttl).store;
    assert Members(s, mine.userId) == {other.id};
    assert Get(s, mine.id) == Some(mine) && Get(s, other.id) == Some(other);
  }
}

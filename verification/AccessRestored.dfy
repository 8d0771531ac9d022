/** How long a denial outlives the webhook's change of mind. */
module AccessRestored {
  import opened Redis
  import opened Wrappers
  import opened Authorization
  import opened AccessTime

  predicate SaysYes(reply: Option<Reply>) { reply.Some? && reply.value.allowed == Some(true) }

  /** From time `from` on the webhook can be reached and allows this user. */
  predicate AllowsFrom(run: seq<Moment>, cfg: Config, uid: string, from: int) {
    forall k | 0 <= k < |run| ::
      run[k].Asked? && run[k].uid == uid && StoreAfter(run[..k], cfg).now >= from ==> SaysYes(run[k].reply)
  }

  /** The generation is a number, and no denial of this user lives until `limit`. */
  ghost predicate NoBounded(store: Strings, uid: string, limit: int) {
    && (GEN in store.data ==> exists n: nat :: store.data[GEN].value == String(n))
    && forall n: nat | DecisionKey(String(n), uid) in store.data ::
         var e := store.data[DecisionKey(String(n), uid)];
         e.value != "1" ==> e.expiresAt.Some? && e.expiresAt.value < limit
  }

  lemma GenerationKnown(store: Strings, uid: string, limit: int)
    requires NoBounded(store, uid, limit)
    ensures exists n: nat :: Generation(store) == String(n)
  {
    assert String(0) == "0";
  }

  lemma BoundedByAsking(store: Strings, cfg: Config, uid: string, from: int, who: string, reply: Option<Reply>)
    requires NoBounded(store, uid, from + cfg.deniedTtl)
    requires who == uid && store.now >= from ==> SaysYes(reply)
    ensures NoBounded(Next(store, Asked(who, reply), cfg), uid, from + cfg.deniedTtl)
  {
    hide Alone, Next;
    VerdictIs(store, who, reply, cfg);
    GenerationKnown(store, uid, from + cfg.deniedTtl);
    var g: nat :| Generation(store) == String(g);
    var after := Next(store, Asked(who, reply), cfg);
    KeysDiffer(g, who, g, who);
    forall n: nat | DecisionKey(String(n), uid) in after.data && after.data[DecisionKey(String(n), uid)].value != "1"
      ensures var e := after.data[DecisionKey(String(n), uid)];
              e.expiresAt.Some? && e.expiresAt.value < from + cfg.deniedTtl
    {
      KeysDiffer(n, uid, g, who);
    }
  }

  lemma BoundedByOthers(store: Strings, cfg: Config, uid: string, limit: int, m: Moment)
    requires NoBounded(store, uid, limit) && !m.Asked?
    ensures NoBounded(Next(store, m, cfg), uid, limit)
  {
    match m
    case Passed(_) =>
    case EvictedOne(who) =>
      var gen := Generation(store);
      assert Alone(Evict(who), Enter, store, cfg, None) == Alone(Evict(who), HasGen(gen), store, cfg, None);
    case EvictedAll =>
      forall n: nat ensures DecisionKey(String(n), uid) != GEN {
        KeysDiffer(n, uid, n, uid);
      }
  }

  lemma {:induction false} RunNoBounded(run: seq<Moment>, cfg: Config, uid: string, from: int)
    requires AllowsFrom(run, cfg, uid, from)
    ensures NoBounded(StoreAfter(run, cfg), uid, from + cfg.deniedTtl)
  {
    hide Next, SaysYes, NoBounded;
    if run == [] {
      NothingBounded(uid, from + cfg.deniedTtl);
    } else {
      var p, m := run[..|run| - 1], run[|run| - 1];
      forall k | 0 <= k < |p| ensures p[..k] == run[..k] && p[k] == run[k] {}
      RunNoBounded(p, cfg, uid, from);
      if m.Asked? {
        BoundedByAsking(StoreAfter(p, cfg), cfg, uid, from, m.uid, m.reply);
      } else {
        BoundedByOthers(StoreAfter(p, cfg), cfg, uid, from + cfg.deniedTtl, m);
      }
    }
  }

  lemma NothingBounded(uid: string, limit: int)
    ensures NoBounded(Store(map[], 0), uid, limit)
  {}

  /** Once the cached denials have run out, every check allows. */
  lemma AllowedWhenCacheEnds(run: seq<Moment>, cfg: Config, uid: string, from: int, reply: Option<Reply>)
    requires AllowsFrom(run, cfg, uid, from) && SaysYes(reply)
    requires StoreAfter(run, cfg).now >= from + cfg.deniedTtl - 1
    ensures Verdict(StoreAfter(run, cfg), uid, reply, cfg).allowed
  {
    hide Alone, Next, StoreAfter;
    var s := StoreAfter(run, cfg);
    RunNoBounded(run, cfg, uid, from);
    VerdictIs(s, uid, reply, cfg);
    GenerationKnown(s, uid, from + cfg.deniedTtl);
    var n: nat :| Generation(s) == String(n);
  }

  /** From d seconds after the webhook began to allow the user, every check allows. */
  ghost predicate ChecksAllowAfter(cfg: Config, uid: string, d: int) {
    forall run, from: int, reply |
      AllowsFrom(run, cfg, uid, from) && SaysYes(reply) && StoreAfter(run, cfg).now >= from + d ::
      Verdict(StoreAfter(run, cfg), uid, reply, cfg).allowed
  }

  /** A second less than the time a denial is cached for, and no less than that. */
  lemma ChecksAllowExactly(cfg: Config, uid: string, d: int)
    requires cfg.deniedTtl >= 1
    ensures ChecksAllowAfter(cfg, uid, d) <==> cfg.deniedTtl - 1 <= d
  {
    hide Alone, Next, StoreAfter, Verdict, SaysYes, AllowsFrom;
    if cfg.deniedTtl - 1 <= d {
      forall run, from: int, reply |
        AllowsFrom(run, cfg, uid, from) && SaysYes(reply) && StoreAfter(run, cfg).now >= from + d
        ensures Verdict(StoreAfter(run, cfg), uid, reply, cfg).allowed
      {
        AllowedWhenCacheEnds(run, cfg, uid, from, reply);
      }
    } else {
      StillDenied(cfg, uid);
      var run := [Asked(uid, NO), Passed(cfg.deniedTtl - 1)];
      assert !ChecksAllowAfter(cfg, uid, d);
    }
  }

  /** A check at time 0 is denied; the webhook allows from time 1 on; a second check asks one second
      before the cached denial ends. */
  lemma StillDenied(cfg: Config, uid: string)
    requires cfg.deniedTtl >= 1
    ensures var run := [Asked(uid, NO), Passed(cfg.deniedTtl - 1)];
            && AllowsFrom(run, cfg, uid, 1) && SaysYes(YES)
            && StoreAfter(run, cfg).now == cfg.deniedTtl - 1
            && !Verdict(StoreAfter(run, cfg), uid, YES, cfg).allowed
  {
    hide Alone, Next, StoreAfter, Verdict, DecisionKey;
    var run := [Asked(uid, NO), Passed(cfg.deniedTtl - 1)];
    var key := DecisionKey("0", uid);
    var a := map[key := Entry("0", Some(cfg.deniedTtl))];
    assert String(0) == "0";
    KeysDiffer(0, uid, 0, uid);
    Unfold(run, cfg, uid, 0);
    assert StoreAfter(run[..1], cfg) == Store(a, 0);
    Unfold(run, cfg, uid, 1);
    assert run[..2] == run;
    VerdictIs(StoreAfter(run, cfg), uid, YES, cfg);
  }
}

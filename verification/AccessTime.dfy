/** The access checks as methods of one object, and how long an open stream outlives the webhook's
    "no" when each check is instantaneous. */
module AccessTime {
  import opened Redis
  import opened Wrappers
  import opened Authorization

  function Rank(pc: Pc): nat {
    match pc
    case Enter => 4
    case HasGen(_) => 3
    case Missed(_) => 2
    case Answered(_, _) => 1
    case _ => 0
  }

  /** A call run alone, command after command. */
  function Alone(op: Op, pc: Pc, store: Strings, cfg: Config, reply: Option<Reply>): (Strings, Pc)
    decreases Rank(pc)
  {
    var (store', pc') := Exec(op, pc, store, cfg, reply);
    if Rank(pc') < Rank(pc) then Alone(op, pc', store', cfg, reply) else (store', pc')
  }

  lemma AloneStep(op: Op, pc: Pc, store: Strings, cfg: Config, reply: Option<Reply>)
    ensures var (store', pc') := Exec(op, pc, store, cfg, reply);
            Rank(pc') < Rank(pc) ==>
              Alone(op, pc, store, cfg, reply) ==
                if Finished(pc') then (store', pc') else Alone(op, pc', store', cfg, reply)
  {
    var (store', pc') := Exec(op, pc, store, cfg, reply);
    if Finished(pc') {
      assert Alone(op, pc', store', cfg, reply) == (store', pc');
    }
  }

  lemma IncrIsInvisible(a: Strings, b: Strings, key: string)
    requires a.Visible() == b.Visible()
    ensures Incr(a, key).Visible() == Incr(b, key).Visible()
  {
    hide ParseInt, String;
    SameVisible(a, b);
    SameVisible(Incr(a, key), Incr(b, key));
  }

  class Authorizer {
    const redis: MockRedis<string, string>
    const cfg: Config
    /** Whether a webhook is configured. */
    const enabled: bool

    constructor (redis: MockRedis<string, string>, cfg: Config, webhookUrl: string)
      ensures this.redis == redis && this.cfg == cfg && this.enabled == (webhookUrl != "")
    {
      this.redis := redis;
      this.cfg := cfg;
      enabled := webhookUrl != "";
    }

    ghost function Outcome(op: Op, reply: Option<Reply>): (Strings, Pc)
      reads redis
    {
      Alone(op, Enter, redis.Model(), cfg, reply)
    }

    method ReadGeneration() returns (gen: string)
      modifies redis
      ensures gen == Generation(old(redis.Model()))
      ensures redis.Model().Visible() == old(redis.Model()).Visible()
    {
      var v := redis.Get(GEN);
      gen := if v.Some? then v.value else "0";
    }

    /** `reply` is what the webhook sends back, should it be asked. Without a webhook everyone is
        allowed and Redis is not read. */
    method Check(uid: string, reply: Option<Reply>) returns (decision: Decision)
      modifies redis
      ensures !enabled ==> decision == ALLOWED && redis.Model() == old(redis.Model())
      ensures enabled ==> Done(decision) == old(Outcome(Op.Check(uid), reply)).1
      ensures enabled ==> redis.Model().Visible() == old(Outcome(Op.Check(uid), reply)).0.Visible()
    {
      if !enabled {
        return ALLOWED;
      }
      hide Alone, Cached, DecisionKey, Heard;
      ghost var op, was := Op.Check(uid), redis.Model();
      var gen := ReadGeneration();
      ghost var first := redis.Model();
      var cached := redis.Get(DecisionKey(gen, uid));
      ghost var second := redis.Model();
      SameVisibleSameAnswers(was, first, DecisionKey(gen, uid));
      AloneStep(op, Enter, was, cfg, reply);
      AloneStep(op, HasGen(gen), was, cfg, reply);
      if cached.Some? {
        if cached.value == "1" {
          return ALLOWED;
        }
        var denied := |cached.value| >= 2 && cached.value[..2] == "0:";
        return if denied then Decision(false, Some(cached.value[2..])) else DENIED;
      }
      AloneStep(op, Missed(gen), was, cfg, reply);
      var answer := Heard(reply);
      if answer.None? {
        return DENIED;
      }
      decision := answer.value;
      AloneStep(op, Answered(gen, decision), was, cfg, reply);
      SetIsInvisible(second, was, DecisionKey(gen, uid), Cached(decision), Some(Ttl(cfg, decision)));
      var _ := redis.Set(DecisionKey(gen, uid), Cached(decision), Some(Ttl(cfg, decision)), false);
    }

    method Evict(uid: string)
      modifies redis
      ensures redis.Model().Visible() == old(Outcome(Op.Evict(uid), None)).0.Visible()
    {
      hide Store.DelAll, DecisionKey, Alone;
      ghost var was := redis.Model();
      var gen := ReadGeneration();
      AloneStep(Op.Evict(uid), Enter, was, cfg, None);
      AloneStep(Op.Evict(uid), HasGen(gen), was, cfg, None);
      DelIsInvisible(redis.Model(), was, DecisionKey(gen, uid));
      DelOne(redis.Model(), DecisionKey(gen, uid));
      var _ := redis.Del([DecisionKey(gen, uid)]);
    }

    method EvictAll()
      modifies redis
      ensures redis.Model().Visible() == old(Outcome(Op.EvictAll, None)).0.Visible()
    {
      hide ParseInt, String, Incr;
      ghost var was := redis.Model();
      AloneStep(Op.EvictAll, Enter, was, cfg, None);
      Increment(GEN);
    }

    method Increment(key: string)
      modifies redis
      ensures redis.Model().Visible() == Incr(old(redis.Model()), key).Visible()
    {
      hide ParseInt, String;
      ghost var was := redis.Model();
      var e := redis.Purge(key);
      ghost var purged := redis.Model();
      assert purged.Live(key) == was.Live(key) by { SameVisibleSameAnswers(purged, was, key); }
      var next := String((if e.Some? then ParseInt(e.value.value) else 0) + 1);
      IncrIsInvisible(purged, was, key);
      redis.data := redis.data[key := Entry(next, if e.Some? then e.value.expiresAt else None)];
      assert was.Live(key) ==> purged.data[key] == was.data[key] by { SameVisibleSameAnswers(purged, was, key); }
      assert redis.Model() == Incr(purged, key);
    }
  }

  // ---------------------------------------------------------------- checks on a clock

  /** A call made and finished at one moment, or time passing. */
  datatype Moment =
    | Asked(uid: string, reply: Option<Reply>)
    | EvictedOne(uid: string)
    | EvictedAll
    | Passed(seconds: nat)

  function Next(store: Strings, m: Moment, cfg: Config): Strings {
    match m
    case Asked(uid, reply) => Alone(Check(uid), Enter, store, cfg, reply).0
    case EvictedOne(uid) => Alone(Evict(uid), Enter, store, cfg, None).0
    case EvictedAll => Alone(EvictAll, Enter, store, cfg, None).0
    case Passed(seconds) => store.Advance(seconds)
  }

  function StoreAfter(run: seq<Moment>, cfg: Config): Strings {
    if run == [] then Store(map[], 0) else Next(StoreAfter(run[..|run| - 1], cfg), run[|run| - 1], cfg)
  }

  function Verdict(store: Strings, uid: string, reply: Option<Reply>, cfg: Config): Decision {
    var pc := Alone(Check(uid), Enter, store, cfg, reply).1;
    if pc.Done? then pc.decision else DENIED
  }

  /** The webhook does not say yes. */
  predicate SaysNo(reply: Option<Reply>) { reply.Some? ==> reply.value.allowed != Some(true) }

  /** From time `from` on the webhook denies this user, or cannot be reached. */
  predicate DeniesFrom(run: seq<Moment>, cfg: Config, uid: string, from: int) {
    forall k | 0 <= k < |run| ::
      run[k].Asked? && run[k].uid == uid && StoreAfter(run[..k], cfg).now >= from ==> SaysNo(run[k].reply)
  }

  /** The verdict in one line: the cached answer if there is one, else the webhook's. */
  lemma VerdictIs(store: Strings, uid: string, reply: Option<Reply>, cfg: Config)
    ensures var key := DecisionKey(Generation(store), uid);
            Verdict(store, uid, reply, cfg) ==
            if store.Live(key) then Uncached(store.data[key].value)
            else if Heard(reply).None? then DENIED else Heard(reply).value
    ensures var key := DecisionKey(Generation(store), uid);
            Next(store, Asked(uid, reply), cfg) ==
            if store.Live(key) || Heard(reply).None? then store
            else store.Set(key, Cached(Heard(reply).value), Some(Ttl(cfg, Heard(reply).value)))
  {
    hide Alone, Cached, DecisionKey, Heard;
    var op, gen := Check(uid), Generation(store);
    AloneStep(op, Enter, store, cfg, reply);
    AloneStep(op, HasGen(gen), store, cfg, reply);
    AloneStep(op, Missed(gen), store, cfg, reply);
    if Heard(reply).Some? {
      AloneStep(op, Answered(gen, Heard(reply).value), store, cfg, reply);
    }
  }

  /** The generation is a number, and no "allowed" of this user lives until `limit`. */
  ghost predicate Bounded(store: Strings, uid: string, limit: int) {
    && (GEN in store.data ==> exists n: nat :: store.data[GEN].value == String(n))
    && forall n: nat | DecisionKey(String(n), uid) in store.data ::
         var e := store.data[DecisionKey(String(n), uid)];
         e.value == "1" ==> e.expiresAt.Some? && e.expiresAt.value < limit
  }

  lemma GenerationIsNumber(store: Strings, uid: string, limit: int)
    requires Bounded(store, uid, limit)
    ensures exists n: nat :: Generation(store) == String(n)
  {
    assert String(0) == "0";
  }

  lemma BoundedAsked(store: Strings, cfg: Config, uid: string, from: int, who: string, reply: Option<Reply>)
    requires Bounded(store, uid, from + cfg.allowedTtl)
    requires who == uid && store.now >= from ==> SaysNo(reply)
    ensures Bounded(Next(store, Asked(who, reply), cfg), uid, from + cfg.allowedTtl)
  {
    hide Alone, Next;
    VerdictIs(store, who, reply, cfg);
    GenerationIsNumber(store, uid, from + cfg.allowedTtl);
    var g: nat :| Generation(store) == String(g);
    var after := Next(store, Asked(who, reply), cfg);
    KeysDiffer(g, who, g, who);
    forall n: nat | DecisionKey(String(n), uid) in after.data && after.data[DecisionKey(String(n), uid)].value == "1"
      ensures var e := after.data[DecisionKey(String(n), uid)];
              e.expiresAt.Some? && e.expiresAt.value < from + cfg.allowedTtl
    {
      KeysDiffer(n, uid, g, who);
      if Heard(reply).Some? {
        CacheRoundTrip(Heard(reply).value);
      }
    }
  }

  lemma BoundedOther(store: Strings, cfg: Config, uid: string, limit: int, m: Moment)
    requires Bounded(store, uid, limit) && !m.Asked?
    ensures Bounded(Next(store, m, cfg), uid, limit)
  {
    match m
    case Passed(_) =>
    case EvictedOne(who) =>
      var gen := Generation(store);
      assert Alone(Evict(who), Enter, store, cfg, None) == Alone(Evict(who), HasGen(gen), store, cfg, None);
    case EvictedAll =>
      forall n: nat ensures DecisionKey(String(n), uid) != GEN {
        KeysDiffer(n, uid, n, uid);
      }
  }

  lemma {:induction false} RunBounded(run: seq<Moment>, cfg: Config, uid: string, from: int)
    requires DeniesFrom(run, cfg, uid, from)
    ensures Bounded(StoreAfter(run, cfg), uid, from + cfg.allowedTtl)
  {
    hide Next, SaysNo, Bounded;
    if run == [] {
      EmptyBounded(uid, from + cfg.allowedTtl);
    } else {
      var p, m := run[..|run| - 1], run[|run| - 1];
      forall k | 0 <= k < |p| ensures p[..k] == run[..k] && p[k] == run[k] {}
      RunBounded(p, cfg, uid, from);
      if m.Asked? {
        BoundedAsked(StoreAfter(p, cfg), cfg, uid, from, m.uid, m.reply);
      } else {
        BoundedOther(StoreAfter(p, cfg), cfg, uid, from + cfg.allowedTtl, m);
      }
    }
  }

  lemma EmptyBounded(uid: string, limit: int)
    ensures Bounded(Store(map[], 0), uid, limit)
  {}

  lemma DeniesFromPrefix(run: seq<Moment>, cfg: Config, uid: string, from: int, k: nat)
    requires DeniesFrom(run, cfg, uid, from) && k <= |run|
    ensures DeniesFrom(run[..k], cfg, uid, from)
  {
    hide StoreAfter, SaysNo;
    forall i | 0 <= i < k ensures run[..k][..i] == run[..i] && run[..k][i] == run[i] {}
  }

  /** Once the cached "allowed"s have run out, every check denies. */
  lemma DeniedWhenCacheEnds(run: seq<Moment>, cfg: Config, uid: string, from: int, reply: Option<Reply>)
    requires DeniesFrom(run, cfg, uid, from) && SaysNo(reply)
    requires StoreAfter(run, cfg).now >= from + cfg.allowedTtl - 1
    ensures !Verdict(StoreAfter(run, cfg), uid, reply, cfg).allowed
  {
    hide Alone, Next, StoreAfter;
    var s := StoreAfter(run, cfg);
    RunBounded(run, cfg, uid, from);
    VerdictIs(s, uid, reply, cfg);
    GenerationIsNumber(s, uid, from + cfg.allowedTtl);
    var n: nat :| Generation(s) == String(n);
  }

  /** From d seconds after the webhook began to deny the user, every check denies. */
  ghost predicate ChecksDenyAfter(cfg: Config, uid: string, d: int) {
    forall run, from: int, reply |
      DeniesFrom(run, cfg, uid, from) && SaysNo(reply) && StoreAfter(run, cfg).now >= from + d ::
      !Verdict(StoreAfter(run, cfg), uid, reply, cfg).allowed
  }

  /** A second less than the time an "allowed" is cached for, and no less than that. */
  lemma ChecksDenyExactly(cfg: Config, uid: string, d: int)
    requires cfg.allowedTtl >= 1
    ensures ChecksDenyAfter(cfg, uid, d) <==> cfg.allowedTtl - 1 <= d
  {
    hide Alone, Next, StoreAfter, Verdict, SaysNo, DeniesFrom;
    if cfg.allowedTtl - 1 <= d {
      forall run, from: int, reply |
        DeniesFrom(run, cfg, uid, from) && SaysNo(reply) && StoreAfter(run, cfg).now >= from + d
        ensures !Verdict(StoreAfter(run, cfg), uid, reply, cfg).allowed
      {
        DeniedWhenCacheEnds(run, cfg, uid, from, reply);
      }
    } else {
      StillCached(cfg, uid, 0);
      var run := CachedThenAsked(cfg, uid, 0);
      DeniesFromPrefix(run, cfg, uid, 1, 2);
      assert !ChecksDenyAfter(cfg, uid, d);
    }
  }

  const YES := Some(Reply(Some(true), None))
  const NO := Some(Reply(Some(false), None))

  /** A check at time 0 is allowed; the webhook denies from time 1 on; a second check asks one second
      before the cached answer ends; then some time passes. */
  function CachedThenAsked(cfg: Config, uid: string, delay: nat): (run: seq<Moment>)
    requires cfg.allowedTtl >= 1
    ensures |run| == 4 && run[..2] == [Asked(uid, YES), Passed(cfg.allowedTtl - 1)]
  {
    [Asked(uid, YES), Passed(cfg.allowedTtl - 1), Asked(uid, NO), Passed(delay)]
  }

  lemma StillCached(cfg: Config, uid: string, delay: nat)
    requires cfg.allowedTtl >= 1
    ensures var run := CachedThenAsked(cfg, uid, delay);
            && DeniesFrom(run, cfg, uid, 1) && SaysNo(NO)
            && StoreAfter(run[..2], cfg).now == cfg.allowedTtl - 1
            && Verdict(StoreAfter(run[..2], cfg), uid, NO, cfg).allowed
            && StoreAfter(run, cfg).now == cfg.allowedTtl - 1 + delay
  {
    hide Alone, Next, StoreAfter, Verdict, DecisionKey;
    var run := CachedThenAsked(cfg, uid, delay);
    var key := DecisionKey("0", uid);
    var a := map[key := Entry("1", Some(cfg.allowedTtl))];
    assert String(0) == "0";
    KeysDiffer(0, uid, 0, uid);
    Unfold(run, cfg, uid, 0);
    assert StoreAfter(run[..1], cfg) == Store(a, 0);
    Unfold(run, cfg, uid, 1);
    assert StoreAfter(run[..2], cfg) == Store(a, cfg.allowedTtl - 1);
    Unfold(run, cfg, uid, 2);
    Unfold(run, cfg, uid, 3);
    assert run[..4] == run;
  }

  predicate Refuses(run: seq<Moment>, cfg: Config, k: nat) {
    k < |run| && run[k].Asked? && !Verdict(StoreAfter(run[..k], cfg), run[k].uid, run[k].reply, cfg).allowed
  }

  lemma Unfold(run: seq<Moment>, cfg: Config, uid: string, k: nat)
    requires k < |run| && (run[k].Asked? ==> run[k].uid == uid)
    ensures StoreAfter(run[..0], cfg) == Store(map[], 0)
    ensures var s := StoreAfter(run[..k], cfg);
            var t := StoreAfter(run[..k + 1], cfg);
            var key := DecisionKey(Generation(s), uid);
            && (run[k].Passed? ==> t == s.Advance(run[k].seconds))
            && (run[k].Asked? ==>
                  && Verdict(s, uid, run[k].reply, cfg) ==
                     (if s.Live(key) then Uncached(s.data[key].value)
                      else if Heard(run[k].reply).None? then DENIED else Heard(run[k].reply).value)
                  && t ==
                     (if s.Live(key) || Heard(run[k].reply).None? then s
                      else s.Set(key, Cached(Heard(run[k].reply).value), Some(Ttl(cfg, Heard(run[k].reply).value)))))
  {
    hide Verdict, Alone;
    assert run[..k + 1][..k] == run[..k];
    if run[k].Asked? {
      VerdictIs(StoreAfter(run[..k], cfg), uid, run[k].reply, cfg);
    }
  }
}

/** After an `evictAll`, no check answers with what the webhook said before it. */
module AuthorizationFresh {
  import opened Redis
  import opened Wrappers
  import opened Authorization

  // ---------------------------------------------------------------- the invariant

  /** The webhook said d about this user in event j, when at least n evictions had happened. */
  ghost predicate Origin(run: seq<Event>, cfg: Config, n: nat, uid: string, d: Decision, j: nat) {
    j < |run| && Says(run, cfg, j, uid, d) && Proper(d) && n <= Evictions(run[..j], cfg)
  }

  ghost predicate Remembered(run: seq<Event>, cfg: Config, key: string, value: string) {
    exists n: nat, uid, d, j: nat :: Origin(run, cfg, n, uid, d, j) && key == DecisionKey(String(n), uid)
        && value == Cached(d)
  }

  /** The generation counts the evictions, and never expires. */
  ghost predicate Counting(run: seq<Event>, cfg: Config) {
    var data, n := After(run, cfg).store.data, Evictions(run, cfg);
    if n == 0 then GEN !in data else GEN in data && data[GEN] == Entry(String(n), None)
  }

  ghost predicate Remembering(run: seq<Event>, cfg: Config) {
    var data := After(run, cfg).store.data;
    forall k | k in data && k != GEN :: Remembered(run, cfg, k, data[k].value)
  }

  ghost predicate Past(run: seq<Event>, cfg: Config, gen: string) {
    exists n: nat :: n <= Evictions(run, cfg) && gen == String(n)
  }

  ghost predicate Sourced(run: seq<Event>, cfg: Config, call: Call) {
    match call.pc
    case HasGen(gen) => Past(run, cfg, gen)
    case Missed(gen) => Past(run, cfg, gen)
    case Answered(gen, d) =>
      call.op.Check? && exists n: nat, j: nat :: Origin(run, cfg, n, call.op.uid, d, j) && gen == String(n)
    case _ => true
  }

  ghost predicate AllSourced(run: seq<Event>, cfg: Config) {
    var calls := After(run, cfg).calls;
    forall id | id in calls :: Sourced(run, cfg, calls[id])
  }

  ghost predicate Inv(run: seq<Event>, cfg: Config) {
    Counting(run, cfg) && Remembering(run, cfg) && AllSourced(run, cfg)
  }

  lemma MovesStay(run: seq<Event>, cfg: Config, e: Event, k: nat)
    requires k < |run|
    ensures forall id, call :: Moves(run + [e], cfg, k, id, call) <==> Moves(run, cfg, k, id, call)
    ensures forall uid, d :: Says(run + [e], cfg, k, uid, d) <==> Says(run, cfg, k, uid, d)
    ensures forall id :: Fails(run + [e], cfg, k, id) <==> Fails(run, cfg, k, id)
  {
    assert (run + [e])[..k] == run[..k];
    assert (run + [e])[k] == run[k];
  }

  lemma OriginStays(run: seq<Event>, cfg: Config, e: Event)
    ensures forall n: nat, uid, d, j: nat :: Origin(run, cfg, n, uid, d, j) ==> Origin(run + [e], cfg, n, uid, d, j)
    ensures forall k, v :: Remembered(run, cfg, k, v) ==> Remembered(run + [e], cfg, k, v)
  {
    forall n: nat, uid, d, j: nat | Origin(run, cfg, n, uid, d, j) ensures Origin(run + [e], cfg, n, uid, d, j) {
      MovesStay(run, cfg, e, j);
      assert (run + [e])[..j] == run[..j];
    }
  }

  lemma Snoc(run: seq<Event>, cfg: Config, e: Event)
    ensures After(run + [e], cfg) == Apply(After(run, cfg), e, cfg)
    ensures Evictions(run + [e], cfg) ==
            Evictions(run, cfg) +
            if e.Step? && e.id in After(run, cfg).calls && After(run, cfg).calls[e.id] == Call(EvictAll, Enter)
            then 1 else 0
  {
    var r := run + [e];
    assert r[..|r| - 1] == run && r[|r| - 1] == e && r[..|run|] == run;
    if e.Step? && e.id in After(run, cfg).calls && After(run, cfg).calls[e.id] == Call(EvictAll, Enter) {
      assert Moves(r, cfg, |run|, e.id, Call(EvictAll, Enter));
    }
  }

  lemma SourcedStays(run: seq<Event>, cfg: Config, e: Event, call: Call)
    requires Sourced(run, cfg, call)
    ensures Sourced(run + [e], cfg, call)
  {
    hide Apply, Exec, Origin, Remembered;
    Snoc(run, cfg, e);
    OriginStays(run, cfg, e);
    match call.pc
    case Answered(gen, d) =>
      var n: nat, j: nat :| Origin(run, cfg, n, call.op.uid, d, j) && gen == String(n);
      assert Origin(run + [e], cfg, n, call.op.uid, d, j);
    case _ =>
  }

  lemma CountingStep(run: seq<Event>, cfg: Config, e: Event)
    requires Counting(run, cfg) && AllSourced(run, cfg)
    ensures Counting(run + [e], cfg)
  {
    hide Origin, Remembered;
    Snoc(run, cfg, e);
    var s := After(run, cfg);
    if e.Step? && Enabled(s, e) {
      var call := s.calls[e.id];
      assert Sourced(run, cfg, call);
      ParseString(Evictions(run, cfg));
      if !call.op.EvictAll? && (call.pc.HasGen? || call.pc.Answered?) {
        var n: nat :| call.pc.gen == String(n);
        KeysDiffer(n, call.op.uid, n, call.op.uid);
      }
    }
  }

  lemma RememberingStep(run: seq<Event>, cfg: Config, e: Event)
    requires Inv(run, cfg)
    ensures Remembering(run + [e], cfg)
  {
    hide Origin, Remembered;
    Snoc(run, cfg, e);
    OriginStays(run, cfg, e);
    var s := After(run, cfg);
    if e.Step? && Enabled(s, e) {
      var call := s.calls[e.id];
      assert Sourced(run, cfg, call);
      if call.op.Check? && call.pc.Answered? {
        var gen, d := call.pc.gen, call.pc.decision;
        var n: nat, j: nat :| Origin(run, cfg, n, call.op.uid, d, j) && gen == String(n);
        assert Origin(run + [e], cfg, n, call.op.uid, d, j);
        MakeRemembered(run + [e], cfg, n, call.op.uid, d, j);
      }
    }
  }

  lemma MakeRemembered(run: seq<Event>, cfg: Config, n: nat, uid: string, d: Decision, j: nat)
    requires Origin(run, cfg, n, uid, d, j)
    ensures Remembered(run, cfg, DecisionKey(String(n), uid), Cached(d))
  {}

  /** The answer just given to a check comes from this very event. */
  lemma JustSaid(run: seq<Event>, cfg: Config, e: Event, uid: string, n: nat, d: Decision)
    requires e.Step? && e.id in After(run, cfg).calls
    requires After(run, cfg).calls[e.id] == Call(Check(uid), Missed(String(n)))
    requires n <= Evictions(run, cfg) && Heard(e.reply) == Some(d)
    ensures Origin(run + [e], cfg, n, uid, d, |run|)
  {
    var r := run + [e];
    assert r[..|run|] == run && r[|run|] == e;
    assert Moves(r, cfg, |run|, e.id, Call(Check(uid), Missed(String(n))));
  }

  lemma AllSourcedStep(run: seq<Event>, cfg: Config, e: Event)
    requires Inv(run, cfg)
    ensures AllSourced(run + [e], cfg)
  {
    hide Origin, Remembered, Incr, DecisionKey;
    Snoc(run, cfg, e);
    var s, t := After(run, cfg), After(run + [e], cfg);
    forall id | id in t.calls ensures Sourced(run + [e], cfg, t.calls[id]) {
      if id in s.calls && t.calls[id] == s.calls[id] {
        SourcedStays(run, cfg, e, s.calls[id]);
      } else if e.Step? {
        var call := s.calls[id];
        assert Sourced(run, cfg, call);
        match call.pc
        case Enter =>
          assert Generation(s.store) == String(Evictions(run, cfg));
          assert call.op.EvictAll? || Past(run + [e], cfg, Generation(s.store));
        case HasGen(gen) =>
          if t.calls[id].pc.Missed? {
            SourcedStays(run, cfg, e, call);
          }
        case Missed(gen) =>
          if t.calls[id].pc.Answered? {
            var n: nat :| n <= Evictions(run, cfg) && gen == String(n);
            JustSaid(run, cfg, e, call.op.uid, n, t.calls[id].pc.decision);
          }
        case _ =>
      }
    }
  }

  lemma {:induction false} InvHolds(run: seq<Event>, cfg: Config)
    ensures Inv(run, cfg)
  {
    if run != [] {
      var p, e := run[..|run| - 1], run[|run| - 1];
      assert run == p + [e];
      InvHolds(p, cfg);
      CountingStep(p, cfg, e);
      RememberingStep(p, cfg, e);
      AllSourcedStep(p, cfg, e);
    }
  }

  // ---------------------------------------------------------------- one check, from its first command on

  /** d was said of this user once as many evictions had happened as before event f. */
  ghost predicate SaidSince(run: seq<Event>, cfg: Config, f: nat, uid: string, d: Decision) {
    f <= |run| && exists n: nat, j: nat :: Origin(run, cfg, n, uid, d, j) && n == Evictions(run[..f], cfg)
  }

  ghost predicate FailedSince(run: seq<Event>, cfg: Config, f: nat, id: CallId) {
    exists j :: f <= j < |run| && Fails(run, cfg, j, id)
  }

  ghost predicate Since(run: seq<Event>, cfg: Config, f: nat, id: CallId, uid: string)
    requires f <= |run|
  {
    var gen := String(Evictions(run[..f], cfg));
    && id in After(run, cfg).calls
    && var call := After(run, cfg).calls[id];
    call.op == Check(uid) &&
    match call.pc
    case HasGen(g) => g == gen
    case Missed(g) => g == gen
    case Answered(g, d) => g == gen && SaidSince(run, cfg, f, uid, d)
    case Done(d) => SaidSince(run, cfg, f, uid, d) || (d == DENIED && FailedSince(run, cfg, f, id))
    case _ => false
  }

  lemma SinceStays(run: seq<Event>, cfg: Config, e: Event, f: nat, id: CallId, uid: string)
    requires f <= |run|
    ensures forall d :: SaidSince(run, cfg, f, uid, d) ==> SaidSince(run + [e], cfg, f, uid, d)
    ensures FailedSince(run, cfg, f, id) ==> FailedSince(run + [e], cfg, f, id)
  {
    OriginStays(run, cfg, e);
    assert (run + [e])[..f] == run[..f];
    if FailedSince(run, cfg, f, id) {
      var j :| f <= j < |run| && Fails(run, cfg, j, id);
      MovesStay(run, cfg, e, j);
    }
  }

  /** A cached value was said under the generation in its key. */
  lemma HitWasSaid(run: seq<Event>, cfg: Config, f: nat, uid: string)
    requires Inv(run, cfg) && f <= |run|
    ensures var v := After(run, cfg).store.Get(DecisionKey(String(Evictions(run[..f], cfg)), uid));
            v.Some? ==> SaidSince(run, cfg, f, uid, Uncached(v.value))
  {
    var n := Evictions(run[..f], cfg);
    var key := DecisionKey(String(n), uid);
    var s := After(run, cfg).store;
    if s.Get(key).Some? {
      KeysDiffer(n, uid, n, uid);
      assert Remembered(run, cfg, key, s.data[key].value);
      var m: nat, u, d, j: nat :| Origin(run, cfg, m, u, d, j) && key == DecisionKey(String(m), u)
          && s.data[key].value == Cached(d);
      KeysDiffer(n, uid, m, u);
      CacheRoundTrip(d);
    }
  }

  lemma SinceStep(run: seq<Event>, cfg: Config, e: Event, f: nat, id: CallId, uid: string)
    requires Inv(run, cfg) && f <= |run| && Since(run, cfg, f, id, uid)
    ensures Since(run + [e], cfg, f, id, uid)
  {
    hide Inv, SaidSince, FailedSince, Incr, DecisionKey, Evictions;
    Snoc(run, cfg, e);
    SinceStays(run, cfg, e, f, id, uid);
    assert (run + [e])[..f] == run[..f];
    var s, t := After(run, cfg), After(run + [e], cfg);
    var call := s.calls[id];
    if t.calls[id] != call {
      match call.pc
      case HasGen(gen) =>
        HitWasSaid(run, cfg, f, uid);
      case Missed(gen) =>
        if Heard(e.reply).None? {
          assert FailedSince(run + [e], cfg, f, id) by { OneFailed(run + [e], cfg, f, id, |run|); }
        } else {
          JustAnswered(run, cfg, e, f, uid, Heard(e.reply).value);
        }
      case _ =>
    }
  }

  lemma OneFailed(run: seq<Event>, cfg: Config, f: nat, id: CallId, j: nat)
    requires f <= j < |run| && Fails(run, cfg, j, id)
    ensures FailedSince(run, cfg, f, id)
  {}

  lemma JustAnswered(run: seq<Event>, cfg: Config, e: Event, f: nat, uid: string, d: Decision)
    requires f <= |run| && e.Step? && e.id in After(run, cfg).calls
    requires After(run, cfg).calls[e.id] == Call(Check(uid), Missed(String(Evictions(run[..f], cfg))))
    requires Heard(e.reply) == Some(d)
    ensures SaidSince(run + [e], cfg, f, uid, d)
  {
    EvictionsGrow(run, cfg, f);
    JustSaid(run, cfg, e, uid, Evictions(run[..f], cfg), d);
    assert (run + [e])[..f] == run[..f];
  }

  lemma {:induction false} SinceFirstCommand(run: seq<Event>, cfg: Config, f: nat, id: CallId, uid: string)
    requires f < |run| && Moves(run, cfg, f, id, Call(Check(uid), Enter))
    ensures Since(run, cfg, f, id, uid)
    decreases |run|
  {
    var p, e := run[..|run| - 1], run[|run| - 1];
    assert run == p + [e];
    InvHolds(p, cfg);
    if f == |p| {
      Snoc(p, cfg, e);
      assert run[..f] == p;
    } else {
      MovesStay(p, cfg, e, f);
      SinceFirstCommand(p, cfg, f, id, uid);
      SinceStep(p, cfg, e, f, id, uid);
    }
  }

  // ---------------------------------------------------------------- the claim

  /** A check whose first command follows an `evictAll` answers with what the webhook said of that
      user after the eviction, or denies because its own webhook call failed; whatever other checks,
      begun before the eviction, write to the cache meanwhile. */
  lemma AnswersAreFresh(run: seq<Event>, cfg: Config, e: nat, f: nat, id: CallId, uid: string, d: Decision)
    requires EvictsAll(run, cfg, e) && e < f < |run|
    requires Moves(run, cfg, f, id, Call(Check(uid), Enter))
    requires id in After(run, cfg).calls && After(run, cfg).calls[id].pc == Done(d)
    ensures (exists j :: e < j < |run| && Says(run, cfg, j, uid, d))
            || (d == DENIED && exists j :: e < j < |run| && Fails(run, cfg, j, id))
  {
    SinceFirstCommand(run, cfg, f, id, uid);
    if SaidSince(run, cfg, f, uid, d) {
      var n: nat, j: nat :| Origin(run, cfg, n, uid, d, j) && n == Evictions(run[..f], cfg);
      EvictionCounts(run, cfg, e, f);
      assert e < j by {
        if j <= e {
          EvictionsGrowTo(run, cfg, j, e);
        }
      }
    } else {
      var j :| f <= j < |run| && Fails(run, cfg, j, id);
    }
  }

  lemma EvictionsGrowTo(run: seq<Event>, cfg: Config, j: nat, e: nat)
    requires j <= e <= |run|
    ensures Evictions(run[..j], cfg) <= Evictions(run[..e], cfg)
  {
    EvictionsGrow(run[..e], cfg, j);
    assert run[..e][..j] == run[..j];
  }

  lemma EvictionCounts(run: seq<Event>, cfg: Config, e: nat, f: nat)
    requires EvictsAll(run, cfg, e) && e < f <= |run|
    ensures Evictions(run[..e], cfg) < Evictions(run[..f], cfg)
  {
    var p := run[..e];
    var id :| Moves(run, cfg, e, id, Call(EvictAll, Enter));
    Snoc(p, cfg, run[e]);
    assert run[..e + 1] == p + [run[e]];
    EvictionsGrow(run[..f], cfg, e + 1);
    assert run[..f][..e + 1] == run[..e + 1];
  }

  // ---------------------------------------------------------------- one user

  lemma ZeroKey(uid: string)
    ensures DecisionKey("0", uid) != GEN
  {
    assert String(0) == "0";
    KeysDiffer(0, uid, 0, uid);
  }

  /** A check is asked and answered "yes"; an `evict` of the same user runs; the check caches its
      answer; another check begins. */
  function InFlight(uid: string): (run: seq<Event>)
    ensures |run| == 11
  {
    var yes := Some(Reply(Some(true), None));
    [Start(0, Check(uid)), Step(0, None), Step(0, None), Step(0, yes), Start(1, Evict(uid)), Step(1, None),
     Step(1, None), Step(0, None), Start(2, Check(uid)), Step(2, None), Step(2, None)]
  }

  lemma Plays(run: seq<Event>, cfg: Config, k: nat)
    requires k < |run|
    ensures After(run[..k + 1], cfg) == Apply(After(run[..k], cfg), run[k], cfg)
    ensures After(run[..0], cfg) == INIT
  {
    assert run[..k + 1][..k] == run[..k];
  }

  lemma InFlightAsked(uid: string, cfg: Config)
    ensures var run, op := InFlight(uid), Check(uid);
            && After(run[..3], cfg) == State(Store(map[], 0), map[0 := Call(op, Missed("0"))])
            && After(run[..4], cfg) == State(Store(map[], 0), map[0 := Call(op, Answered("0", ALLOWED))])
  {
    hide After, DecisionKey, String;
    var run, op := InFlight(uid), Check(uid);
    ZeroKey(uid);
    Plays(run, cfg, 0);
    assert After(run[..1], cfg) == State(Store(map[], 0), map[0 := Call(op, Enter)]);
    Plays(run, cfg, 1);
    assert After(run[..2], cfg) == State(Store(map[], 0), map[0 := Call(op, HasGen("0"))]);
    Plays(run, cfg, 2);
    Plays(run, cfg, 3);
  }

  lemma InFlightEvicted(uid: string, cfg: Config)
    ensures var run := InFlight(uid);
            var asked := map[0 := Call(Check(uid), Answered("0", ALLOWED))];
            && After(run[..6], cfg) == State(Store(map[], 0), asked[1 := Call(Evict(uid), HasGen("0"))])
            && After(run[..7], cfg) == State(Store(map[], 0), asked[1 := Call(Evict(uid), Evicted)])
  {
    hide After, DecisionKey, String;
    var run := InFlight(uid);
    var asked := map[0 := Call(Check(uid), Answered("0", ALLOWED))];
    InFlightAsked(uid, cfg);
    Plays(run, cfg, 4);
    assert After(run[..5], cfg) == State(Store(map[], 0), asked[1 := Call(Evict(uid), Enter)]);
    Plays(run, cfg, 5);
    Plays(run, cfg, 6);
  }

  lemma InFlightCached(uid: string, cfg: Config)
    requires cfg.allowedTtl > 0
    ensures var run := InFlight(uid);
            var both := map[0 := Call(Check(uid), Done(ALLOWED)), 1 := Call(Evict(uid), Evicted)];
            var cache := map[DecisionKey("0", uid) := Entry("1", Some(cfg.allowedTtl))];
            && After(run[..8], cfg) == State(Store(cache, 0), both)
            && After(run[..9], cfg) == State(Store(cache, 0), both[2 := Call(Check(uid), Enter)])
            && After(run[..10], cfg) == State(Store(cache, 0), both[2 := Call(Check(uid), HasGen("0"))])
            && After(run, cfg) == State(Store(cache, 0), both[2 := Call(Check(uid), Done(ALLOWED))])
  {
    hide After, DecisionKey, String;
    var run := InFlight(uid);
    var both := map[0 := Call(Check(uid), Done(ALLOWED)), 1 := Call(Evict(uid), Evicted)];
    var cache := map[DecisionKey("0", uid) := Entry("1", Some(cfg.allowedTtl))];
    ZeroKey(uid);
    InFlightEvicted(uid, cfg);
    Plays(run, cfg, 7);
    assert After(run[..8], cfg) == State(Store(cache, 0), both);
    Plays(run, cfg, 8);
    assert After(run[..9], cfg) == State(Store(cache, 0), both[2 := Call(Check(uid), Enter)]);
    Plays(run, cfg, 9);
    assert After(run[..10], cfg) == State(Store(cache, 0), both[2 := Call(Check(uid), HasGen("0"))]);
    Plays(run, cfg, 10);
    assert run[..11] == run;
    assert Uncached("1") == ALLOWED;
  }

  /** `evict(uid)` makes no such promise: a check in flight caches the old answer again, and a check
      begun after the eviction returns it, though the webhook was asked only before. */
  lemma EvictMissesCheckInFlight(uid: string, cfg: Config)
    requires cfg.allowedTtl > 0
    ensures var run := InFlight(uid);
            && Says(run, cfg, 3, uid, ALLOWED)
            && Moves(run, cfg, 6, 1, Call(Evict(uid), HasGen("0")))
            && Moves(run, cfg, 9, 2, Call(Check(uid), Enter))
            && (forall j, d | 6 < j < |run| :: !Says(run, cfg, j, uid, d))
            && 2 in After(run, cfg).calls && After(run, cfg).calls[2].pc == Done(ALLOWED)
  {
    hide After, DecisionKey, String;
    var run := InFlight(uid);
    InFlightAsked(uid, cfg);
    InFlightEvicted(uid, cfg);
    InFlightCached(uid, cfg);
    assert Moves(run, cfg, 3, 0, Call(Check(uid), Missed("0")));
  }
}

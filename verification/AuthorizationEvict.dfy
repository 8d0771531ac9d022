/** When checks are fresh from a moment on, exactly; and what that means for `evict(uid)`. */
module AuthorizationEvict {
  import opened Redis
  import opened Wrappers
  import opened Authorization
  import opened AuthorizationFresh

  /** The webhook said d about this user in event b or later. */
  ghost predicate SaidFrom(run: seq<Event>, cfg: Config, b: nat, uid: string, d: Decision) {
    exists j :: b <= j < |run| && Says(run, cfg, j, uid, d) && Proper(d)
  }

  /** Every check whose first command is event b or a later one answers with what the webhook said from
      then on, or denies because its own webhook call failed. */
  ghost predicate FreshIn(run: seq<Event>, cfg: Config, b: nat, uid: string) {
    forall f: nat, id, d |
      && b <= f < |run| && Moves(run, cfg, f, id, Call(Check(uid), Enter))
      && id in After(run, cfg).calls && After(run, cfg).calls[id].pc == Done(d) ::
      SaidFrom(run, cfg, b, uid, d) || (d == DENIED && FailedSince(run, cfg, b, id))
  }

  /** However the run goes on. */
  ghost predicate FreshFrom(run: seq<Event>, cfg: Config, uid: string) {
    forall more: seq<Event> :: FreshIn(run + more, cfg, |run|, uid)
  }

  /** No answer about this user is cached under the current generation, and no check holds one that it
      is about to cache there. */
  predicate Forgotten(s: State, uid: string) {
    && !s.store.Live(DecisionKey(Generation(s.store), uid))
    && forall id | id in s.calls && s.calls[id].op == Check(uid) && s.calls[id].pc.Answered? ::
         s.calls[id].pc.gen != Generation(s.store)
  }

  // ---------------------------------------------------------------- what is forgotten stays forgotten

  /** What the cache holds under generation n or later was said from event b on, or has expired. */
  ghost predicate CacheFresh(run: seq<Event>, cfg: Config, b: nat, uid: string, n: nat) {
    var s := After(run, cfg).store;
    forall m: nat | n <= m && s.Live(DecisionKey(String(m), uid)) ::
      exists d :: SaidFrom(run, cfg, b, uid, d) && s.data[DecisionKey(String(m), uid)].value == Cached(d)
  }

  ghost predicate HeldFresh(run: seq<Event>, cfg: Config, b: nat, uid: string, n: nat) {
    var calls := After(run, cfg).calls;
    forall id, m: nat |
      n <= m && id in calls && calls[id].op == Check(uid) && calls[id].pc.Answered? && calls[id].pc.gen == String(m) ::
      SaidFrom(run, cfg, b, uid, calls[id].pc.decision)
  }

  lemma GenerationIs(run: seq<Event>, cfg: Config)
    ensures Generation(After(run, cfg).store) == String(Evictions(run, cfg))
  {
    InvHolds(run, cfg);
    assert String(0) == "0";
  }

  lemma NotOfTheFuture(run: seq<Event>, cfg: Config, m: nat, uid: string)
    requires m > Evictions(run, cfg)
    ensures DecisionKey(String(m), uid) !in After(run, cfg).store.data
    ensures forall id | id in After(run, cfg).calls && After(run, cfg).calls[id].op == Check(uid) ::
              After(run, cfg).calls[id].pc.Answered? ==> After(run, cfg).calls[id].pc.gen != String(m)
  {
    InvHolds(run, cfg);
    var s, key := After(run, cfg), DecisionKey(String(m), uid);
    ParseString(m);
    KeysDiffer(m, uid, m, uid);
    if key in s.store.data {
      assert Remembered(run, cfg, key, s.store.data[key].value);
      var n: nat, u, d, j: nat :|
        Origin(run, cfg, n, u, d, j) && key == DecisionKey(String(n), u) && s.store.data[key].value == Cached(d);
      KeysDiffer(m, uid, n, u);
      EvictionsGrow(run, cfg, j);
    }
    forall id | id in s.calls && s.calls[id].op == Check(uid) && s.calls[id].pc.Answered?
      ensures s.calls[id].pc.gen != String(m)
    {
      assert Sourced(run, cfg, s.calls[id]);
      var n: nat, j: nat :| Origin(run, cfg, n, uid, s.calls[id].pc.decision, j) && s.calls[id].pc.gen == String(n);
      EvictionsGrow(run, cfg, j);
      ParseString(n);
    }
  }

  lemma ForgottenIsFresh(run: seq<Event>, cfg: Config, uid: string)
    requires Forgotten(After(run, cfg), uid)
    ensures CacheFresh(run, cfg, |run|, uid, Evictions(run, cfg))
            && HeldFresh(run, cfg, |run|, uid, Evictions(run, cfg))
  {
    hide After, DecisionKey, String;
    var n := Evictions(run, cfg);
    GenerationIs(run, cfg);
    forall m: nat | n < m ensures !After(run, cfg).store.Live(DecisionKey(String(m), uid)) {
      NotOfTheFuture(run, cfg, m, uid);
    }
    var calls := After(run, cfg).calls;
    forall id, m: nat | n <= m && id in calls && calls[id].op == Check(uid) && calls[id].pc.Answered?
      ensures calls[id].pc.gen != String(m)
    {
      if n < m {
        NotOfTheFuture(run, cfg, m, uid);
      }
    }
  }

  lemma SaidStays(run: seq<Event>, cfg: Config, e: Event, b: nat)
    ensures forall uid, d :: SaidFrom(run, cfg, b, uid, d) ==> SaidFrom(run + [e], cfg, b, uid, d)
    ensures forall id :: FailedSince(run, cfg, b, id) ==> FailedSince(run + [e], cfg, b, id)
  {
    forall uid, d | SaidFrom(run, cfg, b, uid, d) ensures SaidFrom(run + [e], cfg, b, uid, d) {
      var j :| b <= j < |run| && Says(run, cfg, j, uid, d);
      MovesStay(run, cfg, e, j);
    }
    forall id | FailedSince(run, cfg, b, id) ensures FailedSince(run + [e], cfg, b, id) {
      var j :| b <= j < |run| && Fails(run, cfg, j, id);
      MovesStay(run, cfg, e, j);
    }
  }

  /** The answer a check has just been given. */
  lemma GivenNow(run: seq<Event>, cfg: Config, e: Event, b: nat, uid: string, gen: string, d: Decision)
    requires b <= |run| && e.Step? && e.id in After(run, cfg).calls
    requires After(run, cfg).calls[e.id] == Call(Check(uid), Missed(gen)) && Heard(e.reply) == Some(d)
    ensures SaidFrom(run + [e], cfg, b, uid, d)
  {
    var r := run + [e];
    assert r[..|run|] == run && r[|run|] == e;
    assert Moves(r, cfg, |run|, e.id, Call(Check(uid), Missed(gen)));
    assert Says(r, cfg, |run|, uid, d);
  }

  lemma FailedNow(run: seq<Event>, cfg: Config, e: Event, b: nat, uid: string, gen: string)
    requires b <= |run| && e.Step? && e.id in After(run, cfg).calls
    requires After(run, cfg).calls[e.id] == Call(Check(uid), Missed(gen)) && Heard(e.reply) == None
    ensures FailedSince(run + [e], cfg, b, e.id)
  {
    var r := run + [e];
    assert r[..|run|] == run && r[|run|] == e;
    assert Moves(r, cfg, |run|, e.id, Call(Check(uid), Missed(gen)));
    OneFailed(r, cfg, b, e.id, |run|);
  }

  lemma HeldStep(run: seq<Event>, cfg: Config, e: Event, b: nat, uid: string, n: nat)
    requires b <= |run| && HeldFresh(run, cfg, b, uid, n)
    ensures HeldFresh(run + [e], cfg, b, uid, n)
  {
    hide SaidFrom, DecisionKey, Incr;
    Snoc(run, cfg, e);
    SaidStays(run, cfg, e, b);
    var s, t := After(run, cfg), After(run + [e], cfg);
    forall id, m: nat |
      && n <= m && id in t.calls && t.calls[id].op == Check(uid) && t.calls[id].pc.Answered?
      && t.calls[id].pc.gen == String(m)
      ensures SaidFrom(run + [e], cfg, b, uid, t.calls[id].pc.decision)
    {
      if !(id in s.calls && t.calls[id] == s.calls[id]) {
        GivenNow(run, cfg, e, b, uid, s.calls[id].pc.gen, t.calls[id].pc.decision);
      }
    }
  }

  lemma CacheStep(run: seq<Event>, cfg: Config, e: Event, b: nat, uid: string, n: nat)
    requires b <= |run| && HeldFresh(run, cfg, b, uid, n) && CacheFresh(run, cfg, b, uid, n)
    ensures CacheFresh(run + [e], cfg, b, uid, n)
  {
    hide SaidFrom;
    Snoc(run, cfg, e);
    SaidStays(run, cfg, e, b);
    InvHolds(run, cfg);
    var s, t := After(run, cfg), After(run + [e], cfg);
    forall m: nat | n <= m && t.store.Live(DecisionKey(String(m), uid))
      ensures exists d ::
                SaidFrom(run + [e], cfg, b, uid, d) && t.store.data[DecisionKey(String(m), uid)].value == Cached(d)
    {
      var key := DecisionKey(String(m), uid);
      KeysDiffer(m, uid, m, uid);
      if s.store.Live(key) && t.store.data[key] == s.store.data[key] {
        var d :| SaidFrom(run, cfg, b, uid, d) && s.store.data[key].value == Cached(d);
      } else {
        WrittenNow(run, cfg, e, uid, m);
        var call := s.calls[e.id];
        assert SaidFrom(run, cfg, b, uid, call.pc.decision);
      }
    }
  }

  /** A key that has changed was written by the check that held its answer. */
  lemma WrittenNow(run: seq<Event>, cfg: Config, e: Event, uid: string, m: nat)
    requires Inv(run, cfg)
    requires var key, s, t := DecisionKey(String(m), uid), After(run, cfg).store, Apply(After(run, cfg), e, cfg).store;
             t.Live(key) && !(s.Live(key) && t.data[key] == s.data[key])
    ensures e.Step? && e.id in After(run, cfg).calls
    ensures var call := After(run, cfg).calls[e.id];
            && call.op == Check(uid) && call.pc.Answered? && call.pc.gen == String(m)
            && Apply(After(run, cfg), e, cfg).store.data[DecisionKey(String(m), uid)].value == Cached(call.pc.decision)
  {
    hide Origin, Remembered;
    var s := After(run, cfg);
    KeysDiffer(m, uid, m, uid);
    assert e.Step? && e.id in s.calls && !Finished(s.calls[e.id].pc);
    var call := s.calls[e.id];
    assert Sourced(run, cfg, call);
    assert call.op.Check? && call.pc.Answered?;
    GenIsNumber(run, cfg, call);
    var g: nat :| call.pc.gen == String(g);
    KeysDiffer(m, uid, g, call.op.uid);
  }

  lemma GenIsNumber(run: seq<Event>, cfg: Config, call: Call)
    requires Sourced(run, cfg, call) && call.pc.Answered?
    ensures exists n: nat :: call.pc.gen == String(n)
  {}

  lemma {:induction false} StaysFresh(run: seq<Event>, cfg: Config, uid: string, more: seq<Event>)
    requires Forgotten(After(run, cfg), uid)
    ensures CacheFresh(run + more, cfg, |run|, uid, Evictions(run, cfg))
    ensures HeldFresh(run + more, cfg, |run|, uid, Evictions(run, cfg))
    decreases |more|
  {
    hide CacheFresh, HeldFresh, Forgotten;
    if more == [] {
      assert run + more == run;
      ForgottenIsFresh(run, cfg, uid);
    } else {
      var before, e := more[..|more| - 1], more[|more| - 1];
      assert run + more == run + before + [e];
      StaysFresh(run, cfg, uid, before);
      CacheStep(run + before, cfg, e, |run|, uid, Evictions(run, cfg));
      HeldStep(run + before, cfg, e, |run|, uid, Evictions(run, cfg));
    }
  }

  // ---------------------------------------------------------------- one check begun since

  /** Where a check can be that began at event f, not before b. */
  ghost predicate BegunSince(run: seq<Event>, cfg: Config, b: nat, n: nat, id: CallId, uid: string) {
    && id in After(run, cfg).calls
    && var call := After(run, cfg).calls[id];
    call.op == Check(uid) &&
    match call.pc
    case HasGen(g) => exists m: nat :: n <= m && g == String(m)
    case Missed(g) => exists m: nat :: n <= m && g == String(m)
    case Answered(g, d) => SaidFrom(run, cfg, b, uid, d)
    case Done(d) => SaidFrom(run, cfg, b, uid, d) || (d == DENIED && FailedSince(run, cfg, b, id))
    case _ => false
  }

  lemma BegunStep(run: seq<Event>, cfg: Config, e: Event, b: nat, n: nat, id: CallId, uid: string)
    requires b <= |run| && CacheFresh(run, cfg, b, uid, n) && BegunSince(run, cfg, b, n, id, uid)
    ensures BegunSince(run + [e], cfg, b, n, id, uid)
  {
    hide SaidFrom, FailedSince, DecisionKey, Incr, String;
    Snoc(run, cfg, e);
    SaidStays(run, cfg, e, b);
    var s, t := After(run, cfg), After(run + [e], cfg);
    var call := s.calls[id];
    if t.calls[id] != call {
      match call.pc
      case HasGen(gen) =>
        if s.store.Live(DecisionKey(gen, uid)) {
          var d :| SaidFrom(run, cfg, b, uid, d) && s.store.data[DecisionKey(gen, uid)].value == Cached(d);
          assert Proper(d) by { SaidIsProper(run, cfg, b, uid, d); }
          CacheRoundTrip(d);
        }
      case Missed(gen) =>
        if Heard(e.reply).None? {
          FailedNow(run, cfg, e, b, uid, gen);
        } else {
          GivenNow(run, cfg, e, b, uid, gen, Heard(e.reply).value);
        }
      case _ =>
    }
  }

  lemma SaidIsProper(run: seq<Event>, cfg: Config, b: nat, uid: string, d: Decision)
    requires SaidFrom(run, cfg, b, uid, d)
    ensures Proper(d)
  {}

  lemma {:induction false} BegunIsFresh(run: seq<Event>, cfg: Config, uid: string, more: seq<Event>, f: nat, id: CallId)
    requires Forgotten(After(run, cfg), uid)
    requires |run| <= f < |run + more| && Moves(run + more, cfg, f, id, Call(Check(uid), Enter))
    ensures BegunSince(run + more, cfg, |run|, Evictions(run, cfg), id, uid)
    decreases |more|
  {
    hide Forgotten, CacheFresh, Moves, Evictions;
    var before, e := more[..|more| - 1], more[|more| - 1];
    var r := run + before;
    assert run + more == r + [e];
    if f == |r| {
      FirstCommand(run, cfg, uid, before, e, id);
    } else {
      MovesStay(r, cfg, e, f);
      BegunIsFresh(run, cfg, uid, before, f, id);
      StaysFresh(run, cfg, uid, before);
      BegunStep(r, cfg, e, |run|, Evictions(run, cfg), id, uid);
    }
  }

  lemma FirstCommand(run: seq<Event>, cfg: Config, uid: string, before: seq<Event>, e: Event, id: CallId)
    requires Moves(run + before + [e], cfg, |run + before|, id, Call(Check(uid), Enter))
    ensures BegunSince(run + before + [e], cfg, |run|, Evictions(run, cfg), id, uid)
  {
    hide String, Evictions;
    var r := run + before;
    assert (r + [e])[..|r|] == r && (r + [e])[|r|] == e;
    Snoc(r, cfg, e);
    GenerationIs(r, cfg);
    EvictionsGrow(r, cfg, |run|);
    assert r[..|run|] == run;
  }

  // ---------------------------------------------------------------- what is not forgotten comes back

  lemma {:induction false} NewId(ids: set<CallId>) returns (id: CallId)
    ensures id !in ids
    ensures forall i | i in ids :: i < id
    decreases |ids|
  {
    if ids == {} {
      id := 0;
    } else {
      var i :| i in ids;
      var rest := ids - {i};
      var j := NewId(rest);
      id := if i < j then j else i + 1;
      assert ids == rest + {i};
    }
  }

  /** A cached answer is returned to the next check, and nobody asks the webhook. */
  lemma LiveComesBack(run: seq<Event>, cfg: Config, uid: string)
    requires After(run, cfg).store.Live(DecisionKey(Generation(After(run, cfg).store), uid))
    ensures !FreshFrom(run, cfg, uid)
  {
    hide DecisionKey;
    var s := After(run, cfg);
    var id := NewId(s.calls.Keys);
    var first, step := Start(id, Check(uid)), Step(id, None);
    var r1, r2, r3 := run + [first], run + [first] + [step], run + [first] + [step] + [step];
    Snoc(run, cfg, first);
    Snoc(r1, cfg, step);
    Snoc(r2, cfg, step);
    var gen := Generation(s.store);
    assert After(r1, cfg) == State(s.store, s.calls[id := Call(Check(uid), Enter)]);
    assert After(r2, cfg) == State(s.store, s.calls[id := Call(Check(uid), HasGen(gen))]);
    var d := Uncached(s.store.data[DecisionKey(gen, uid)].value);
    assert After(r3, cfg).calls[id].pc == Done(d);
    assert r3[..|run| + 1] == r1 && r3[|run| + 1] == step && r3[..|run| + 2] == r2 && r3[|run| + 2] == step;
    assert r3[..|run|] == run && r3[|run|] == first;
    assert Moves(r3, cfg, |run| + 1, id, Call(Check(uid), Enter));
    SilentEvents(r3, cfg, |run|, uid, d, id);
    assert !FreshIn(r3, cfg, |run|, uid);
    assert r3 == run + [first, step, step];
  }

  /** The webhook is not asked in three events of which none is a webhook call. */
  lemma SilentEvents(r: seq<Event>, cfg: Config, b: nat, uid: string, d: Decision, id: CallId)
    requires |r| == b + 3 && r[b].Start? && r[b + 1].Step? && r[b + 2].Step? && r[b + 1].id == id == r[b + 2].id
    requires id in After(r[..b + 1], cfg).calls && After(r[..b + 1], cfg).calls[id].pc.Enter?
    requires id in After(r[..b + 2], cfg).calls && After(r[..b + 2], cfg).calls[id].pc.HasGen?
    ensures !SaidFrom(r, cfg, b, uid, d) && !FailedSince(r, cfg, b, id)
  {
    forall j | b <= j < |r| ensures !Says(r, cfg, j, uid, d) && !Fails(r, cfg, j, id) {
      assert j == b || j == b + 1 || j == b + 2;
    }
  }

  /** An answer a check holds for the current generation is cached next, and comes back then. */
  lemma HeldComesBack(run: seq<Event>, cfg: Config, uid: string, id: CallId)
    requires cfg.allowedTtl > 0 && cfg.deniedTtl > 0
    requires var s := After(run, cfg);
             && id in s.calls && s.calls[id].op == Check(uid) && s.calls[id].pc.Answered?
             && s.calls[id].pc.gen == Generation(s.store)
    ensures !FreshFrom(run, cfg, uid)
  {
    hide FreshIn;
    var e := Step(id, None);
    var r := run + [e];
    var s := After(run, cfg);
    Snoc(run, cfg, e);
    InvHolds(run, cfg);
    GenerationIs(run, cfg);
    KeysDiffer(Evictions(run, cfg), uid, Evictions(run, cfg), uid);
    assert Generation(After(r, cfg).store) == Generation(s.store);
    LiveComesBack(r, cfg, uid);
    var more: seq<Event> :| !FreshIn(r + more, cfg, |r|, uid);
    assert r + more == run + ([e] + more);
    LaterIsWeaker(run, cfg, uid, e, more);
  }

  /** Leaving out an event in which the webhook says nothing. */
  lemma LaterIsWeaker(run: seq<Event>, cfg: Config, uid: string, e: Event, more: seq<Event>)
    requires e.Step? && e.id in After(run, cfg).calls && After(run, cfg).calls[e.id].pc.Answered?
    ensures FreshIn(run + [e] + more, cfg, |run|, uid) ==> FreshIn(run + [e] + more, cfg, |run| + 1, uid)
  {
    var r := run + [e] + more;
    assert r[..|run|] == run && r[|run|] == e;
    forall f: nat, id, d |
      && |run| + 1 <= f < |r| && Moves(r, cfg, f, id, Call(Check(uid), Enter))
      && id in After(r, cfg).calls && After(r, cfg).calls[id].pc == Done(d) && FreshIn(r, cfg, |run|, uid)
      ensures SaidFrom(r, cfg, |run| + 1, uid, d) || (d == DENIED && FailedSince(r, cfg, |run| + 1, id))
    {
      if SaidFrom(r, cfg, |run|, uid, d) {
        var j :| |run| <= j < |r| && Says(r, cfg, j, uid, d) && Proper(d);
        assert j != |run|;
      } else {
        var j :| |run| <= j < |r| && Fails(r, cfg, j, id);
        assert j != |run|;
      }
    }
  }

  // ---------------------------------------------------------------- the exact condition

  /** From a moment on, checks of a user are fresh however the run goes on, if and only if at that moment
      nothing is cached or about to be cached about the user under the current generation. */
  lemma FreshExactlyWhen(run: seq<Event>, cfg: Config, uid: string)
    requires cfg.allowedTtl > 0 && cfg.deniedTtl > 0
    ensures FreshFrom(run, cfg, uid) <==> Forgotten(After(run, cfg), uid)
  {
    hide BegunSince, DecisionKey, Generation;
    var s := After(run, cfg);
    if Forgotten(s, uid) {
      forall more: seq<Event> ensures FreshIn(run + more, cfg, |run|, uid) {
        var r := run + more;
        forall f: nat, id, d |
          && |run| <= f < |r| && Moves(r, cfg, f, id, Call(Check(uid), Enter))
          && id in After(r, cfg).calls && After(r, cfg).calls[id].pc == Done(d)
          ensures SaidFrom(r, cfg, |run|, uid, d) || (d == DENIED && FailedSince(r, cfg, |run|, id))
        {
          BegunIsFresh(run, cfg, uid, more, f, id);
          BegunDone(r, cfg, |run|, Evictions(run, cfg), id, uid, d);
        }
      }
    } else if s.store.Live(DecisionKey(Generation(s.store), uid)) {
      LiveComesBack(run, cfg, uid);
    } else {
      var id :| id in s.calls && s.calls[id].op == Check(uid) && s.calls[id].pc.Answered?
                && s.calls[id].pc.gen == Generation(s.store);
      HeldComesBack(run, cfg, uid, id);
    }
  }

  lemma BegunDone(run: seq<Event>, cfg: Config, b: nat, n: nat, id: CallId, uid: string, d: Decision)
    requires BegunSince(run, cfg, b, n, id, uid) && After(run, cfg).calls[id].pc == Done(d)
    ensures SaidFrom(run, cfg, b, uid, d) || (d == DENIED && FailedSince(run, cfg, b, id))
  {}

  /** Event k is the deletion of an `evict` of this user, which read generation gen. */
  ghost predicate Deletes(run: seq<Event>, cfg: Config, k: nat, uid: string, gen: string) {
    k < |run| && exists id :: Moves(run, cfg, k, id, Call(Evict(uid), HasGen(gen)))
  }

  ghost predicate EndsInEvict(run: seq<Event>, cfg: Config, uid: string, gen: string) {
    run != [] && Deletes(run, cfg, |run| - 1, uid, gen)
  }

  /** An eviction of one user makes checks fresh if and only if no check of the user holds an answer for
      the current generation, and, should the generation have moved since the eviction read it, nothing
      has been cached under the new one. */
  lemma EvictFreshExactlyWhen(run: seq<Event>, cfg: Config, uid: string, gen: string)
    requires cfg.allowedTtl > 0 && cfg.deniedTtl > 0 && EndsInEvict(run, cfg, uid, gen)
    ensures var s := After(run, cfg);
            FreshFrom(run, cfg, uid) <==>
            && (gen == Generation(s.store) || !s.store.Live(DecisionKey(Generation(s.store), uid)))
            && forall id | id in s.calls && s.calls[id].op == Check(uid) && s.calls[id].pc.Answered? ::
                 s.calls[id].pc.gen != Generation(s.store)
  {
    hide FreshFrom;
    FreshExactlyWhen(run, cfg, uid);
    var p, e := run[..|run| - 1], run[|run| - 1];
    assert run == p + [e];
    Snoc(p, cfg, e);
  }

  /** First exclusion: a check in flight. */
  lemma InFlightIsStale(uid: string, cfg: Config)
    requires cfg.allowedTtl > 0 && cfg.deniedTtl > 0
    ensures var run := InFlight(uid)[..7]; EndsInEvict(run, cfg, uid, "0") && !FreshFrom(run, cfg, uid)
  {
    hide FreshFrom;
    var all := InFlight(uid);
    var run := all[..7];
    InFlightEvicted(uid, cfg);
    assert run[..|run| - 1] == all[..6];
    assert Moves(run, cfg, 6, 1, Call(Evict(uid), HasGen("0")));
    EvictFreshExactlyWhen(run, cfg, uid, "0");
    assert After(run, cfg).calls[0] == Call(Check(uid), Answered("0", ALLOWED));
  }

  /** An `evict` reads the generation; everyone is evicted; a check asks and caches under the new
      generation; the `evict` deletes the key of the old one. */
  function Moved(uid: string): (run: seq<Event>)
    ensures |run| == 10
  {
    [Start(0, Evict(uid)), Step(0, None), Start(1, EvictAll), Step(1, None), Start(2, Check(uid)), Step(2, None),
     Step(2, None), Step(2, Some(Reply(Some(true), None))), Step(2, None), Step(0, None)]
  }

  lemma MovedAsked(uid: string, cfg: Config)
    ensures var run := Moved(uid);
            var calls := map[0 := Call(Evict(uid), HasGen("0")), 1 := Call(EvictAll, Evicted)];
            var store := Store(map[GEN := Entry("1", None)], 0);
            After(run[..7], cfg) == State(store, calls[2 := Call(Check(uid), Missed("1"))])
  {
    hide After, DecisionKey;
    var run := Moved(uid);
    var calls := map[0 := Call(Evict(uid), HasGen("0"))];
    var store := Store(map[GEN := Entry("1", None)], 0);
    assert String(1) == "1";
    KeysDiffer(1, uid, 1, uid);
    Plays(run, cfg, 0);
    assert After(run[..1], cfg) == State(Store(map[], 0), map[0 := Call(Evict(uid), Enter)]);
    Plays(run, cfg, 1);
    assert After(run[..2], cfg) == State(Store(map[], 0), calls);
    Plays(run, cfg, 2);
    Plays(run, cfg, 3);
    assert After(run[..4], cfg) == State(store, calls[1 := Call(EvictAll, Evicted)]);
    Plays(run, cfg, 4);
    Plays(run, cfg, 5);
    assert After(run[..6], cfg) ==
           State(store, calls[1 := Call(EvictAll, Evicted)][2 := Call(Check(uid), HasGen("1"))]);
    Plays(run, cfg, 6);
  }

  lemma MovedCached(uid: string, cfg: Config)
    ensures var run := Moved(uid);
            && 0 in After(run[..9], cfg).calls && After(run[..9], cfg).calls[0] == Call(Evict(uid), HasGen("0"))
            && After(run, cfg).store ==
               Store(map[GEN := Entry("1", None), DecisionKey("1", uid) := Entry("1", Some(cfg.allowedTtl))], 0)
  {
    hide After, DecisionKey;
    var run := Moved(uid);
    var calls := map[0 := Call(Evict(uid), HasGen("0")), 1 := Call(EvictAll, Evicted)];
    assert String(0) == "0" && String(1) == "1";
    KeysDiffer(0, uid, 1, uid);
    KeysDiffer(1, uid, 1, uid);
    MovedAsked(uid, cfg);
    Plays(run, cfg, 7);
    assert After(run[..8], cfg).calls[2] == Call(Check(uid), Answered("1", ALLOWED));
    Plays(run, cfg, 8);
    Plays(run, cfg, 9);
    assert run[..10] == run;
  }

  /** Second exclusion: the generation moves between the two commands of the eviction. */
  lemma MovedIsStale(uid: string, cfg: Config)
    requires cfg.allowedTtl > 0 && cfg.deniedTtl > 0
    ensures EndsInEvict(Moved(uid), cfg, uid, "0") && !FreshFrom(Moved(uid), cfg, uid)
  {
    hide FreshFrom, After;
    MovedCached(uid, cfg);
    assert Moves(Moved(uid), cfg, 9, 0, Call(Evict(uid), HasGen("0")));
    EvictFreshExactlyWhen(Moved(uid), cfg, uid, "0");
  }
}

/** An open event stream and the access checks together: the watch re-checks the user every
    allowedTtl, each check instantaneous, until the stream is closed. */
module StreamAccess {
  import opened Authorization
  import opened AccessTime
  import E = EventStream
  import opened Wrappers

  /** `began` is when the watch was started, `ticks` how often its timer has fired. */
  datatype World = World(store: Strings, stream: E.Stream, began: int, ticks: nat)

  /** Anything that happens to the store meanwhile, the tick that is due, or the stream's own events. */
  datatype Action = Elsewhere(m: Moment) | Recheck(reply: Option<Reply>) | OfStream(e: E.Event)

  function Due(w: World, cfg: Config): int { w.began + (w.ticks + 1) * cfg.allowedTtl }

  /** Time does not pass a tick of a timer that is running. */
  predicate Possible(w: World, a: Action, cfg: Config) {
    match a
    case Elsewhere(m) => m.Passed? && !w.stream.stopped ==> w.store.now + m.seconds <= Due(w, cfg)
    case Recheck(_) => !w.stream.stopped && w.store.now == Due(w, cfg)
    case OfStream(e) => !e.TickStart? && !e.TickEnd?
  }

  /** What an action is to the store. */
  function MomentOf(w: World, a: Action, cfg: Config, uid: string): seq<Moment> {
    if !Possible(w, a, cfg) || a.OfStream? then []
    else if a.Recheck? then [Asked(uid, a.reply)]
    else [a.m]
  }

  /** An action that is not possible changes nothing. */
  function Act(w: World, a: Action, cfg: Config, uid: string): World {
    if !Possible(w, a, cfg) then w
    else
      match a
      case Elsewhere(m) => w.(store := Next(w.store, m, cfg))
      case Recheck(reply) =>
        var allowed := Verdict(w.store, uid, reply, cfg).allowed;
        World(Next(w.store, Asked(uid, reply), cfg),
              E.Apply(E.Apply(w.stream, E.TickStart), E.TickEnd(Some(allowed))), w.began, w.ticks + 1)
      case OfStream(e) => w.(stream := E.Apply(w.stream, e))
  }

  /** The stream is opened after `before`, and its watch started. */
  function WorldAfter(before: seq<Moment>, acts: seq<Action>, cfg: Config, uid: string): World {
    if acts == [] then World(StoreAfter(before, cfg), E.OPEN, StoreAfter(before, cfg).now, 0)
    else Act(WorldAfter(before, acts[..|acts| - 1], cfg, uid), acts[|acts| - 1], cfg, uid)
  }

  /** All that happened to the store. */
  function Moments(before: seq<Moment>, acts: seq<Action>, cfg: Config, uid: string): seq<Moment> {
    if acts == [] then before
    else
      var p := acts[..|acts| - 1];
      Moments(before, p, cfg, uid) + MomentOf(WorldAfter(before, p, cfg, uid), acts[|acts| - 1], cfg, uid)
  }

  lemma {:induction false} StoreTracks(before: seq<Moment>, acts: seq<Action>, cfg: Config, uid: string)
    ensures WorldAfter(before, acts, cfg, uid).store == StoreAfter(Moments(before, acts, cfg, uid), cfg)
    ensures before <= Moments(before, acts, cfg, uid)
    ensures WorldAfter(before, acts, cfg, uid).began == StoreAfter(before, cfg).now
  {
    hide Next, Verdict;
    if acts != [] {
      var p, a := acts[..|acts| - 1], acts[|acts| - 1];
      var w, run := WorldAfter(before, p, cfg, uid), Moments(before, p, cfg, uid);
      StoreTracks(before, p, cfg, uid);
      var more := MomentOf(w, a, cfg, uid);
      if more != [] {
        assert (run + more)[..|run + more| - 1] == run;
      } else {
        assert run + more == run;
      }
    }
  }

  /** While the stream is open its watch runs, the next tick is still to come, and every tick so far
      was before the cached answers had run out. */
  predicate OpenOk(w: World, cfg: Config, from: int) {
    && E.Orderly(w.stream) && !w.stream.busy
    && (!w.stream.closed ==>
          && w.store.now <= Due(w, cfg)
          && (w.ticks == 0 || w.began + w.ticks * cfg.allowedTtl < from + cfg.allowedTtl - 1))
  }

  lemma NotPassed(store: Strings, m: Moment, cfg: Config)
    requires !m.Passed?
    ensures Next(store, m, cfg).now == store.now
  {
    hide Alone;
    match m
    case Asked(uid, reply) => VerdictIs(store, uid, reply, cfg);
    case EvictedOne(uid) =>
      AloneStep(Evict(uid), Enter, store, cfg, None);
      AloneStep(Evict(uid), HasGen(Generation(store)), store, cfg, None);
    case EvictedAll => AloneStep(EvictAll, Enter, store, cfg, None);
  }

  lemma TickOk(w: World, cfg: Config, uid: string, from: int, reply: Option<Reply>)
    requires OpenOk(w, cfg, from) && Possible(w, Recheck(reply), cfg) && cfg.allowedTtl >= 1
    requires w.store.now >= from + cfg.allowedTtl - 1 ==> !Verdict(w.store, uid, reply, cfg).allowed
    ensures OpenOk(Act(w, Recheck(reply), cfg, uid), cfg, from)
  {
    hide Next, Verdict;
    NotPassed(w.store, Asked(uid, reply), cfg);
    var began := E.Apply(w.stream, E.TickStart);
    E.StepOrderly(w.stream, E.TickStart);
    E.StepOrderly(began, E.TickEnd(Some(Verdict(w.store, uid, reply, cfg).allowed)));
    assert (w.ticks + 2) * cfg.allowedTtl == (w.ticks + 1) * cfg.allowedTtl + cfg.allowedTtl;
  }

  lemma OtherOk(w: World, cfg: Config, uid: string, from: int, a: Action)
    requires OpenOk(w, cfg, from) && !a.Recheck?
    ensures OpenOk(Act(w, a, cfg, uid), cfg, from)
  {
    hide Next, Verdict;
    match a
    case Elsewhere(m) =>
      if !m.Passed? {
        NotPassed(w.store, m, cfg);
      } else {
        PassedOnly(w.store, m, cfg);
      }
    case OfStream(e) =>
      E.StepOrderly(w.stream, e);
  }

  lemma PassedOnly(store: Strings, m: Moment, cfg: Config)
    requires m.Passed?
    ensures Next(store, m, cfg).now == store.now + m.seconds
  {}

  lemma {:induction false} RunOk(before: seq<Moment>, acts: seq<Action>, cfg: Config, uid: string, from: int)
    requires cfg.allowedTtl >= 1 && DeniesFrom(Moments(before, acts, cfg, uid), cfg, uid, from)
    ensures OpenOk(WorldAfter(before, acts, cfg, uid), cfg, from)
  {
    hide Next, Verdict, Act, Possible, OpenOk, DeniesFrom, StoreAfter;
    if acts == [] {
      StartOk(before, cfg, uid, from);
    } else {
      var p, a := acts[..|acts| - 1], acts[|acts| - 1];
      var w, run := WorldAfter(before, p, cfg, uid), Moments(before, p, cfg, uid);
      var all := Moments(before, acts, cfg, uid);
      StoreTracks(before, p, cfg, uid);
      DeniesFromPrefix(all, cfg, uid, from, |run|);
      assert all[..|run|] == run;
      RunOk(before, p, cfg, uid, from);
      if !a.Recheck? {
        OtherOk(w, cfg, uid, from, a);
      } else if Possible(w, a, cfg) {
        LastSaysNo(run, cfg, uid, from, a.reply, all);
        if w.store.now >= from + cfg.allowedTtl - 1 {
          DeniedWhenCacheEnds(run, cfg, uid, from, a.reply);
        }
        TickOk(w, cfg, uid, from, a.reply);
      } else {
        Impossible(w, a, cfg, uid);
      }
    }
  }

  lemma Impossible(w: World, a: Action, cfg: Config, uid: string)
    requires !Possible(w, a, cfg)
    ensures Act(w, a, cfg, uid) == w
  {}

  lemma LastSaysNo(run: seq<Moment>, cfg: Config, uid: string, from: int, reply: Option<Reply>, all: seq<Moment>)
    requires all == run + [Asked(uid, reply)] && DeniesFrom(all, cfg, uid, from)
    ensures StoreAfter(run, cfg).now >= from ==> SaysNo(reply)
  {
    hide StoreAfter, SaysNo;
    assert all[|run|] == Asked(uid, reply) && all[..|run|] == run;
  }

  lemma StartOk(before: seq<Moment>, cfg: Config, uid: string, from: int)
    requires cfg.allowedTtl >= 1
    ensures OpenOk(WorldAfter(before, [], cfg, uid), cfg, from)
  {
    E.OpenOrderly();
  }

  /** How long a stream can be open: to the end of the first tick that finds no cached answer. A watch
      begun once the webhook denies ends at its first tick. */
  lemma OpenUntil(before: seq<Moment>, acts: seq<Action>, cfg: Config, uid: string, from: int)
    requires cfg.allowedTtl >= 1 && DeniesFrom(Moments(before, acts, cfg, uid), cfg, uid, from)
    requires !WorldAfter(before, acts, cfg, uid).stream.closed
    ensures var w := WorldAfter(before, acts, cfg, uid);
            && (w.store.now < from + 2 * cfg.allowedTtl - 1 || w.store.now <= w.began + cfg.allowedTtl)
            && (from <= w.began ==> w.ticks == 0 && w.store.now <= w.began + cfg.allowedTtl)
  {
    hide WorldAfter, Moments, DeniesFrom, E.Orderly;
    RunOk(before, acts, cfg, uid, from);
    var w := WorldAfter(before, acts, cfg, uid);
    assert (w.ticks + 1) * cfg.allowedTtl == w.ticks * cfg.allowedTtl + cfg.allowedTtl;
    if w.ticks > 0 {
      Multiple(w.ticks, cfg.allowedTtl);
    }
  }

  lemma Multiple(n: nat, t: int)
    requires n >= 1 && t >= 1
    ensures n * t >= t
  {
    assert n * t == (n - 1) * t + t;
  }

  /** Check k of `before` let the user in, at most `delay` seconds before the watch was started. */
  predicate LetIn(before: seq<Moment>, cfg: Config, uid: string, k: nat, delay: nat) {
    && k < |before| && before[k].Asked? && before[k].uid == uid && !Refuses(before, cfg, k)
    && StoreAfter(before, cfg).now <= StoreAfter(before[..k], cfg).now + delay
  }

  /** Every stream whose watch starts at most `delay` seconds after the check that let the user in is
      closed d seconds after the webhook began to deny, whatever else happens. */
  ghost predicate ClosedAfter(cfg: Config, uid: string, delay: nat, d: int) {
    forall before, k, acts, from: int |
      && LetIn(before, cfg, uid, k, delay) && DeniesFrom(Moments(before, acts, cfg, uid), cfg, uid, from)
      && WorldAfter(before, acts, cfg, uid).store.now >= from + d ::
      WorldAfter(before, acts, cfg, uid).stream.closed
  }

  lemma LetInEarly(before: seq<Moment>, cfg: Config, uid: string, k: nat, from: int)
    requires cfg.allowedTtl >= 1 && DeniesFrom(before, cfg, uid, from)
    requires k < |before| && before[k].Asked? && before[k].uid == uid && !Refuses(before, cfg, k)
    ensures StoreAfter(before[..k], cfg).now < from + cfg.allowedTtl - 1
  {
    hide Verdict, StoreAfter, SaysNo;
    if StoreAfter(before[..k], cfg).now >= from + cfg.allowedTtl - 1 {
      DeniesFromPrefix(before, cfg, uid, from, k);
      DeniedWhenCacheEnds(before[..k], cfg, uid, from, before[k].reply);
    }
  }

  /** The bound, exactly: a second less than twice the time an "allowed" is cached for, and as much
      later as the watch starts after its check. */
  lemma StreamsClosedExactly(cfg: Config, uid: string, delay: nat, d: int)
    requires cfg.allowedTtl >= 1
    ensures ClosedAfter(cfg, uid, delay, d) <==> 2 * cfg.allowedTtl - 1 + delay <= d
  {
    hide WorldAfter, Moments, DeniesFrom, StoreAfter, Verdict;
    if 2 * cfg.allowedTtl - 1 + delay <= d {
      forall before, k, acts, from: int |
        && LetIn(before, cfg, uid, k, delay) && DeniesFrom(Moments(before, acts, cfg, uid), cfg, uid, from)
        && WorldAfter(before, acts, cfg, uid).store.now >= from + d
        ensures WorldAfter(before, acts, cfg, uid).stream.closed
      {
        StoreTracks(before, acts, cfg, uid);
        var all := Moments(before, acts, cfg, uid);
        DeniesFromPrefix(all, cfg, uid, from, |before|);
        assert all[..|before|] == before;
        LetInEarly(before, cfg, uid, k, from);
        if !WorldAfter(before, acts, cfg, uid).stream.closed {
          OpenUntil(before, acts, cfg, uid, from);
        }
      }
    } else {
      LongestStream(cfg, uid, delay);
      assert !ClosedAfter(cfg, uid, delay, d);
    }
  }

  /** The longest a stream can last: the user is let in by a cached answer in its last second, and the
      watch ticks first an allowedTtl after it starts. */
  lemma LongestStream(cfg: Config, uid: string, delay: nat)
    requires cfg.allowedTtl >= 1
    ensures var before, acts := CachedThenAsked(cfg, uid, delay), [Elsewhere(Passed(cfg.allowedTtl))];
            var w := WorldAfter(before, acts, cfg, uid);
            && LetIn(before, cfg, uid, 2, delay) && DeniesFrom(Moments(before, acts, cfg, uid), cfg, uid, 1)
            && !w.stream.closed && w.store.now == 1 + 2 * cfg.allowedTtl - 2 + delay
  {
    hide StoreAfter, Verdict;
    var before, acts := CachedThenAsked(cfg, uid, delay), [Elsewhere(Passed(cfg.allowedTtl))];
    StillCached(cfg, uid, delay);
    assert acts[..|acts| - 1] == [] && Moments(before, [], cfg, uid) == before;
    var w0 := WorldAfter(before, [], cfg, uid);
    PassedOnly(w0.store, Passed(cfg.allowedTtl), cfg);
    var all := Moments(before, acts, cfg, uid);
    assert all == before + MomentOf(w0, acts[0], cfg, uid) == before + [Passed(cfg.allowedTtl)];
    forall k | 0 <= k < |before| ensures all[..k] == before[..k] && all[k] == before[k] {}
  }
}

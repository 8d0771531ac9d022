/** No refresh waits for ever: from every world the tabs can reach, each refresh in progress can still
    be finished. */
module AuthProgress {
  import opened Redis
  import opened Wrappers
  import opened TokenProtocol
  import opened TokenInvariant
  import opened TokenSessions
  import opened AuthClient

  /** The lock is held by a refresh that is not waiting for it. */
  predicate LockHeld(b: Browser) {
    b.lock.Some? ==> b.lock.value in b.tasks && !b.tasks[b.lock.value].Waiting?
  }

  lemma EventKeepsLockHeld(cfg: Config, chain: ChainId, w: World, e: WorldEvent)
    requires LockHeld(w.browser) && LockOk(w.browser) && AuthClient.Enabled(cfg, chain, w, e)
    ensures LockHeld(AuthClient.Apply(cfg, chain, w, e).browser)
  {
    hide TokenProtocol.Apply;
  }

  ghost predicate Good(cfg: Config, chain: ChainId, w: World) { WorldInv(cfg, chain, w) && LockHeld(w.browser) }

  lemma EventKeepsGood(cfg: Config, chain: ChainId, w: World, e: WorldEvent)
    requires Good(cfg, chain, w) && AuthClient.Enabled(cfg, chain, w, e)
    ensures Good(cfg, chain, AuthClient.Apply(cfg, chain, w, e))
  {
    EventKeepsWorld(cfg, chain, w, e);
    EventKeepsLockHeld(cfg, chain, w, e);
  }

  lemma {:induction false} RunKeepsGood(cfg: Config, chain: ChainId, w: World, es: seq<WorldEvent>)
    requires Good(cfg, chain, w) && AuthClient.Legal(cfg, chain, w, es)
    ensures Good(cfg, chain, AuthClient.Run(cfg, chain, w, es))
    decreases |es|
  {
    hide Good, AuthClient.Apply, AuthClient.Enabled;
    if es != [] {
      EventKeepsGood(cfg, chain, w, es[0]);
      RunKeepsGood(cfg, chain, AuthClient.Apply(cfg, chain, w, es[0]), es[1..]);
    }
  }

  /** The refresh is over in some continuation. */
  ghost predicate CanFinish(cfg: Config, chain: ChainId, w: World, task: TaskId) {
    exists es :: AuthClient.Legal(cfg, chain, w, es) && task !in AuthClient.Run(cfg, chain, w, es).browser.tasks
  }

  lemma First(cfg: Config, chain: ChainId, w: World, e: WorldEvent, es: seq<WorldEvent>)
    requires AuthClient.Enabled(cfg, chain, w, e)
    requires AuthClient.Legal(cfg, chain, AuthClient.Apply(cfg, chain, w, e), es)
    ensures AuthClient.Legal(cfg, chain, w, [e] + es)
    ensures AuthClient.Run(cfg, chain, w, [e] + es) ==
            AuthClient.Run(cfg, chain, AuthClient.Apply(cfg, chain, w, e), es)
  {
    hide AuthClient.Apply, AuthClient.Enabled;
    assert ([e] + es)[1..] == es;
  }

  /** Commands a rotation still needs at most. */
  function Left(pc: Pc): nat {
    match pc
    case Enter => 8
    case HasRecord(_) => 7
    case HasTtl(_, _) => 6
    case NotUsed(_, _) => 5
    case WonClaim(_, _, _) => 4
    case Issued(_, _, _) => 3
    case _ => 0
  }

  /** The one call in flight can take its next command, and comes nearer to its end. */
  lemma NextCommand(cfg: Config, chain: ChainId, w: World) returns (e: WorldEvent)
    requires Good(cfg, chain, w) && w.browser.Current().Some?
    requires !w.sys.calls[w.browser.Current().value].pc.Done?
    ensures AuthClient.Enabled(cfg, chain, w, e)
    ensures var w' := AuthClient.Apply(cfg, chain, w, e);
            var c := w.browser.Current().value;
            w'.browser == w.browser && (w'.sys.calls[c].pc.Done? || Left(w'.sys.calls[c].pc) < Left(w.sys.calls[c].pc))
  {
    var c := w.browser.Current().value;
    var presented := set d | d in w.sys.calls && (w.sys.calls[d].op.Rotate? || w.sys.calls[d].op.Revoke?) ::
      w.sys.calls[d].op.token;
    var random := FreshNumber(w.sys.minted.Keys + presented);
    e := Server(Step(c, random));
  }

  /** The holder of the lock can be finished, and the lock is then free. */
  lemma {:induction false} HolderFinishes(cfg: Config, chain: ChainId, w: World) returns (es: seq<WorldEvent>)
    requires Good(cfg, chain, w) && w.browser.lock.Some?
    ensures AuthClient.Legal(cfg, chain, w, es)
    ensures var b, b' := w.browser, AuthClient.Run(cfg, chain, w, es).browser;
            b'.lock.None? && b'.tasks == b.tasks - {b.lock.value}
    decreases
      if w.browser.Current().Some? && w.browser.Current().value in w.sys.calls
      && !w.sys.calls[w.browser.Current().value].pc.Done?
      then 1 + Left(w.sys.calls[w.browser.Current().value].pc) else 0
  {
    hide AuthClient.Apply, AuthClient.Enabled, Good;
    var task := w.browser.lock.value;
    HolderKinds(cfg, chain, w);
    if w.browser.tasks[task].Holding? {
      es := [UseFresh(task)] + [];
      Releases(cfg, chain, w, UseFresh(task), task);
      First(cfg, chain, w, UseFresh(task), []);
    } else if w.sys.calls[w.browser.Current().value].pc.Done? {
      es := [Deliver(task)] + [];
      Releases(cfg, chain, w, Deliver(task), task);
      First(cfg, chain, w, Deliver(task), []);
    } else {
      var e := NextCommand(cfg, chain, w);
      EventKeepsGood(cfg, chain, w, e);
      var rest := HolderFinishes(cfg, chain, AuthClient.Apply(cfg, chain, w, e));
      First(cfg, chain, w, e, rest);
      es := [e] + rest;
    }
  }

  lemma HolderKinds(cfg: Config, chain: ChainId, w: World)
    requires Good(cfg, chain, w) && w.browser.lock.Some?
    ensures var task := w.browser.lock.value;
            && task in w.browser.tasks
            && (w.browser.tasks[task].Holding?
                || (w.browser.tasks[task].Posting? && w.browser.Current() == Some(w.browser.tasks[task].call)
                    && w.browser.tasks[task].call in w.sys.calls))
  {}

  lemma Releases(cfg: Config, chain: ChainId, w: World, e: WorldEvent, task: TaskId)
    requires task in w.browser.tasks && (e == UseFresh(task) || e == Deliver(task))
    requires e.UseFresh? ==> w.browser.tasks[task].Holding?
    requires e.Deliver? ==>
               w.browser.tasks[task].Posting? && w.browser.tasks[task].call in w.sys.calls
               && w.sys.calls[w.browser.tasks[task].call].pc.Done?
    ensures AuthClient.Enabled(cfg, chain, w, e)
    ensures var b' := AuthClient.Apply(cfg, chain, w, e).browser;
            b'.lock.None? && b'.tasks == w.browser.tasks - {task}
  {}

  lemma {:induction false} RunJoins(cfg: Config, chain: ChainId, w: World, a: seq<WorldEvent>, b: seq<WorldEvent>)
    requires AuthClient.Legal(cfg, chain, w, a) && AuthClient.Legal(cfg, chain, AuthClient.Run(cfg, chain, w, a), b)
    ensures AuthClient.Legal(cfg, chain, w, a + b)
    ensures AuthClient.Run(cfg, chain, w, a + b) == AuthClient.Run(cfg, chain, AuthClient.Run(cfg, chain, w, a), b)
    decreases |a|
  {
    hide AuthClient.Apply, AuthClient.Enabled;
    if a == [] {
      assert a + b == b;
    } else {
      assert (a + b)[1..] == a[1..] + b;
      RunJoins(cfg, chain, AuthClient.Apply(cfg, chain, w, a[0]), a[1..], b);
    }
  }

  /** With the lock free, a waiting refresh can get it and finish. */
  lemma WaiterFinishes(cfg: Config, chain: ChainId, w: World, task: TaskId)
    requires w.browser.lock.None? && task in w.browser.tasks && w.browser.tasks[task].Waiting?
    ensures CanFinish(cfg, chain, w, task)
  {
    hide TokenProtocol.Apply;
    var w1 := AuthClient.Apply(cfg, chain, w, Grant(task));
    Releases(cfg, chain, w1, UseFresh(task), task);
    First(cfg, chain, w1, UseFresh(task), []);
    First(cfg, chain, w, Grant(task), [UseFresh(task)] + []);
  }

  /** From a sign-in on, in every run, every refresh in progress can still be finished: the lock is never
      lost, and a call in flight always has a next command. */
  lemma EveryRefreshCanFinish(
    cfg: Config, s: System, c: CallId, random: nat, es: seq<WorldEvent>, task: TaskId)
    requires Reachable(cfg, s) && TokenProtocol.Enabled(cfg, s, Step(c, random)) && NotPresented(s, random)
    requires s.calls[c].op.CreateChain? && s.calls[c].pc.ChainSet?
    requires AuthClient.Legal(cfg, s.calls[c].pc.chain, SignedIn(cfg, s, c, random), es)
    requires task in AuthClient.Run(cfg, s.calls[c].pc.chain, SignedIn(cfg, s, c, random), es).browser.tasks
    ensures CanFinish(cfg, s.calls[c].pc.chain,
                      AuthClient.Run(cfg, s.calls[c].pc.chain, SignedIn(cfg, s, c, random), es), task)
  {
    hide AuthClient.Apply, AuthClient.Enabled, Good, CanFinish;
    var chain, w0 := s.calls[c].pc.chain, SignedIn(cfg, s, c, random);
    ReachableInv(cfg, s);
    SignInStarts(cfg, s, c, random);
    StartsGood(cfg, chain, w0);
    RunKeepsGood(cfg, chain, w0, es);
    var w := AuthClient.Run(cfg, chain, w0, es);
    if w.browser.lock.None? {
      NobodyHolds(cfg, chain, w, task);
      WaiterFinishes(cfg, chain, w, task);
    } else {
      var first := HolderFinishes(cfg, chain, w);
      var w1 := AuthClient.Run(cfg, chain, w, first);
      if task == w.browser.lock.value {
        Finishes(cfg, chain, w, first, task);
      } else {
        RunKeepsGood(cfg, chain, w, first);
        NobodyHolds(cfg, chain, w1, task);
        WaiterFinishes(cfg, chain, w1, task);
        FinishesLater(cfg, chain, w, first, task);
      }
    }
  }

  lemma StartsGood(cfg: Config, chain: ChainId, w: World)
    requires WorldInv(cfg, chain, w) && w.browser.lock.None?
    ensures Good(cfg, chain, w)
  {}

  lemma NobodyHolds(cfg: Config, chain: ChainId, w: World, task: TaskId)
    requires Good(cfg, chain, w) && w.browser.lock.None? && task in w.browser.tasks
    ensures w.browser.tasks[task].Waiting?
  {}

  lemma Finishes(cfg: Config, chain: ChainId, w: World, es: seq<WorldEvent>, task: TaskId)
    requires AuthClient.Legal(cfg, chain, w, es) && task !in AuthClient.Run(cfg, chain, w, es).browser.tasks
    ensures CanFinish(cfg, chain, w, task)
  {}

  lemma FinishesLater(cfg: Config, chain: ChainId, w: World, first: seq<WorldEvent>, task: TaskId)
    requires AuthClient.Legal(cfg, chain, w, first)
    requires CanFinish(cfg, chain, AuthClient.Run(cfg, chain, w, first), task)
    ensures CanFinish(cfg, chain, w, task)
  {
    var w1 := AuthClient.Run(cfg, chain, w, first);
    var es :| AuthClient.Legal(cfg, chain, w1, es) && task !in AuthClient.Run(cfg, chain, w1, es).browser.tasks;
    RunJoins(cfg, chain, w, first, es);
  }
}

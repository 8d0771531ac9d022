/** The browser half of token rotation (ui/src/auth.ts) composed with the server: any number of
    refreshes in any number of tabs share one stored token and one lock. */
module AuthClient {
  import opened Redis
  import opened Wrappers
  import opened TokenProtocol
  import opened TokenInvariant

  type TaskId = nat

  /** A `refreshNow` in progress: waiting for the "orc-refresh" lock, holding it before the stored
      token is read, or waiting for the answer to its POST. */
  datatype Stage = Waiting | Holding | Posting(call: CallId)

  /** `tasks` spans all tabs; a task that has finished is no longer in it. */
  datatype Browser = Browser(stored: Option<Token>, lock: Option<TaskId>, tasks: map<TaskId, Stage>)
  {
    /** The call whose answer the lock holder waits for. */
    function Current(): Option<CallId> {
      if lock.Some? && lock.value in tasks && tasks[lock.value].Posting? then Some(tasks[lock.value].call) else None
    }

    function Finish(task: TaskId): Browser {
      this.(lock := None, tasks := tasks - {task})
    }
  }

  datatype World = World(sys: System, browser: Browser)

  datatype WorldEvent =
    | Server(e: Event)
    | Request(task: TaskId)
    | Grant(task: TaskId)
    | UseFresh(task: TaskId)
    | Send(task: TaskId, call: CallId)
    | Deliver(task: TaskId)

  predicate Ours(s: System, chain: ChainId, t: Token) {
    t in s.owner && s.owner[t] == chain
  }

  /** A random value is none of the tokens anyone has presented. */
  predicate NotPresented(s: System, random: nat) {
    forall c | c in s.calls && (s.calls[c].op.Rotate? || s.calls[c].op.Revoke?) :: s.calls[c].op.token != random
  }

  /** Other clients present any tokens but this session's; nobody signs this session out. */
  predicate Enabled(cfg: Config, chain: ChainId, w: World, e: WorldEvent) {
    match e
    case Server(event) =>
      && TokenProtocol.Enabled(cfg, w.sys, event)
      && (event.Begin? && (event.op.Rotate? || event.op.Revoke?) ==> !Ours(w.sys, chain, event.op.token))
      && (event.Step? ==> NotPresented(w.sys, event.random))
    case Request(task) => task !in w.browser.tasks
    case Grant(task) => w.browser.lock.None? && task in w.browser.tasks && w.browser.tasks[task].Waiting?
    case UseFresh(task) => task in w.browser.tasks && w.browser.tasks[task].Holding?
    case Send(task, call) => task in w.browser.tasks && w.browser.tasks[task].Holding? && call !in w.sys.calls
    case Deliver(task) =>
      && task in w.browser.tasks && w.browser.tasks[task].Posting?
      && w.browser.tasks[task].call in w.sys.calls && w.sys.calls[w.browser.tasks[task].call].pc.Done?
  }

  function Apply(cfg: Config, chain: ChainId, w: World, e: WorldEvent): World
    requires Enabled(cfg, chain, w, e)
  {
    var b := w.browser;
    match e
    case Server(event) => w.(sys := TokenProtocol.Apply(cfg, w.sys, event))
    case Request(task) => w.(browser := b.(tasks := b.tasks[task := Waiting]))
    case Grant(task) => w.(browser := b.(lock := Some(task), tasks := b.tasks[task := Holding]))
    // The tab still has an access token that lasts: the lock is released at once.
    case UseFresh(task) => w.(browser := b.Finish(task))
    case Send(task, call) =>
      if b.stored.None? then w.(browser := b.Finish(task))
      else World(TokenProtocol.Apply(cfg, w.sys, Begin(call, Rotate(b.stored.value))),
                 b.(tasks := b.tasks[task := Posting(call)]))
    case Deliver(task) => w.(browser := Answered(b, w.sys.calls[b.tasks[task].call].pc.result).Finish(task))
  }

  /** `save` on a new token; a refusal is a 401, on which `clear` forgets the stored token. */
  function Answered(b: Browser, result: Result): Browser {
    b.(stored := if result.Rotated? then Some(result.token) else None)
  }

  predicate Legal(cfg: Config, chain: ChainId, w: World, es: seq<WorldEvent>)
    decreases |es|
  {
    es == [] || (Enabled(cfg, chain, w, es[0]) && Legal(cfg, chain, Apply(cfg, chain, w, es[0]), es[1..]))
  }

  function Run(cfg: Config, chain: ChainId, w: World, es: seq<WorldEvent>): World
    requires Legal(cfg, chain, w, es)
    decreases |es|
  {
    if es == [] then w else Run(cfg, chain, Apply(cfg, chain, w, es[0]), es[1..])
  }

  // ---------------------------------------------------------------- the invariant

  predicate Unused(s: System, t: Token) {
    RtKey(t) in s.store.data && t !in s.claims
  }

  /** The stored token is unused, or the one call in flight is turning it into an unused successor. */
  predicate HeadOk(cfg: Config, chain: ChainId, s: System, head: Token, current: Option<CallId>)
    requires chain in s.chains
  {
    match current
    case None => Unused(s, head)
    case Some(c) =>
      c in s.calls && s.calls[c].op == Rotate(head) &&
      match s.calls[c].pc
      case WonClaim(_, _, next) => Ours(s, chain, next) && next !in s.claims
      case Issued(_, _, next) => Ours(s, chain, next) && Unused(s, next)
      case Done(Rotated(next, _)) => Ours(s, chain, next) && Unused(s, next)
      case Done(result) => result == Refused && Expiry(cfg, s, chain) <= s.calls[c].ended
      case pc => (pc.Enter? || pc.HasRecord? || pc.HasTtl? || pc.NotUsed?) && Unused(s, head)
  }

  predicate ChainKept(cfg: Config, chain: ChainId, s: System) {
    chain in s.chains && (ChainKey(chain) in s.store.data || Expiry(cfg, s, chain) <= s.Now())
  }

  /** A running call on a token of this session is the one the lock holder waits for. */
  predicate OnlyCurrentCall(s: System, chain: ChainId, c: CallId, current: Option<CallId>)
    requires c in s.calls
  {
    !s.calls[c].pc.Done? && (s.calls[c].op.Rotate? || s.calls[c].op.Revoke?) && Ours(s, chain, s.calls[c].op.token)
    ==> current == Some(c)
  }

  predicate LockOk(b: Browser) {
    forall task | task in b.tasks && !b.tasks[task].Waiting? :: b.lock == Some(task)
  }

  ghost predicate WorldInv(cfg: Config, chain: ChainId, w: World) {
    var b := w.browser;
    && Inv(cfg, w.sys) && ChainKept(cfg, chain, w.sys) && LockOk(b)
    && (forall c | c in w.sys.calls :: OnlyCurrentCall(w.sys, chain, c, b.Current()))
    && match b.stored
       case None => Expiry(cfg, w.sys, chain) <= w.sys.Now() && b.Current().None?
       case Some(head) => Ours(w.sys, chain, head) && HeadOk(cfg, chain, w.sys, head, b.Current())
  }

  /** Steps of other calls leave the session alone. */
  lemma OthersKeepChain(cfg: Config, chain: ChainId, s: System, c: CallId, random: nat, current: Option<CallId>)
    requires Inv(cfg, s) && TokenProtocol.Enabled(cfg, s, Step(c, random)) && ChainKept(cfg, chain, s)
    requires OnlyCurrentCall(s, chain, c, current) && current != Some(c)
    ensures ChainKept(cfg, chain, ApplyStep(cfg, s, c, random))
  {
    assert CallOk(cfg, s, c);
    StepExtends(cfg, s, c, random);
    match s.calls[c].pc
    case MustDrop(_) =>
    case HasRecord(_) =>
    case _ =>
  }

  lemma OthersKeepHead(cfg: Config, chain: ChainId, s: System, c: CallId, random: nat, head: Token,
          current: Option<CallId>)
    requires Inv(cfg, s) && TokenProtocol.Enabled(cfg, s, Step(c, random)) && chain in s.chains
    requires OnlyCurrentCall(s, chain, c, current) && current != Some(c)
    requires Ours(s, chain, head) && HeadOk(cfg, chain, s, head, current)
    ensures Extends(s, ApplyStep(cfg, s, c, random))
    ensures HeadOk(cfg, chain, ApplyStep(cfg, s, c, random), head, current)
  {
    StepExtends(cfg, s, c, random);
  }

  /** Random values are not presented tokens, so no call already begun comes to be on this session. */
  lemma CallsStayForeign(cfg: Config, chain: ChainId, s: System, c: CallId, random: nat, current: Option<CallId>,
          d: CallId)
    requires Inv(cfg, s) && TokenProtocol.Enabled(cfg, s, Step(c, random)) && NotPresented(s, random)
    requires d in s.calls && OnlyCurrentCall(s, chain, d, current)
    ensures OnlyCurrentCall(ApplyStep(cfg, s, c, random), chain, d, current)
  {
    if s.calls[d].op.Rotate? || s.calls[d].op.Revoke? {
      assert s.calls[d].op.token != random;
    }
  }

  /** The call on the stored token never takes the reuse or the lost-claim branch, and it is refused
      only when it reads the chain at or after its end. */
  lemma OwnStepKeepsHead(cfg: Config, chain: ChainId, s: System, c: CallId, random: nat, head: Token)
    requires s.Running(c) && random !in s.minted && s.claims.Keys + {head} <= s.minted.Keys && ChainKept(cfg, chain, s)
    requires Extends(s, ApplyStep(cfg, s, c, random)) && CallOk(cfg, s, c) && TokenOk(cfg, s, head)
    requires Ours(s, chain, head) && HeadOk(cfg, chain, s, head, Some(c))
    ensures ChainKept(cfg, chain, ApplyStep(cfg, s, c, random))
    ensures HeadOk(cfg, chain, ApplyStep(cfg, s, c, random), head, Some(c))
  {
    match s.calls[c].pc
    case Enter =>
    case HasRecord(_) =>
    case HasTtl(_, _) =>
    case NotUsed(_, _) =>
    case WonClaim(_, _, _) =>
    case Issued(_, _, _) =>
  }

  lemma StepKeepsWorld(cfg: Config, chain: ChainId, w: World, c: CallId, random: nat)
    requires WorldInv(cfg, chain, w) && Enabled(cfg, chain, w, Server(Step(c, random)))
    ensures WorldInv(cfg, chain, Apply(cfg, chain, w, Server(Step(c, random))))
  {
    var s, current := w.sys, w.browser.Current();
    var s' := ApplyStep(cfg, s, c, random);
    StepKeepsInv(cfg, s, c, random);
    StepExtends(cfg, s, c, random);
    assert OnlyCurrentCall(s, chain, c, current);
    if current == Some(c) {
      assert CallOk(cfg, s, c);
      OwnStepKeepsHead(cfg, chain, s, c, random, w.browser.stored.value);
    } else {
      OthersKeepChain(cfg, chain, s, c, random, current);
      if w.browser.stored.Some? {
        OthersKeepHead(cfg, chain, s, c, random, w.browser.stored.value, current);
      }
    }
    forall d | d in s'.calls ensures OnlyCurrentCall(s', chain, d, current) {
      CallsStayForeign(cfg, chain, s, c, random, current, d);
    }
  }

  lemma ServerKeepsWorld(cfg: Config, chain: ChainId, w: World, e: Event)
    requires WorldInv(cfg, chain, w) && Enabled(cfg, chain, w, Server(e))
    ensures WorldInv(cfg, chain, Apply(cfg, chain, w, Server(e)))
  {
    var s' := TokenProtocol.Apply(cfg, w.sys, e);
    if e.Step? {
      StepKeepsWorld(cfg, chain, w, e.c, e.random);
    } else {
      EventKeepsInv(cfg, w.sys, e);
      forall d | d in s'.calls ensures OnlyCurrentCall(s', chain, d, w.browser.Current()) {
        assert d in w.sys.calls ==> OnlyCurrentCall(w.sys, chain, d, w.browser.Current());
      }
    }
  }

  lemma SendKeepsWorld(cfg: Config, chain: ChainId, w: World, task: TaskId, call: CallId)
    requires WorldInv(cfg, chain, w) && Enabled(cfg, chain, w, Send(task, call))
    ensures WorldInv(cfg, chain, Apply(cfg, chain, w, Send(task, call)))
  {
    var w' := Apply(cfg, chain, w, Send(task, call));
    if w.browser.stored.Some? {
      EventKeepsInv(cfg, w.sys, Begin(call, Rotate(w.browser.stored.value)));
    }
    forall d | d in w'.sys.calls ensures OnlyCurrentCall(w'.sys, chain, d, w'.browser.Current()) {
      assert d in w.sys.calls ==> OnlyCurrentCall(w.sys, chain, d, w.browser.Current());
    }
  }

  lemma EventKeepsWorld(cfg: Config, chain: ChainId, w: World, e: WorldEvent)
    requires WorldInv(cfg, chain, w) && Enabled(cfg, chain, w, e)
    ensures WorldInv(cfg, chain, Apply(cfg, chain, w, e))
  {
    match e
    case Server(event) => ServerKeepsWorld(cfg, chain, w, event);
    case Send(task, call) => SendKeepsWorld(cfg, chain, w, task, call);
    case _ =>
  }

  lemma {:induction false} RunKeepsWorld(cfg: Config, chain: ChainId, w: World, es: seq<WorldEvent>)
    requires WorldInv(cfg, chain, w) && Legal(cfg, chain, w, es)
    ensures WorldInv(cfg, chain, Run(cfg, chain, w, es))
    decreases |es|
  {
    if es != [] {
      EventKeepsWorld(cfg, chain, w, es[0]);
      RunKeepsWorld(cfg, chain, Apply(cfg, chain, w, es[0]), es[1..]);
    }
  }

  /** The world right after a sign-in: call `c` issued the first token of its chain, and the browser
      stored it. */
  function SignedIn(cfg: Config, s: System, c: CallId, random: nat): World
    requires c in s.calls
  {
    World(ApplyStep(cfg, s, c, random), Browser(Some(random), None, map[]))
  }

  lemma SignInStarts(cfg: Config, s: System, c: CallId, random: nat)
    requires Inv(cfg, s) && TokenProtocol.Enabled(cfg, s, Step(c, random)) && NotPresented(s, random)
    requires s.calls[c].op.CreateChain? && s.calls[c].pc.ChainSet?
    ensures WorldInv(cfg, s.calls[c].pc.chain, SignedIn(cfg, s, c, random))
  {
    var chain := s.calls[c].pc.chain;
    var s' := ApplyStep(cfg, s, c, random);
    StepKeepsInv(cfg, s, c, random);
    assert CallOk(cfg, s, c);
    forall d | d in s'.calls ensures OnlyCurrentCall(s', chain, d, None) {
      if d in s.calls && (s.calls[d].op.Rotate? || s.calls[d].op.Revoke?) && s.calls[d].op.token in s.owner {
        assert OwnerOk(s, s.calls[d].op.token);
      }
    }
  }

  /** While the chain runs the browser holds a token of it, and when no refresh waits for its answer
      that token is the unused head of the chain: valid, and neither used nor claimed. */
  predicate SessionKept(cfg: Config, chain: ChainId, w: World) {
    var s, b := w.sys, w.browser;
    chain in s.chains &&
    (s.Now() < Expiry(cfg, s, chain) ==>
      && b.stored.Some? && Ours(s, chain, b.stored.value) && s.store.Live(ChainKey(chain))
      && (b.Current().None? ==>
            && b.stored.value !in s.claims && s.store.Live(RtKey(b.stored.value))
            && !s.store.Live(UsedKey(b.stored.value)) && !s.store.Live(GraceKey(b.stored.value))))
  }

  /** A refresh in flight rotates the stored token and takes neither the reuse nor the lost-claim
      branch; it is refused only when it reads the chain at or after the end. */
  predicate RefreshGoesWell(cfg: Config, chain: ChainId, w: World) {
    var s, b := w.sys, w.browser;
    b.Current().Some? ==>
      var call := b.Current().value;
      && call in s.calls && b.stored.Some? && s.calls[call].op == Rotate(b.stored.value) && chain in s.chains
      && var pc := s.calls[call].pc;
         && !pc.WasUsed? && !pc.MustDrop? && !pc.LostClaim?
         && (pc.Done? ==> pc.result.Rotated? || Expiry(cfg, s, chain) <= s.calls[call].ended)
  }

  lemma InvariantMeaning(cfg: Config, chain: ChainId, w: World)
    requires WorldInv(cfg, chain, w)
    ensures SessionKept(cfg, chain, w) && RefreshGoesWell(cfg, chain, w)
  {
    var s := w.sys;
    if s.Now() < Expiry(cfg, s, chain) {
      var head := w.browser.stored.value;
      assert KeyOk(cfg, s, ChainKey(chain));
      if RtKey(head) in s.store.data { assert KeyOk(cfg, s, RtKey(head)); }
      if UsedKey(head) in s.store.data { assert KeyOk(cfg, s, UsedKey(head)); }
      if GraceKey(head) in s.store.data { assert KeyOk(cfg, s, GraceKey(head)); }
    }
  }

  /** From a sign-in on, whatever the timing and whatever other clients do, refreshing never loses
      the session before its fixed end. */
  lemma RefreshNeverLosesTheSession(cfg: Config, s: System, c: CallId, random: nat, es: seq<WorldEvent>)
    requires Reachable(cfg, s) && TokenProtocol.Enabled(cfg, s, Step(c, random)) && NotPresented(s, random)
    requires s.calls[c].op.CreateChain? && s.calls[c].pc.ChainSet?
    requires Legal(cfg, s.calls[c].pc.chain, SignedIn(cfg, s, c, random), es)
    ensures var w := Run(cfg, s.calls[c].pc.chain, SignedIn(cfg, s, c, random), es);
            SessionKept(cfg, s.calls[c].pc.chain, w) && RefreshGoesWell(cfg, s.calls[c].pc.chain, w)
  {
    var chain := s.calls[c].pc.chain;
    ReachableInv(cfg, s);
    SignInStarts(cfg, s, c, random);
    var w0 := SignedIn(cfg, s, c, random);
    RunKeepsWorld(cfg, chain, w0, es);
    InvariantMeaning(cfg, chain, Run(cfg, chain, w0, es));
  }
}

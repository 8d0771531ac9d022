/** The tabs of one browser as objects (ui/src/auth.ts): each remembers its access token and the refresh
    it has under way, and all share the stored refresh token and the lock. Every method that touches
    what is shared takes the step of `AuthClient` that the composed claims are about. */
module AuthTab {
  import opened Wrappers
  import opened TokenProtocol
  import opened AuthClient

  const EARLY_REFRESH_MS := 30_000

  type AccessToken = nat

  datatype Access = Access(token: AccessToken, expiresAt: int)

  /** The answer to a POST: tokens, a 400 or 401, or any other failure. */
  datatype Response = Tokens(access: AccessToken, refresh: Token, expiresIn: int) | Rejected | Broken

  /** What a refresh does once it holds the lock: use the token at hand, give up, or post. */
  datatype Turn = Have(token: AccessToken) | SignedOut | Post(refresh: Token)

  /** How a refresh that has posted ends: with a token, logged out, or with an exception. */
  datatype Outcome = SignedIn(token: AccessToken) | LoggedOut | Threw

  /** What is stored after an answer: `save`, `clear`, or nothing new. */
  function StoredAfter(response: Response, stored: Option<Token>): Option<Token> {
    match response
    case Tokens(_, refresh, _) => Some(refresh)
    case Rejected => None
    case Broken => stored
  }

  /** The response carries the outcome of this call of `rotate`. */
  predicate Carries(response: Response, s: System, call: CallId) {
    && call in s.calls && s.calls[call].pc.Done?
    && match s.calls[call].pc.result
       case Rotated(next, _) => response.Tokens? && response.refresh == next
       case _ => response.Rejected?
  }

  /** What the tabs share: local storage, the "orc-refresh" lock, and the refreshes in progress. */
  class Origin {
    var stored: Option<Token>
    var lock: Option<TaskId>
    var tasks: map<TaskId, Stage>

    constructor (stored: Option<Token>)
      ensures Model() == Browser(stored, None, map[])
    {
      this.stored, lock, tasks := stored, None, map[];
    }

    function Model(): Browser
      reads this
    {
      Browser(stored, lock, tasks)
    }

    /** The lock manager hands the lock to one of the tasks that wait for it. */
    method Grant(task: TaskId, ghost cfg: Config, ghost chain: ChainId, ghost w: World)
      requires w.browser == Model() && AuthClient.Enabled(cfg, chain, w, WorldEvent.Grant(task))
      modifies this`lock, this`tasks
      ensures Model() == AuthClient.Apply(cfg, chain, w, WorldEvent.Grant(task)).browser
    {
      lock, tasks := Some(task), tasks[task := Holding];
    }
  }

  class Tab {
    const origin: Origin
    var access: Option<Access>
    var inflight: Option<TaskId>

    /** The refresh the tab waits for is in progress. */
    ghost predicate Valid()
      reads this, origin
    {
      inflight.Some? ==> inflight.value in origin.tasks
    }

    constructor (origin: Origin)
      ensures Valid() && this.origin == origin && access == None && inflight == None
    {
      this.origin := origin;
      access, inflight := None, None;
    }

    /** A token that lasts for more than the early-refresh margin. */
    predicate Lasting(t: AccessToken, now: int)
      reads this`access
    {
      access.Some? && access.value.token == t && now + EARLY_REFRESH_MS < access.value.expiresAt
    }

    method Fresh(now: int) returns (t: Option<AccessToken>)
      ensures t.Some? ==> Lasting(t.value, now)
      ensures t.None? ==> forall u :: !Lasting(u, now)
    {
      t := if access.Some? && access.value.expiresAt - now > EARLY_REFRESH_MS then Some(access.value.token) else None;
    }

    /** `getAccessToken`: a lasting token at once; else the caller waits for the one refresh of this
        tab, and requests the lock for a new one if there is none. */
    method GetAccessToken(now: int, task: TaskId, ghost cfg: Config, ghost chain: ChainId, ghost w: World)
      returns (t: Option<AccessToken>, starts: bool)
      requires Valid() && w.browser == origin.Model() && task !in origin.tasks
      modifies this`inflight, origin`tasks
      ensures Valid() && starts == (t.None? && old(inflight).None?)
      ensures t.Some? ==> Lasting(t.value, now)
      ensures t.None? ==> (forall u :: !Lasting(u, now)) && inflight.Some?
      ensures starts ==>
                inflight == Some(task) && origin.Model() == AuthClient.Apply(cfg, chain, w, Request(task)).browser
      ensures !starts ==> inflight == old(inflight) && origin.Model() == old(origin.Model())
    {
      t := Fresh(now);
      starts := t.None? && inflight.None?;
      if starts {
        inflight := Some(task);
        origin.tasks := origin.tasks[task := Waiting];
      }
    }

    /** `refreshNow` with the lock held, up to its POST. The stored token is read here, so a token
        another tab has rotated meanwhile is the one that is sent. */
    method BeginRefresh(now: int, call: CallId, ghost cfg: Config, ghost chain: ChainId, ghost w: World)
      returns (turn: Turn)
      requires Valid() && inflight.Some? && origin.tasks[inflight.value].Holding?
      requires w.browser == origin.Model() && call !in w.sys.calls
      modifies this`inflight, origin`lock, origin`tasks
      ensures Valid() && inflight == if turn.Post? then old(inflight) else None
      ensures turn.Have? ==> Lasting(turn.token, now)
      ensures !turn.Have? ==> forall u :: !Lasting(u, now)
      ensures var after := AuthClient.Apply(cfg, chain, w, if turn.Have? then UseFresh(old(inflight).value)
                                                            else Send(old(inflight).value, call));
              && origin.Model() == after.browser
              && after.sys ==
                 if turn.Post? then TokenProtocol.Apply(cfg, w.sys, Begin(call, Rotate(turn.refresh))) else w.sys
    {
      var task := inflight.value;
      var current := Fresh(now);
      if current.Some? || origin.stored.None? {
        inflight := None;
        origin.lock, origin.tasks := None, origin.tasks - {task};
        return if current.Some? then Have(current.value) else SignedOut;
      }
      origin.tasks := origin.tasks[task := Posting(call)];
      return Post(origin.stored.value);
    }

    /** The rest of `refreshNow`, when the answer arrives: `save` and `clear` write both tokens. */
    method EndRefresh(response: Response, now: int, ghost cfg: Config, ghost chain: ChainId, ghost w: World)
      returns (outcome: Outcome)
      requires Valid() && inflight.Some? && origin.tasks[inflight.value].Posting? && w.browser == origin.Model()
      modifies this, origin
      ensures Valid() && inflight == None
      ensures origin.Model() == old(origin.Model()).(stored := StoredAfter(response, old(origin.stored)))
                                .Finish(old(inflight).value)
      ensures Carries(response, w.sys, old(origin.tasks[inflight.value].call)) ==>
                origin.Model() == AuthClient.Apply(cfg, chain, w, Deliver(old(inflight).value)).browser
      ensures response.Tokens? ==>
                outcome == Outcome.SignedIn(response.access)
                && forall later ::
                     Lasting(response.access, later) <==> later + EARLY_REFRESH_MS < now + 1000 * response.expiresIn
      ensures response.Rejected? ==> outcome == LoggedOut && access == None
      ensures response.Broken? ==> outcome == Threw && access == old(access) && origin.stored == old(origin.stored)
    {
      origin.lock, origin.tasks := None, origin.tasks - {inflight.value};
      inflight := None;
      match response
      case Tokens(token, refresh, expiresIn) =>
        access := Some(Access(token, now + expiresIn * 1000));
        origin.stored := Some(refresh);
        outcome := Outcome.SignedIn(token);
      case Rejected =>
        access := None;
        origin.stored := None;
        outcome := LoggedOut;
      case Broken =>
        outcome := Threw;
    }
  }
}

/** The sign-in coordinator as an object whose methods update its fields in place. */
module SignInObject {
  import opened Wrappers
  import opened SignInSpec

  class SignIn {
    var completion: Option<Start>
    var callbackScheme: string
    /** The view of the pending sign-in. */
    var view: Option<Start>
    /** The view on screen. */
    var shown: Option<Start>
    /** The transition in flight, if any. */
    var inFlight: Option<nat>
    var transitions: nat

    // What the callers and the screen have seen.
    var starts: nat
    var completed: seq<(Start, Outcome)>
    var begun: seq<Motion>
    ghost var ended: set<nat>

    ghost predicate Valid()
      reads this
    {
      transitions == |begun|
    }

    ghost function Model(): State
      reads this
    {
      State(completion, callbackScheme, view, shown, inFlight, starts, completed, begun, ended)
    }

    constructor ()
      ensures Valid() && Model() == INITIAL
    {
      completion, callbackScheme, view, shown, inFlight := None, "", None, None, None;
      transitions, starts, completed, begun, ended := 0, 0, [], [], {};
    }

    method Start(urlScheme: Option<string>, scheme: string, screen: Screen)
      requires Valid()
      modifies this
      ensures Valid() && Model() == old(StartSignIn(Model(), urlScheme, scheme, screen))
    {
      Finish(Cancelled("superseded by a new sign-in"), screen);
      var id := starts;
      starts := starts + 1;
      if urlScheme.None? || (Lower(urlScheme.value) != "https" && Lower(urlScheme.value) != "http") || scheme == "" {
        completed := completed + [(id, Failed("bad sign-in URL"))];
        return;
      }
      completion := Some(id);
      callbackScheme := Lower(scheme);
      view := Some(id);
      Sync(screen);
    }

    method Handle(urlScheme: Option<string>, url: string, screen: Screen) returns (handled: bool)
      requires Valid()
      modifies this
      ensures Valid() && handled == old(Handles(Model(), urlScheme))
      ensures Model() == old(SignInSpec.Handle(Model(), urlScheme, url, screen))
    {
      if completion.None? || urlScheme.None? || Lower(urlScheme.value) != callbackScheme {
        return false;
      }
      Finish(Success(url), screen);
      return true;
    }

    method ClosedByUser(controller: Start, screen: Screen)
      requires Valid()
      modifies this
      ensures Valid() && Model() == old(SignInSpec.ClosedByUser(Model(), controller, screen))
    {
      if view.None? || view.value != controller {
        return;
      }
      if shown == view {
        shown := None;
      }
      Finish(Cancelled("sign-in cancelled"), screen);
    }

    method Finish(outcome: Outcome, screen: Screen)
      requires Valid()
      modifies this
      ensures Valid() && Model() == old(SignInSpec.Finish(Model(), outcome, screen))
      decreases Todo(shown, None), 1
    {
      if completion.None? {
        return;
      }
      completed := completed + [(completion.value, outcome)];
      completion := None;
      view := None;
      Sync(screen);
    }

    /** Brings the screen to the wanted state, one transition at a time. */
    method Sync(screen: Screen)
      requires Valid()
      modifies this
      ensures Valid() && Model() == old(SignInSpec.Sync(Model(), screen))
      decreases Todo(shown, view), 0
    {
      if inFlight.Some? {
        return;
      }
      if shown.Some? && shown != view {
        var up := shown.value;
        var token := BeginMotion(Dismissing(up));
        if screen(token).Now? {
          DismissAnswered(token, up, screen);
        }
        return;
      }
      if shown.Some? || view.None? {
        return;
      }
      var wanted := view.value;
      var token := BeginMotion(Presenting(wanted));
      if screen(token).Now? {
        PresentAnswered(token, wanted, screen(token).ok, screen);
      }
    }

    method DismissAnswered(token: nat, up: Start, screen: Screen)
      requires Valid()
      modifies this
      ensures Valid() && Model() == old(SignInSpec.DismissAnswered(Model(), token, up, screen))
      decreases Todo(if shown == Some(up) then None else shown, view), 1
    {
      var _ := EndMotion(token);
      if shown == Some(up) {
        shown := None;
      }
      Sync(screen);
    }

    method PresentAnswered(token: nat, wanted: Start, ok: bool, screen: Screen)
      requires Valid()
      modifies this
      ensures Valid() && Model() == old(SignInSpec.PresentAnswered(Model(), token, wanted, ok, screen))
      decreases if !ok && inFlight == Some(token) && view == Some(wanted) then Todo(shown, None)
                else Todo(if ok && shown.None? then Some(wanted) else shown, view), 2
    {
      var current := EndMotion(token);
      if ok {
        if shown.None? {
          shown := Some(wanted);
        }
      } else if current && view == Some(wanted) {
        Finish(Failed("cannot show sign-in"), screen);
        return;
      }
      Sync(screen);
    }

    method BeginMotion(m: Motion) returns (token: nat)
      requires Valid()
      modifies this
      ensures Valid() && Model() == old(SignInSpec.Begin(Model(), m)) && token == transitions
    {
      transitions := transitions + 1;
      token := transitions;
      inFlight := Some(token);
      begun := begun + [m];
    }

    /** Ends the transition; false when the watchdog already gave up on it. */
    method EndMotion(token: nat) returns (current: bool)
      requires Valid()
      modifies this
      ensures Valid() && Model() == old(End(Model(), token)) && current == (old(inFlight) == Some(token))
    {
      if inFlight != Some(token) {
        return false;
      }
      inFlight := None;
      ended := ended + {token};
      return true;
    }

    method WatchdogFired(token: nat, screen: Screen)
      requires Valid()
      modifies this
      ensures Valid() && Model() == old(SignInSpec.Watchdog(Model(), token, screen))
    {
      if inFlight != Some(token) {
        return;
      }
      inFlight := None;
      ended := ended + {token};
      Sync(screen);
    }
  }
}

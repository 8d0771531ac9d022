/** The iOS sign-in coordinator (ui/ios/App/App/SignIn.swift) as functions on its state: a wanted
    view, a shown view, and at most one transition between them at a time. */
module SignInSpec {
  import opened Wrappers

  // A sign-in and its view are numbered by the start that made them.
  type Start = nat

  datatype Outcome = Success(url: string) | Cancelled(why: string) | Failed(why: string)

  datatype Motion = Presenting(view: Start) | Dismissing(view: Start)

  /** What the screen does with the transition of a given number: answer inside the call that begins
      it, or later (perhaps never). A dismissal ignores `ok`. */
  datatype Reply = Later | Now(ok: bool)

  type Screen = nat -> Reply

  /** The fields of the object, and what has happened so far: the starts, the completions in order,
      the transitions begun (number n is `begun[n-1]`), and those answered or given up. */
  datatype State = State(
    completion: Option<Start>,
    callbackScheme: string,
    view: Option<Start>,
    shown: Option<Start>,
    inFlight: Option<nat>,
    starts: nat,
    completed: seq<(Start, Outcome)>,
    begun: seq<Motion>,
    ended: set<nat>)
  {
    function Transitions(): nat { |begun| }
  }

  const INITIAL := State(None, "", None, None, None, 0, [], [], {})

  /** Transitions still needed to bring the screen to the wanted view. */
  function Todo(shown: Option<Start>, view: Option<Start>): nat {
    if shown == view then 0 else (if shown.Some? then 1 else 0) + (if view.Some? then 1 else 0)
  }

  function Begin(s: State, m: Motion): State {
    s.(begun := s.begun + [m], inFlight := Some(|s.begun| + 1))
  }

  function End(s: State, token: nat): State {
    if s.inFlight == Some(token) then s.(inFlight := None, ended := s.ended + {token}) else s
  }

  function Sync(s: State, screen: Screen): State
    decreases Todo(s.shown, s.view), 0
  {
    if s.inFlight.Some? then s
    else if s.shown.Some? && s.shown != s.view then
      var s1 := Begin(s, Dismissing(s.shown.value));
      if screen(s1.Transitions()).Later? then s1
      else DismissAnswered(s1, s1.Transitions(), s.shown.value, screen)
    else if s.shown.None? && s.view.Some? then
      var s1 := Begin(s, Presenting(s.view.value));
      if screen(s1.Transitions()).Later? then s1
      else PresentAnswered(s1, s1.Transitions(), s.view.value, screen(s1.Transitions()).ok, screen)
    else s
  }

  function AfterDismiss(s: State, token: nat, view: Start): State {
    var s1 := End(s, token);
    if s1.shown == Some(view) then s1.(shown := None) else s1
  }

  function DismissAnswered(s: State, token: nat, view: Start, screen: Screen): State
    decreases Todo(AfterDismiss(s, token, view).shown, s.view), 1
  {
    Sync(AfterDismiss(s, token, view), screen)
  }

  function AfterPresent(s: State, token: nat, view: Start, ok: bool): State {
    var s1 := End(s, token);
    if ok then (if s1.shown.None? then s1.(shown := Some(view)) else s1)
    else if s.inFlight == Some(token) && s.view == Some(view) then Complete(s1, Failed("cannot show sign-in"))
    else s1
  }

  function TodoAfterPresent(s: State, token: nat, view: Start, ok: bool): nat {
    if !ok && s.inFlight == Some(token) && s.view == Some(view) then Todo(s.shown, None)
    else Todo(AfterPresent(s, token, view, ok).shown, s.view)
  }

  function PresentAnswered(s: State, token: nat, view: Start, ok: bool, screen: Screen): State
    decreases TodoAfterPresent(s, token, view, ok), 1
  {
    if !ok && s.inFlight == Some(token) && s.view == Some(view) && s.completion.None? then End(s, token)
    else Sync(AfterPresent(s, token, view, ok), screen)
  }

  /** Calls the completion of the pending sign-in, if any. */
  function Complete(s: State, outcome: Outcome): State {
    if s.completion.None? then s
    else s.(completion := None, view := None, completed := s.completed + [(s.completion.value, outcome)])
  }

  function Finish(s: State, outcome: Outcome, screen: Screen): State {
    if s.completion.None? then s else Sync(Complete(s, outcome), screen)
  }

  function LowerChar(c: char): char {
    if 'A' <= c <= 'Z' then c - 'A' + 'a' else c
  }

  function Lower(s: string): (r: string)
    ensures |r| == |s| && forall i | 0 <= i < |s| :: r[i] == LowerChar(s[i])
  {
    if s == [] then [] else [LowerChar(s[0])] + Lower(s[1..])
  }

  predicate GoodStart(urlScheme: Option<string>, callbackScheme: string) {
    urlScheme.Some? && (Lower(urlScheme.value) == "https" || Lower(urlScheme.value) == "http") && callbackScheme != ""
  }

  function StartSignIn(s: State, urlScheme: Option<string>, callbackScheme: string, screen: Screen): State {
    var s1 := Finish(s, Cancelled("superseded by a new sign-in"), screen);
    var id := s1.starts;
    if !GoodStart(urlScheme, callbackScheme) then
      s1.(starts := id + 1, completed := s1.completed + [(id, Failed("bad sign-in URL"))])
    else
      Sync(s1.(starts := id + 1, completion := Some(id), callbackScheme := Lower(callbackScheme), view := Some(id)),
           screen)
  }

  predicate Handles(s: State, urlScheme: Option<string>) {
    s.completion.Some? && urlScheme.Some? && Lower(urlScheme.value) == s.callbackScheme
  }

  function Handle(s: State, urlScheme: Option<string>, url: string, screen: Screen): State {
    if Handles(s, urlScheme) then Finish(s, Success(url), screen) else s
  }

  function ClosedByUser(s: State, view: Start, screen: Screen): State {
    if s.view != Some(view) then s
    else Finish(if s.shown == s.view then s.(shown := None) else s, Cancelled("sign-in cancelled"), screen)
  }

  function Watchdog(s: State, token: nat, screen: Screen): State {
    if s.inFlight != Some(token) then s else Sync(End(s, token), screen)
  }

  // ---------------------------------------------------------------- runs

  datatype Event =
    | Started(urlScheme: Option<string>, callbackScheme: string)
    | Opened(urlScheme: Option<string>, url: string)
    | UserClosed(view: Start)
    | PresentEnded(token: nat, ok: bool)
    | DismissEnded(token: nat)
    | WatchdogFired(token: nat)

  /** Answers and timers belong to a transition that was begun; they may come late, again or never. */
  predicate Possible(s: State, e: Event) {
    match e
    case PresentEnded(token, _) => 1 <= token <= |s.begun| && s.begun[token - 1].Presenting?
    case DismissEnded(token) => 1 <= token <= |s.begun| && s.begun[token - 1].Dismissing?
    case WatchdogFired(token) => 1 <= token <= |s.begun|
    case _ => true
  }

  function Apply(s: State, e: Event, screen: Screen): State
    requires Possible(s, e)
  {
    match e
    case Started(urlScheme, callbackScheme) => StartSignIn(s, urlScheme, callbackScheme, screen)
    case Opened(urlScheme, url) => Handle(s, urlScheme, url, screen)
    case UserClosed(view) => ClosedByUser(s, view, screen)
    case PresentEnded(token, ok) => PresentAnswered(s, token, s.begun[token - 1].view, ok, screen)
    case DismissEnded(token) => DismissAnswered(s, token, s.begun[token - 1].view, screen)
    case WatchdogFired(token) => Watchdog(s, token, screen)
  }

  predicate Legal(s: State, es: seq<Event>, screen: Screen)
    decreases |es|
  {
    es == [] || (Possible(s, es[0]) && Legal(Apply(s, es[0], screen), es[1..], screen))
  }

  function Run(s: State, es: seq<Event>, screen: Screen): State
    requires Legal(s, es, screen)
    decreases |es|
  {
    if es == [] then s else Run(Apply(s, es[0], screen), es[1..], screen)
  }

  // ---------------------------------------------------------------- invariants

  function Completions(completed: seq<(Start, Outcome)>, start: Start): nat {
    if completed == [] then 0
    else Completions(completed[..|completed| - 1], start) + (if completed[|completed| - 1].0 == start then 1 else 0)
  }

  lemma CompletionsAppend(completed: seq<(Start, Outcome)>, last: (Start, Outcome), start: Start)
    ensures Completions(completed + [last], start) == Completions(completed, start) + (if last.0 == start then 1 else 0)
  {
    assert (completed + [last])[..|completed|] == completed;
  }

  /** Every start but the pending one has been completed exactly once. */
  ghost predicate LedgerOk(s: State) {
    && (s.completion.Some? ==> s.completion.value < s.starts)
    && forall k: Start :: Completions(s.completed, k) == if k < s.starts && s.completion != Some(k) then 1 else 0
  }

  /** Between events: the pending sign-in owns the wanted view, every transition but the one in
      flight has ended, and with none in flight the screen shows what is wanted. */
  predicate Coherent(s: State) {
    && s.completion == s.view
    && (s.inFlight.Some? ==> s.inFlight.value == |s.begun| && 0 < |s.begun|)
    && (forall n | 1 <= n <= |s.begun| :: n in s.ended || s.inFlight == Some(n))
  }

  predicate Settled(s: State) {
    s.inFlight.None? ==> s.shown == s.view
  }

  ghost predicate Inv(s: State) {
    LedgerOk(s) && Coherent(s) && Settled(s)
  }

  lemma InitialInv()
    ensures Inv(INITIAL)
  {
  }

  lemma CompleteKeeps(s: State, outcome: Outcome)
    requires LedgerOk(s) && Coherent(s)
    ensures LedgerOk(Complete(s, outcome)) && Coherent(Complete(s, outcome))
  {
    if s.completion.Some? {
      forall k: Start
        ensures Completions(Complete(s, outcome).completed, k) == if k < s.starts then 1 else 0
      {
        CompletionsAppend(s.completed, (s.completion.value, outcome), k);
      }
    }
  }

  /** `sync` ends with the screen settled or a transition in flight, whatever the screen answers. */
  lemma {:induction false} SyncKeeps(s: State, screen: Screen)
    requires LedgerOk(s) && Coherent(s)
    ensures Inv(Sync(s, screen))
    decreases Todo(s.shown, s.view)
  {
    hide Completions, Lower;
    if s.inFlight.None? && s.shown != s.view {
      var token := |s.begun| + 1;
      if s.shown.Some? {
        var s1 := Begin(s, Dismissing(s.shown.value));
        if screen(token).Now? {
          SyncKeeps(AfterDismiss(s1, token, s.shown.value), screen);
        }
      } else {
        var s1 := Begin(s, Presenting(s.view.value));
        if screen(token).Now? {
          CompleteKeeps(End(s1, token), Failed("cannot show sign-in"));
          SyncKeeps(AfterPresent(s1, token, s.view.value, screen(token).ok), screen);
        }
      }
    }
  }

  lemma FinishKeeps(s: State, outcome: Outcome, screen: Screen)
    requires LedgerOk(s) && Coherent(s) && (s.completion.None? ==> Settled(s))
    ensures Inv(Finish(s, outcome, screen))
  {
    CompleteKeeps(s, outcome);
    if s.completion.Some? {
      SyncKeeps(Complete(s, outcome), screen);
    }
  }

  lemma StartKeeps(s: State, urlScheme: Option<string>, callbackScheme: string, screen: Screen)
    requires Inv(s)
    ensures Inv(StartSignIn(s, urlScheme, callbackScheme, screen))
  {
    hide Completions, Lower, Sync, Finish;
    var s1 := Finish(s, Cancelled("superseded by a new sign-in"), screen);
    FinishKeeps(s, Cancelled("superseded by a new sign-in"), screen);
    FinishEmpties(s, Cancelled("superseded by a new sign-in"), screen);
    var id := s1.starts;
    if GoodStart(urlScheme, callbackScheme) {
      SyncKeeps(s1.(starts := id + 1, completion := Some(id), callbackScheme := Lower(callbackScheme),
                    view := Some(id)), screen);
    } else {
      forall k: Start
        ensures Completions(s1.completed + [(id, Failed("bad sign-in URL"))], k) == if k < id + 1 then 1 else 0
      {
        CompletionsAppend(s1.completed, (id, Failed("bad sign-in URL")), k);
      }
    }
  }

  /** With nothing wanted, `sync` starts no sign-in. */
  lemma {:induction false} SyncWantsNothing(s: State, screen: Screen)
    requires s.completion.None? && s.view.None?
    ensures var s' := Sync(s, screen); s'.completion.None? && s'.view.None? && s'.starts == s.starts
    decreases Todo(s.shown, s.view)
  {
    if s.inFlight.None? && s.shown.Some? && screen(|s.begun| + 1).Now? {
      SyncWantsNothing(AfterDismiss(Begin(s, Dismissing(s.shown.value)), |s.begun| + 1, s.shown.value), screen);
    }
  }

  lemma FinishEmpties(s: State, outcome: Outcome, screen: Screen)
    requires s.completion == s.view
    ensures var s' := Finish(s, outcome, screen); s'.completion.None? && s'.view.None? && s'.starts == s.starts
  {
    if s.completion.Some? {
      SyncWantsNothing(Complete(s, outcome), screen);
    }
  }

  lemma HandleKeeps(s: State, urlScheme: Option<string>, url: string, screen: Screen)
    requires Inv(s)
    ensures Inv(Handle(s, urlScheme, url, screen))
  {
    hide Finish, LedgerOk, Lower;
    FinishKeeps(s, Success(url), screen);
  }

  lemma ClosedKeeps(s: State, view: Start, screen: Screen)
    requires Inv(s)
    ensures Inv(ClosedByUser(s, view, screen))
  {
    if s.view == Some(view) {
      FinishKeeps(if s.shown == s.view then s.(shown := None) else s, Cancelled("sign-in cancelled"), screen);
    }
  }

  lemma AnswersKeep(s: State, token: nat, view: Start, ok: bool, screen: Screen)
    requires Inv(s)
    ensures Inv(PresentAnswered(s, token, view, ok, screen))
    ensures Inv(DismissAnswered(s, token, view, screen))
    ensures Inv(Watchdog(s, token, screen))
  {
    assert LedgerOk(End(s, token)) && Coherent(End(s, token));
    CompleteKeeps(End(s, token), Failed("cannot show sign-in"));
    SyncKeeps(AfterPresent(s, token, view, ok), screen);
    SyncKeeps(AfterDismiss(s, token, view), screen);
    SyncKeeps(End(s, token), screen);
  }

  lemma EventKeepsInv(s: State, e: Event, screen: Screen)
    requires Inv(s) && Possible(s, e)
    ensures Inv(Apply(s, e, screen))
  {
    hide LedgerOk, Coherent, Settled, StartSignIn, Finish, ClosedByUser, PresentAnswered, DismissAnswered, Watchdog,
         Lower;
    match e
    case Started(urlScheme, callbackScheme) => StartKeeps(s, urlScheme, callbackScheme, screen);
    case Opened(urlScheme, url) => HandleKeeps(s, urlScheme, url, screen);
    case UserClosed(view) => ClosedKeeps(s, view, screen);
    case PresentEnded(token, ok) => AnswersKeep(s, token, s.begun[token - 1].view, ok, screen);
    case DismissEnded(token) => AnswersKeep(s, token, s.begun[token - 1].view, true, screen);
    case WatchdogFired(token) => AnswersKeep(s, token, 0, true, screen);
  }

  lemma {:induction false} RunKeepsInv(s: State, es: seq<Event>, screen: Screen)
    requires Inv(s) && Legal(s, es, screen)
    ensures Inv(Run(s, es, screen))
    decreases |es|
  {
    if es != [] {
      EventKeepsInv(s, es[0], screen);
      RunKeepsInv(Apply(s, es[0], screen), es[1..], screen);
    }
  }

  // ---------------------------------------------------------------- main results

  /** Every start gets exactly one completion, except the pending one, which has had none. */
  lemma EachStartCompletesOnce(es: seq<Event>, screen: Screen, k: Start)
    requires Legal(INITIAL, es, screen)
    ensures var s := Run(INITIAL, es, screen);
            Completions(s.completed, k) == if k < s.starts && s.completion != Some(k) then 1 else 0
  {
    RunKeepsInv(INITIAL, es, screen);
  }

  /** After every event, with no transition in flight the view on screen is the wanted one, and
      every transition begun before the one in flight has been answered or given up. */
  lemma ScreenFollows(es: seq<Event>, screen: Screen)
    requires Legal(INITIAL, es, screen)
    ensures var s := Run(INITIAL, es, screen);
            && s.completion == s.view
            && (s.inFlight.None? ==> s.shown == s.view)
            && forall n | 1 <= n <= |s.begun| && s.inFlight != Some(n) :: n in s.ended
  {
    RunKeepsInv(INITIAL, es, screen);
  }

  // ---------------------------------------------------------------- few transitions

  /** What may still begin while every transition is answered in time: 2 a dismissal and then a
      presentation, 1 a presentation, 0 nothing. */
  function Budget(s: State): nat {
    if s.inFlight.None? || |s.begun| == 0 then 0
    else match s.begun[|s.begun| - 1]
         case Dismissing(v) => if s.shown.None? || s.shown == Some(v) then 1 else 2
         case Presenting(v) => if s.shown.None? && s.view == Some(v) then 0 else 2
  }

  /** From `s` to `s'` only transitions allowed by `budget` were begun, and what `s'` still allows
      fits in what is left of it. */
  predicate Within(budget: nat, s: State, s': State) {
    && s.begun <= s'.begun
    && var more := s'.begun[|s.begun|..];
       && (more == [] ==> Budget(s') <= budget)
       && (|more| == 1 && more[0].Dismissing? ==> budget >= 2 && Budget(s') <= 1)
       && (|more| == 1 && more[0].Presenting? ==> budget >= 1 && Budget(s') == 0)
       && (|more| == 2 ==> budget >= 2 && more[0].Dismissing? && more[1].Presenting? && Budget(s') == 0)
       && |more| <= 2
  }

  lemma OneDismissalMore(s: State, s2: State, t: State, v: Start)
    requires s2.begun == s.begun + [Dismissing(v)] && Within(1, s2, t)
    ensures Within(2, s, t)
  {
    assert t.begun[|s.begun|..] == [Dismissing(v)] + t.begun[|s2.begun|..];
  }

  /** The transitions one `sync` begins from a state with none in flight: at most a dismissal of what
      is up and then a presentation of what is wanted. */
  lemma {:induction false} SyncWithin(s: State, screen: Screen)
    requires s.completion == s.view && s.inFlight.None?
    ensures Within(if s.shown.Some? then 2 else 1, s, Sync(s, screen))
    decreases Todo(s.shown, s.view)
  {
    var token := |s.begun| + 1;
    if s.shown.Some? && s.shown != s.view {
      var s1 := Begin(s, Dismissing(s.shown.value));
      if screen(token).Now? {
        var s2 := AfterDismiss(s1, token, s.shown.value);
        SyncWithin(s2, screen);
        OneDismissalMore(s, s2, Sync(s2, screen), s.shown.value);
      }
    } else if s.shown.None? && s.view.Some? {
      var s1 := Begin(s, Presenting(s.view.value));
      if screen(token).Now? {
        assert Sync(AfterPresent(s1, token, s.view.value, screen(token).ok), screen)
            == AfterPresent(s1, token, s.view.value, screen(token).ok);
      }
    }
  }

  /** The answer to the transition in flight. */
  predicate Timely(s: State, e: Event) {
    Possible(s, e) && (e.PresentEnded? || e.DismissEnded?) && s.inFlight == Some(e.token)
  }

  lemma TimelyAnswer(s: State, e: Event, screen: Screen)
    requires Coherent(s) && Timely(s, e)
    ensures Within(Budget(s), s, Apply(s, e, screen))
  {
    match e
    case PresentEnded(token, ok) =>
      SyncWithin(AfterPresent(s, token, s.begun[token - 1].view, ok), screen);
    case DismissEnded(token) =>
      SyncWithin(AfterDismiss(s, token, s.begun[token - 1].view), screen);
  }

  predicate AllTimely(s: State, es: seq<Event>, screen: Screen)
    decreases |es|
  {
    es == [] || (Timely(s, es[0]) && AllTimely(Apply(s, es[0], screen), es[1..], screen))
  }

  lemma {:induction false} TimelyRun(s: State, es: seq<Event>, screen: Screen)
    requires Inv(s) && AllTimely(s, es, screen)
    ensures Legal(s, es, screen) && Within(Budget(s), s, Run(s, es, screen))
    decreases |es|
  {
    if es != [] {
      var s1 := Apply(s, es[0], screen);
      TimelyAnswer(s, es[0], screen);
      EventKeepsInv(s, es[0], screen);
      TimelyRun(s1, es[1..], screen);
    }
  }

  /** With nothing wanted, `sync` at most dismisses what is up. */
  lemma {:induction false} SyncDismisses(s: State, screen: Screen)
    requires s.completion.None? && s.view.None? && s.inFlight.None?
    ensures var s' := Sync(s, screen);
            && s'.begun == s.begun + (if s.shown.Some? then [Dismissing(s.shown.value)] else [])
            && if s'.inFlight.None? then s'.shown.None? else s'.shown == s.shown && s.shown.Some?
  {
    if s.shown.Some? && screen(|s.begun| + 1).Now? {
      var s2 := AfterDismiss(Begin(s, Dismissing(s.shown.value)), |s.begun| + 1, s.shown.value);
      assert Sync(s2, screen) == s2;
    }
  }

  /** Superseding the pending sign-in begins at most the dismissal of its view. */
  lemma FinishDismisses(s: State, outcome: Outcome, screen: Screen)
    requires Coherent(s) && Settled(s)
    ensures var s1 := Finish(s, outcome, screen);
            if s1.inFlight.None? then
              && s1.shown.None?
              && (s1.begun == s.begun || (s.shown.Some? && s1.begun == s.begun + [Dismissing(s.shown.value)]))
            else
              || s1.begun == s.begun
              || (s.shown.Some? && s1.shown == s.shown && s1.begun == s.begun + [Dismissing(s.shown.value)])
  {
    hide Lower, Sync;
    if s.completion.Some? && s.inFlight.None? {
      SyncDismisses(Complete(s, outcome), screen);
    } else if s.completion.Some? {
      SyncWaits(Complete(s, outcome), screen);
    }
  }

  lemma SyncWaits(s: State, screen: Screen)
    requires s.inFlight.Some?
    ensures Sync(s, screen) == s
  {
  }

  lemma DismissalThenWithin(s: State, s1: State, s3: State)
    requires || s1.begun == s.begun
             || (|s1.begun| == |s.begun| + 1 && s.begun <= s1.begun && s1.begun[|s.begun|].Dismissing?)
    requires Within(1, s1, s3)
    ensures Within(2, s, s3)
  {
    assert s3.begun[|s.begun|..] == s1.begun[|s.begun|..] + s3.begun[|s1.begun|..];
  }

  lemma DismissalInFlight(s: State, s1: State, up: Option<Start>)
    requires s1.begun == s.begun || (up.Some? && s1.shown == up && s1.begun == s.begun + [Dismissing(up.value)])
    ensures Within(2, s, s1)
  {
    if s1.begun != s.begun {
      assert s1.begun[|s.begun|..] == [Dismissing(up.value)];
    }
  }

  lemma StartWithin(s: State, urlScheme: Option<string>, callbackScheme: string, screen: Screen)
    requires Coherent(s) && Settled(s)
    ensures Within(2, s, StartSignIn(s, urlScheme, callbackScheme, screen))
  {
    hide Lower, Sync, Finish, GoodStart, Coherent, Settled, Todo, Within, Budget;
    var why := Cancelled("superseded by a new sign-in");
    var s1 := Finish(s, why, screen);
    FinishDismisses(s, why, screen);
    var id := s1.starts;
    var s2 := s1.(starts := id + 1, completion := Some(id), callbackScheme := Lower(callbackScheme), view := Some(id));
    if !GoodStart(urlScheme, callbackScheme) {
      BadStartWithin(s, s1, StartSignIn(s, urlScheme, callbackScheme, screen));
    } else if s1.inFlight.None? {
      SyncWithin(s2, screen);
      DismissalThenWithin(s, s2, Sync(s2, screen));
    } else {
      SyncWaits(s2, screen);
      DismissalInFlight(s, s2, s.shown);
    }
  }

  lemma BadStartWithin(s: State, s1: State, s': State)
    requires s' == s1.(starts := s'.starts, completed := s'.completed)
    requires s1.begun == s.begun || (s.shown.Some? && s1.begun == s.begun + [Dismissing(s.shown.value)])
    requires s1.inFlight.None? || s1.begun == s.begun || s1.shown == s.shown
    ensures Within(2, s, s')
  {
  }

  lemma FinishWithin(s: State, outcome: Outcome, screen: Screen)
    requires Coherent(s)
    ensures Within(2, s, Finish(s, outcome, screen))
  {
    if s.completion.Some? && s.inFlight.None? {
      SyncWithin(Complete(s, outcome), screen);
    }
  }

  predicate ByUser(e: Event) {
    e.Started? || e.Opened? || e.UserClosed?
  }

  lemma UserEventWithin(s: State, e: Event, screen: Screen)
    requires Coherent(s) && Settled(s) && ByUser(e)
    ensures Within(2, s, Apply(s, e, screen))
  {
    hide Finish, StartSignIn, Within, Coherent, Lower;
    match e
    case Started(urlScheme, callbackScheme) => StartWithin(s, urlScheme, callbackScheme, screen);
    case Opened(urlScheme, url) => FinishWithin(s, Success(url), screen); NothingWithin(s);
    case UserClosed(view) =>
      NothingWithin(s);
      if s.view == Some(view) {
        var s1 := if s.shown == s.view then s.(shown := None) else s;
        ShownElsewhere(s, s1);
        FinishWithin(s1, Cancelled("sign-in cancelled"), screen);
        ShownIsNoMotion(s, s1, Finish(s1, Cancelled("sign-in cancelled"), screen));
      }
  }

  lemma NothingWithin(s: State)
    ensures Within(2, s, s)
  {
  }

  lemma ShownElsewhere(s: State, s1: State)
    requires Coherent(s) && s1 == s.(shown := s1.shown)
    ensures Coherent(s1)
  {
  }

  lemma ShownIsNoMotion(s: State, s1: State, s': State)
    requires s1 == s.(shown := s1.shown) && Within(2, s1, s')
    ensures Within(2, s, s')
  {
  }

  /** If every transition is answered in time, then from a user event on at most two transitions
      begin, and two only as a dismissal followed by a presentation. */
  lemma DismissThenPresent(before: seq<Event>, e: Event, after: seq<Event>, screen: Screen)
    requires Legal(INITIAL, before, screen) && ByUser(e)
    requires AllTimely(Apply(Run(INITIAL, before, screen), e, screen), after, screen)
    ensures var s := Run(INITIAL, before, screen);
            Legal(Apply(s, e, screen), after, screen) &&
            var s' := Run(Apply(s, e, screen), after, screen);
            && s.begun <= s'.begun
            && var more := s'.begun[|s.begun|..];
               |more| <= 2 && (|more| == 2 ==> more[0].Dismissing? && more[1].Presenting?)
  {
    hide Apply, LedgerOk, Budget;
    InitialInv();
    RunKeepsInv(INITIAL, before, screen);
    var s := Run(INITIAL, before, screen);
    var s1 := Apply(s, e, screen);
    UserEventWithin(s, e, screen);
    EventKeepsInv(s, e, screen);
    TimelyRun(s1, after, screen);
  }
}

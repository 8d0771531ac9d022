/** Which outcome each sign-in gets: over all runs, exactly when. */
module SignInOutcomes {
  import opened Wrappers
  import opened SignInSpec

  const NOT_SHOWN := Failed("cannot show sign-in")
  const CLOSED := Cancelled("sign-in cancelled")
  const SUPERSEDED := Cancelled("superseded by a new sign-in")
  const BAD_URL := Failed("bad sign-in URL")

  /** The callback schemes of the starts in a run, as they were given. */
  function Schemes(es: seq<Event>): seq<string> {
    if es == [] then []
    else (if es[0].Started? then [es[0].callbackScheme] else []) + Schemes(es[1..])
  }

  // ---------------------------------------------------------------- what happens inside `sync`

  /** Between s and t a presentation of this view began and failed at once. */
  ghost predicate FailsAtOnce(s: State, t: State, screen: Screen, k: Start) {
    exists i :: |s.begun| <= i < |t.begun| && t.begun[i] == Presenting(k) && screen(i + 1) == Now(false)
  }

  /** Every presentation between s and t is of the wanted view. */
  predicate PresentsOnly(s: State, t: State, view: Option<Start>) {
    s.begun <= t.begun && forall i | |s.begun| <= i < |t.begun| && t.begun[i].Presenting? ::
      view == Some(t.begun[i].view)
  }

  ghost predicate SyncOk(s: State, t: State, screen: Screen) {
    && t.callbackScheme == s.callbackScheme && t.starts == s.starts
    && PresentsOnly(s, t, s.view)
    && (if s.view.Some? && FailsAtOnce(s, t, screen, s.view.value)
        then t.completed == s.completed + [(s.view.value, NOT_SHOWN)] && t.completion.None?
        else t.completed == s.completed && t.completion == s.completion)
  }

  lemma {:induction false} SyncLedger(s: State, screen: Screen)
    requires s.completion == s.view
    ensures SyncOk(s, Sync(s, screen), screen)
    decreases Todo(s.shown, s.view)
  {
    hide SyncOk;
    var token := |s.begun| + 1;
    var t := Sync(s, screen);
    if s.inFlight.Some? || s.shown == s.view {
      SameIsOk(s, screen);
    } else if s.shown.Some? {
      var s1 := Begin(s, Dismissing(s.shown.value));
      if screen(token).Now? {
        var s2 := AfterDismiss(s1, token, s.shown.value);
        SyncLedger(s2, screen);
        assert t == DismissAnswered(s1, token, s.shown.value, screen) == Sync(s2, screen);
        DismissedFirst(s, s2, t, screen);
      } else {
        BegunIsOk(s, s1, screen);
      }
    } else {
      PresentedNow(s, screen);
    }
  }

  lemma SameIsOk(s: State, screen: Screen)
    ensures SyncOk(s, s, screen)
  {}

  lemma BegunIsOk(s: State, s1: State, screen: Screen)
    requires s.shown.Some? && s1 == Begin(s, Dismissing(s.shown.value))
    ensures SyncOk(s, s1, screen)
  {
    assert s1.begun[|s.begun|] == Dismissing(s.shown.value);
  }

  lemma DismissedFirst(s: State, s2: State, t: State, screen: Screen)
    requires |s2.begun| == |s.begun| + 1 && s.begun <= s2.begun && s2.begun[|s.begun|].Dismissing?
    requires s2.completed == s.completed && s2.completion == s.completion && s2.view == s.view
    requires s2.callbackScheme == s.callbackScheme && s2.starts == s.starts && SyncOk(s2, t, screen)
    ensures SyncOk(s, t, screen)
  {
    assert t.begun[|s.begun|] == s2.begun[|s.begun|];
    if s.view.Some? {
      var k := s.view.value;
      if FailsAtOnce(s, t, screen, k) {
        var i :| |s.begun| <= i < |t.begun| && t.begun[i] == Presenting(k) && screen(i + 1) == Now(false);
        assert i != |s.begun|;
      }
    }
  }

  lemma PresentedNow(s: State, screen: Screen)
    requires s.completion == s.view && s.inFlight.None? && s.shown.None? && s.view.Some?
    ensures SyncOk(s, Sync(s, screen), screen)
  {
    var token := |s.begun| + 1;
    var s1 := Begin(s, Presenting(s.view.value));
    var t := Sync(s, screen);
    if screen(token).Now? {
      var s2 := AfterPresent(s1, token, s.view.value, screen(token).ok);
      assert t == PresentAnswered(s1, token, s.view.value, screen(token).ok, screen);
      assert t == Sync(s2, screen) == s2;
    } else {
      assert t == s1;
    }
    assert t.begun == s.begun + [Presenting(s.view.value)] && t.begun[|s.begun|] == Presenting(s.view.value);
  }

  // ---------------------------------------------------------------- one event

  /** A completion made by this event. */
  predicate Completes(s: State, t: State, k: Start, o: Outcome) {
    |s.completed| <= |t.completed| && (k, o) in t.completed[|s.completed|..]
  }

  /** The presentation that fails is the one in flight, and of this view. */
  predicate FailsLate(s: State, e: Event, k: Start) {
    && e.PresentEnded? && !e.ok && s.inFlight == Some(e.token)
    && 1 <= e.token <= |s.begun| && s.begun[e.token - 1] == Presenting(k)
  }

  /** The outcome that start k is due at this event, from what is pending and what happens. */
  ghost predicate Due(s: State, e: Event, t: State, screen: Screen, k: Start, o: Outcome) {
    var pending := s.completion == Some(k);
    match o
    case Success(url) =>
      pending && e.Opened? && e.url == url && e.urlScheme.Some? && Lower(e.urlScheme.value) == s.callbackScheme
    case Cancelled(_) =>
      pending && ((o == CLOSED && e == UserClosed(k)) || (o == SUPERSEDED && e.Started?))
    case Failed(_) =>
      || (o == BAD_URL && e.Started? && k == s.starts && !GoodStart(e.urlScheme, e.callbackScheme))
      || (o == NOT_SHOWN && ((pending && FailsLate(s, e, k)) || FailsAtOnce(s, t, screen, k)))
  }

  ghost predicate Explained(s: State, e: Event, t: State, screen: Screen) {
    s.completed <= t.completed && forall k: Start, o :: Completes(s, t, k, o) <==> Due(s, e, t, screen, k, o)
  }

  lemma Completed(s: State, t: State, added: seq<(Start, Outcome)>)
    requires t.completed == s.completed + added
    ensures s.completed <= t.completed && forall k: Start, o :: Completes(s, t, k, o) <==> (k, o) in added
  {
    assert t.completed[|s.completed|..] == added;
  }

  /** `finish` completes the pending start with the outcome given, and presents nothing. */
  lemma FinishLedger(s: State, outcome: Outcome, screen: Screen)
    requires s.completion == s.view
    ensures var t := Finish(s, outcome, screen);
            && t.completed == s.completed + (if s.completion.Some? then [(s.completion.value, outcome)] else [])
            && t.callbackScheme == s.callbackScheme && t.starts == s.starts && PresentsOnly(s, t, None)
            && t.completion.None?
    ensures forall k: Start :: !FailsAtOnce(s, Finish(s, outcome, screen), screen, k)
  {
    if s.completion.Some? {
      SyncLedger(Complete(s, outcome), screen);
      var t := Finish(s, outcome, screen);
      assert PresentsOnly(s, t, None);
    }
  }

  /** The completions a start makes: of the pending one, and of its own when it fails. */
  function StartAdds(s: State, good: bool, fails: bool): seq<(Start, Outcome)> {
    (if s.completion.Some? then [(s.completion.value, SUPERSEDED)] else [])
    + (if !good then [(s.starts, BAD_URL)] else if fails then [(s.starts, NOT_SHOWN)] else [])
  }

  lemma StartDue(s: State, e: Event, t: State, screen: Screen, fails: bool)
    requires e.Started? && (fails ==> GoodStart(e.urlScheme, e.callbackScheme))
    requires forall k: Start :: FailsAtOnce(s, t, screen, k) <==> fails && k == s.starts
    ensures forall k: Start, o ::
              Due(s, e, t, screen, k, o) <==> (k, o) in StartAdds(s, GoodStart(e.urlScheme, e.callbackScheme), fails)
  {
    hide FailsAtOnce, GoodStart, Lower;
  }

  lemma BadStarted(s: State, e: Event, screen: Screen)
    requires Coherent(s) && e.Started? && !GoodStart(e.urlScheme, e.callbackScheme)
    ensures Explained(s, e, Apply(s, e, screen), screen)
  {
    hide Finish, Sync, GoodStart, Lower, Due, Completes, FailsAtOnce;
    FinishLedger(s, SUPERSEDED, screen);
    var t := Apply(s, e, screen);
    Completed(s, t, StartAdds(s, false, false));
    NothingAtOnce(s, Finish(s, SUPERSEDED, screen), t, screen);
    StartDue(s, e, t, screen, false);
  }

  lemma GoodStarted(s: State, e: Event, screen: Screen)
    requires Coherent(s) && e.Started? && GoodStart(e.urlScheme, e.callbackScheme)
    ensures Explained(s, e, Apply(s, e, screen), screen)
  {
    hide Finish, Sync, GoodStart, Lower, Due, Completes, FailsAtOnce, PresentsOnly;
    var s1, id := Finish(s, SUPERSEDED, screen), s.starts;
    FinishLedger(s, SUPERSEDED, screen);
    var s2 := s1.(starts := id + 1, completion := Some(id), callbackScheme := Lower(e.callbackScheme),
      view := Some(id));
    SyncLedger(s2, screen);
    var t := Apply(s, e, screen);
    OnlyFromSync(s, s1, s2, t, screen, id);
    var fails := FailsAtOnce(s, t, screen, id);
    Completed(s, t, StartAdds(s, true, fails));
    StartDue(s, e, t, screen, fails);
  }

  lemma NothingAtOnce(s: State, s1: State, t: State, screen: Screen)
    requires PresentsOnly(s, s1, None) && t.begun == s1.begun
    ensures forall k: Start :: !FailsAtOnce(s, t, screen, k)
  {}

  lemma NotPresented(s: State, s1: State, t: State, i: nat, k: Start)
    requires PresentsOnly(s, s1, None) && s1.begun <= t.begun && |s.begun| <= i < |t.begun|
    requires t.begun[i] == Presenting(k)
    ensures i >= |s1.begun|
  {}

  lemma OnlyFromSync(s: State, s1: State, s2: State, t: State, screen: Screen, id: Start)
    requires PresentsOnly(s, s1, None) && s2.begun == s1.begun && PresentsOnly(s2, t, Some(id))
    ensures forall k: Start :: FailsAtOnce(s, t, screen, k) <==> k == id && FailsAtOnce(s2, t, screen, id)
  {
    forall k: Start | FailsAtOnce(s, t, screen, k) ensures k == id && FailsAtOnce(s2, t, screen, id) {
      var i :| |s.begun| <= i < |t.begun| && t.begun[i] == Presenting(k) && screen(i + 1) == Now(false);
      NotPresented(s, s1, t, i, k);
    }
  }

  lemma OpenedExplained(s: State, e: Event, screen: Screen)
    requires Coherent(s) && e.Opened?
    ensures Explained(s, e, Apply(s, e, screen), screen)
  {
    hide Finish, Lower;
    FinishLedger(s, Success(e.url), screen);
    Completed(s, Apply(s, e, screen), if Handles(s, e.urlScheme) then [(s.completion.value, Success(e.url))] else []);
  }

  lemma ClosedExplained(s: State, e: Event, screen: Screen)
    requires Coherent(s) && e.UserClosed?
    ensures Explained(s, e, Apply(s, e, screen), screen)
  {
    hide Finish;
    var s1 := if s.shown == s.view then s.(shown := None) else s;
    FinishLedger(s1, CLOSED, screen);
    Completed(s, Apply(s, e, screen), if s.view == Some(e.view) then [(s.completion.value, CLOSED)] else []);
  }

  /** An event after which `sync` alone is run. */
  lemma SyncExplained(s: State, e: Event, s1: State, screen: Screen)
    requires Coherent(s) && s1.completion == s1.view == s.view && s1.begun == s.begun && s1.completed == s.completed
    requires !e.Started? && !e.Opened? && !e.UserClosed?
    requires forall k: Start :: FailsLate(s, e, k) ==> s.completion != Some(k)
    ensures Explained(s, e, Sync(s1, screen), screen)
  {
    hide Sync;
    SyncLedger(s1, screen);
    var t := Sync(s1, screen);
    forall k: Start | FailsAtOnce(s, t, screen, k) ensures s.view == Some(k) && FailsAtOnce(s1, t, screen, k) {
      var i :| |s.begun| <= i < |t.begun| && t.begun[i] == Presenting(k) && screen(i + 1) == Now(false);
    }
    var fails := s.view.Some? && FailsAtOnce(s1, t, screen, s.view.value);
    Completed(s, t, if fails then [(s.view.value, NOT_SHOWN)] else []);
  }

  lemma PresentExplained(s: State, e: Event, screen: Screen)
    requires Coherent(s) && e.PresentEnded? && Possible(s, e)
    ensures Explained(s, e, Apply(s, e, screen), screen)
  {
    var view := s.begun[e.token - 1].view;
    if !e.ok && s.inFlight == Some(e.token) && s.view == Some(view) {
      var s1 := Complete(End(s, e.token), NOT_SHOWN);
      SyncLedger(s1, screen);
      var t := Sync(s1, screen);
      assert PresentsOnly(s, t, None);
      NothingAtOnce(s, t, t, screen);
      Completed(s, t, [(view, NOT_SHOWN)]);
    } else {
      SyncExplained(s, e, AfterPresent(s, e.token, view, e.ok), screen);
    }
  }

  lemma EventExplained(s: State, e: Event, screen: Screen)
    requires Coherent(s) && Possible(s, e)
    ensures Explained(s, e, Apply(s, e, screen), screen)
  {
    hide Explained, Sync, Finish, GoodStart;
    match e
    case Started(urlScheme, callbackScheme) =>
      if GoodStart(urlScheme, callbackScheme) {
        GoodStarted(s, e, screen);
      } else {
        BadStarted(s, e, screen);
      }
    case Opened(_, _) => OpenedExplained(s, e, screen);
    case UserClosed(_) => ClosedExplained(s, e, screen);
    case PresentEnded(_, _) => PresentExplained(s, e, screen);
    case DismissEnded(token) => SyncExplained(s, e, AfterDismiss(s, token, s.begun[token - 1].view), screen);
    case WatchdogFired(token) => NothingChanged(s, e, screen);
  }

  lemma NothingChanged(s: State, e: Event, screen: Screen)
    requires Coherent(s) && e.WatchdogFired? && Possible(s, e)
    ensures Explained(s, e, Apply(s, e, screen), screen)
  {
    hide Sync;
    if s.inFlight == Some(e.token) {
      SyncExplained(s, e, End(s, e.token), screen);
    } else {
      Completed(s, s, []);
    }
  }

  // ---------------------------------------------------------------- whole runs

  /** Which start is pending after an event, and under which scheme. */
  lemma PendingStep(s: State, e: Event, screen: Screen)
    requires Coherent(s) && Possible(s, e)
    ensures var t := Apply(s, e, screen);
            && t.starts == s.starts + (if e.Started? then 1 else 0)
            && (t.completion.Some? ==>
                  if e.Started? then t.completion == Some(s.starts) && t.callbackScheme == Lower(e.callbackScheme)
                  else t.completion == s.completion && t.callbackScheme == s.callbackScheme)
  {
    hide Sync, Lower;
    match e
    case Started(urlScheme, callbackScheme) =>
      FinishLedger(s, SUPERSEDED, screen);
      FinishEmpties(s, SUPERSEDED, screen);
      var s1 := Finish(s, SUPERSEDED, screen);
      SyncLedger(s1.(starts := s1.starts + 1, completion := Some(s1.starts), callbackScheme := Lower(callbackScheme),
                     view := Some(s1.starts)), screen);
    case Opened(_, url) => FinishLedger(s, Success(url), screen);
    case UserClosed(_) => FinishLedger(if s.shown == s.view then s.(shown := None) else s, CLOSED, screen);
    case PresentEnded(token, ok) => SyncLedger(AfterPresent(s, token, s.begun[token - 1].view, ok), screen);
    case DismissEnded(token) => SyncLedger(AfterDismiss(s, token, s.begun[token - 1].view), screen);
    case WatchdogFired(token) => SyncLedger(End(s, token), screen);
  }

  lemma SchemesFirst(es: seq<Event>)
    requires es != []
    ensures Schemes(es) == (if es[0].Started? then [es[0].callbackScheme] else []) + Schemes(es[1..])
  {}

  lemma {:induction false} PendingRun(s: State, es: seq<Event>, screen: Screen)
    requires Inv(s) && Legal(s, es, screen)
    ensures var t := Run(s, es, screen);
            && t.starts == s.starts + |Schemes(es)|
            && (t.completion.Some? ==>
                  var k := t.completion.value;
                  if k < s.starts then t.completion == s.completion && t.callbackScheme == s.callbackScheme
                  else k < t.starts && t.callbackScheme == Lower(Schemes(es)[k - s.starts]))
    decreases |es|
  {
    hide Apply, Lower, Inv;
    PendingIsOld(s);
    if es != [] {
      PendingStep(s, es[0], screen);
      EventKeepsInv(s, es[0], screen);
      PendingRun(Apply(s, es[0], screen), es[1..], screen);
      SchemesFirst(es);
    }
  }

  lemma PendingIsOld(s: State)
    requires Inv(s)
    ensures Coherent(s) && (s.completion.Some? ==> s.completion.value < s.starts)
  {}

  predicate OtherCase(c: char, d: char) {
    ('A' <= c <= 'Z' && d as int == c as int + 32) || ('A' <= d <= 'Z' && c as int == d as int + 32)
  }

  /** The same but for the case of ASCII letters. */
  predicate CaseBlind(a: string, b: string) {
    |a| == |b| && forall i | 0 <= i < |a| :: a[i] == b[i] || OtherCase(a[i], b[i])
  }

  lemma LowerIsCaseBlind(a: string, b: string)
    ensures Lower(a) == Lower(b) <==> CaseBlind(a, b)
  {
    if Lower(a) == Lower(b) {
      forall i | 0 <= i < |a| ensures a[i] == b[i] || OtherCase(a[i], b[i]) {
        assert Lower(a)[i] == Lower(b)[i];
      }
    }
  }

  predicate BadStart(urlScheme: Option<string>, callbackScheme: string) {
    || urlScheme.None? || callbackScheme == ""
    || !(CaseBlind(urlScheme.value, "https") || CaseBlind(urlScheme.value, "http"))
  }

  lemma BadStartIs(urlScheme: Option<string>, callbackScheme: string)
    ensures BadStart(urlScheme, callbackScheme) <==> !GoodStart(urlScheme, callbackScheme)
  {
    if urlScheme.Some? {
      LowerIsCaseBlind(urlScheme.value, "https");
      LowerIsCaseBlind(urlScheme.value, "http");
      assert Lower("https") == "https" && Lower("http") == "http";
    }
  }

  /** The start has been made and not completed. */
  predicate Waiting(es: seq<Event>, s: State, k: Start) {
    k < |Schemes(es)| && Completions(s.completed, k) == 0
  }

  /** What is due to start k at event e after the run es, said without the coordinator's own fields but
      for the transition in flight:
      - success, when a URL with the scheme the start asked for is opened while it waits;
      - cancelled, when the user closes its view, or another start is made, while it waits;
      - failed, when its own URL or scheme is bad, or its view cannot be shown. */
  ghost predicate DueInRun(es: seq<Event>, s: State, e: Event, t: State, screen: Screen, k: Start, o: Outcome) {
    match o
    case Success(url) =>
      && Waiting(es, s, k) && e.Opened? && e.url == url && e.urlScheme.Some?
      && CaseBlind(e.urlScheme.value, Schemes(es)[k])
    case Cancelled(why) =>
      && Waiting(es, s, k)
      && (if why == "sign-in cancelled" then e == UserClosed(k)
          else why == "superseded by a new sign-in" && e.Started?)
    case Failed(why) =>
      if why == "bad sign-in URL" then
        e.Started? && k == |Schemes(es)| && BadStart(e.urlScheme, e.callbackScheme)
      else
        && why == "cannot show sign-in"
        && ((Waiting(es, s, k) && FailsLate(s, e, k)) || FailsAtOnce(s, t, screen, k))
  }

  /** In every run, each event completes exactly the starts that are due an outcome, with that outcome. */
  lemma OutcomeExactlyWhen(es: seq<Event>, e: Event, screen: Screen, k: Start, o: Outcome)
    requires Legal(INITIAL, es, screen) && Possible(Run(INITIAL, es, screen), e)
    ensures var s := Run(INITIAL, es, screen);
            var t := Apply(s, e, screen);
            s.completed <= t.completed && (Completes(s, t, k, o) <==> DueInRun(es, s, e, t, screen, k, o))
  {
    hide Apply, Run, Completes, Inv, GoodStart, BadStart, FailsAtOnce, FailsLate, Lower, CaseBlind, LedgerOk;
    var s := Run(INITIAL, es, screen);
    InitialInv();
    RunKeepsInv(INITIAL, es, screen);
    PendingRun(INITIAL, es, screen);
    WaitingIsPending(es, s, k);
    PendingIsOld(s);
    EventExplained(s, e, screen);
    if e.Started? {
      BadStartIs(e.urlScheme, e.callbackScheme);
    }
    if e.Opened? && e.urlScheme.Some? && k < |Schemes(es)| {
      LowerIsCaseBlind(e.urlScheme.value, Schemes(es)[k]);
    }
  }

  lemma WaitingIsPending(es: seq<Event>, s: State, k: Start)
    requires Inv(s) && s.starts == |Schemes(es)|
    ensures Waiting(es, s, k) <==> s.completion == Some(k)
  {}
}

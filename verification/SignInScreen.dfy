/** What the coordinator records as being on screen, against what the screen answers. */
module SignInScreen {
  import opened Wrappers
  import opened SignInSpec
  import opened SignInOutcomes

  /** Between s and t a presentation of this view began and was answered at once. */
  ghost predicate UpAtOnce(s: State, t: State, screen: Screen, v: Start) {
    exists i :: |s.begun| <= i < |t.begun| && t.begun[i] == Presenting(v) && screen(i + 1) == Now(true)
  }

  ghost predicate DownAtOnce(s: State, t: State, screen: Screen, v: Start) {
    exists i :: |s.begun| <= i < |t.begun| && t.begun[i] == Dismissing(v) && screen(i + 1).Now?
  }

  predicate UpLate(s: State, e: Event, v: Start) {
    e.PresentEnded? && e.ok && 1 <= e.token <= |s.begun| && s.begun[e.token - 1] == Presenting(v)
  }

  predicate DownLate(s: State, e: Event, v: Start) {
    e.DismissEnded? && 1 <= e.token <= |s.begun| && s.begun[e.token - 1] == Dismissing(v)
  }

  /** The record of the view on screen changes only as the screen does. */
  ghost predicate RecordMoves(s: State, t: State, screen: Screen) {
    && s.begun <= t.begun
    && (forall v: Start :: t.shown == Some(v) && s.shown != Some(v) ==> UpAtOnce(s, t, screen, v))
    && (forall v: Start :: s.shown == Some(v) && t.shown != Some(v) ==> DownAtOnce(s, t, screen, v))
  }

  lemma {:induction false} SyncRecords(s: State, screen: Screen)
    ensures RecordMoves(s, Sync(s, screen), screen)
    decreases Todo(s.shown, s.view)
  {
    var token := |s.begun| + 1;
    var t := Sync(s, screen);
    if s.inFlight.Some? || s.shown == s.view {
    } else if s.shown.Some? {
      var s1 := Begin(s, Dismissing(s.shown.value));
      if screen(token).Now? {
        var s2 := AfterDismiss(s1, token, s.shown.value);
        SyncRecords(s2, screen);
        assert t == DismissAnswered(s1, token, s.shown.value, screen) == Sync(s2, screen);
        DismissalRecords(s, s2, t, screen, s.shown.value);
      } else {
        assert t == s1;
      }
    } else {
      PresentationRecords(s, screen);
    }
  }

  lemma DismissalRecords(s: State, s2: State, t: State, screen: Screen, u: Start)
    requires s2.begun == s.begun + [Dismissing(u)] && s.shown == Some(u) && s2.shown.None?
    requires screen(|s.begun| + 1).Now? && RecordMoves(s2, t, screen)
    ensures RecordMoves(s, t, screen)
  {
    assert s2.begun <= t.begun && t.begun[|s.begun|] == s2.begun[|s.begun|] == Dismissing(u);
    assert DownAtOnce(s, t, screen, u);
    forall v: Start | UpAtOnce(s2, t, screen, v) ensures UpAtOnce(s, t, screen, v) {
      var i :| |s2.begun| <= i < |t.begun| && t.begun[i] == Presenting(v) && screen(i + 1) == Now(true);
    }
  }

  lemma PresentationRecords(s: State, screen: Screen)
    requires s.inFlight.None? && s.shown.None? && s.view.Some?
    ensures RecordMoves(s, Sync(s, screen), screen)
  {
    var token := |s.begun| + 1;
    var v := s.view.value;
    var s1, t := Begin(s, Presenting(v)), Sync(s, screen);
    if screen(token).Now? {
      var s2 := AfterPresent(s1, token, v, screen(token).ok);
      assert t == PresentAnswered(s1, token, v, screen(token).ok, screen);
      if screen(token).ok || s.completion.Some? {
        assert t == Sync(s2, screen) == s2;
      }
    }
    assert t.begun == s.begun + [Presenting(v)] && t.begun[|s.begun|] == Presenting(v);
  }

  /** Over one event: a view comes to be recorded as shown only when a presentation of it succeeds, and
      ceases to be only when it is dismissed or the user closes it; and what succeeds late with nothing
      recorded, or is dismissed late, is recorded as such unless the screen has moved on within the event. */
  ghost predicate Recorded(s: State, e: Event, t: State, screen: Screen) {
    && (forall v: Start :: t.shown == Some(v) && s.shown != Some(v) ==> UpLate(s, e, v) || UpAtOnce(s, t, screen, v))
    && (forall v: Start :: s.shown == Some(v) && t.shown != Some(v) ==>
          e == UserClosed(v) || DownLate(s, e, v) || DownAtOnce(s, t, screen, v))
    && (forall v: Start :: UpLate(s, e, v) && s.shown.None? ==> t.shown == Some(v) || DownAtOnce(s, t, screen, v))
    && (forall v: Start :: DownLate(s, e, v) && s.shown == Some(v) ==> t.shown != Some(v) || UpAtOnce(s, t, screen, v))
    && (forall v: Start :: e == UserClosed(v) && s.view == Some(v) && s.shown == Some(v) ==> t.shown.None?)
  }

  lemma SyncedRecord(s: State, e: Event, s1: State, screen: Screen)
    requires s1.begun == s.begun && !e.Started? && !e.UserClosed?
    requires forall v: Start :: s1.shown == Some(v) && s.shown != Some(v) ==> UpLate(s, e, v)
    requires forall v: Start :: s.shown == Some(v) && s1.shown != Some(v) ==> DownLate(s, e, v)
    requires forall v: Start :: UpLate(s, e, v) && s.shown.None? ==> s1.shown == Some(v)
    requires forall v: Start :: DownLate(s, e, v) && s.shown == Some(v) ==> s1.shown.None?
    ensures Recorded(s, e, Sync(s1, screen), screen)
  {
    hide Sync, UpLate, DownLate;
    SyncRecords(s1, screen);
    var t := Sync(s1, screen);
    forall v: Start
      ensures UpAtOnce(s1, t, screen, v) == UpAtOnce(s, t, screen, v)
      ensures DownAtOnce(s1, t, screen, v) == DownAtOnce(s, t, screen, v)
    {}
  }

  lemma StartRecorded(s: State, e: Event, screen: Screen)
    requires Coherent(s) && e.Started?
    ensures Recorded(s, e, Apply(s, e, screen), screen)
  {
    hide Sync, GoodStart, Lower;
    var s1 := Finish(s, SUPERSEDED, screen);
    FinishRecords(s, SUPERSEDED, screen);
    if GoodStart(e.urlScheme, e.callbackScheme) {
      var s2 := s1.(starts := s1.starts + 1, completion := Some(s1.starts), callbackScheme := Lower(e.callbackScheme),
        view := Some(s1.starts));
      SyncRecords(s2, screen);
      RecordsJoin(s, s1, s2, Apply(s, e, screen), screen);
    }
  }

  lemma FinishRecords(s: State, outcome: Outcome, screen: Screen)
    ensures RecordMoves(s, Finish(s, outcome, screen), screen)
  {
    hide Sync;
    if s.completion.Some? {
      var s1 := Complete(s, outcome);
      SyncRecords(s1, screen);
      var t := Sync(s1, screen);
      forall v: Start
        ensures UpAtOnce(s1, t, screen, v) == UpAtOnce(s, t, screen, v)
        ensures DownAtOnce(s1, t, screen, v) == DownAtOnce(s, t, screen, v)
      {}
    }
  }

  lemma RecordsJoin(s: State, s1: State, s2: State, t: State, screen: Screen)
    requires RecordMoves(s, s1, screen) && s2.begun == s1.begun && s2.shown == s1.shown && RecordMoves(s2, t, screen)
    ensures RecordMoves(s, t, screen)
  {
    forall v: Start
      ensures UpAtOnce(s, s1, screen, v) ==> UpAtOnce(s, t, screen, v)
      ensures UpAtOnce(s2, t, screen, v) ==> UpAtOnce(s, t, screen, v)
      ensures DownAtOnce(s, s1, screen, v) ==> DownAtOnce(s, t, screen, v)
      ensures DownAtOnce(s2, t, screen, v) ==> DownAtOnce(s, t, screen, v)
    {
      forall i | 0 <= i < |s1.begun| ensures t.begun[i] == s1.begun[i] {}
    }
  }

  lemma CloseRecorded(s: State, e: Event, screen: Screen)
    requires Coherent(s) && e.UserClosed?
    ensures Recorded(s, e, Apply(s, e, screen), screen)
  {
    hide Sync;
    var s1 := if s.shown == s.view then s.(shown := None) else s;
    var t := Apply(s, e, screen);
    if s.view == Some(e.view) {
      FinishRecords(s1, CLOSED, screen);
      forall v: Start
        ensures UpAtOnce(s1, t, screen, v) == UpAtOnce(s, t, screen, v)
        ensures DownAtOnce(s1, t, screen, v) == DownAtOnce(s, t, screen, v)
      {}
      if s.shown == s.view {
        NothingUp(Complete(s1, CLOSED), screen);
      }
    }
  }

  lemma NothingUp(s: State, screen: Screen)
    requires s.shown.None? && s.view.None?
    ensures Sync(s, screen) == s
  {}

  lemma PresentRecorded(s: State, e: Event, screen: Screen)
    requires Coherent(s) && e.PresentEnded? && Possible(s, e)
    ensures Recorded(s, e, Apply(s, e, screen), screen)
  {
    hide Sync;
    var view := s.begun[e.token - 1].view;
    SyncedRecord(s, e, AfterPresent(s, e.token, view, e.ok), screen);
  }

  lemma DismissRecorded(s: State, e: Event, screen: Screen)
    requires e.DismissEnded? && Possible(s, e)
    ensures Recorded(s, e, Apply(s, e, screen), screen)
  {
    hide Sync;
    SyncedRecord(s, e, AfterDismiss(s, e.token, s.begun[e.token - 1].view), screen);
  }

  lemma OpenRecorded(s: State, e: Event, screen: Screen)
    requires e.Opened?
    ensures Recorded(s, e, Apply(s, e, screen), screen)
  {
    hide Sync, Finish, Lower;
    FinishRecords(s, Success(e.url), screen);
  }

  lemma WatchdogRecorded(s: State, e: Event, screen: Screen)
    requires e.WatchdogFired? && Possible(s, e)
    ensures Recorded(s, e, Apply(s, e, screen), screen)
  {
    hide Sync;
    SyncedRecord(s, e, End(s, e.token), screen);
  }

  /** In every run: what is recorded as shown follows the answers of the screen and the user's closing. */
  lemma ShownFollowsScreen(es: seq<Event>, e: Event, screen: Screen)
    requires Legal(INITIAL, es, screen) && Possible(Run(INITIAL, es, screen), e)
    ensures Recorded(Run(INITIAL, es, screen), e, Apply(Run(INITIAL, es, screen), e, screen), screen)
  {
    hide Apply, Run, Recorded, Inv;
    InitialInv();
    RunKeepsInv(INITIAL, es, screen);
    var s := Run(INITIAL, es, screen);
    PendingIsOld(s);
    match e
    case Started(_, _) => StartRecorded(s, e, screen);
    case Opened(_, _) => OpenRecorded(s, e, screen);
    case UserClosed(_) => CloseRecorded(s, e, screen);
    case PresentEnded(_, _) => PresentRecorded(s, e, screen);
    case DismissEnded(_) => DismissRecorded(s, e, screen);
    case WatchdogFired(_) => WatchdogRecorded(s, e, screen);
  }
}

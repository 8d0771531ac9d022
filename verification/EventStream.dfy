/** The event stream that ends when a re-check of the user's access denies: the watch of
    api/src/authz.ts and `endOnDenial` of api/src/proxy.ts, whose callbacks come in any order. */
module EventStream {
  import opened Wrappers

  type Chunk = nat

  /** Calls on the stream's controller. */
  datatype Act = Enqueue(chunk: Chunk) | Close | Error

  /** What `reader.read()` gives. */
  datatype Read = Got(chunk: Chunk) | End | Failed

  /** `stopped` and `busy` belong to the watch, `closed` to the stream; `denials` counts the calls
      of onDenied, `pulls` the reads under way. */
  datatype Stream = Stream(stopped: bool, busy: bool, closed: bool, cancelled: bool, pulls: nat, denials: nat,
                           log: seq<Act>)

  const OPEN := Stream(false, false, false, false, 0, 0, [])

  /** A tick checks in between its start and its end; None when the check threw. */
  datatype Event = TickStart | TickEnd(allowed: Option<bool>) | PullStart | PullEnd(read: Read) | Cancel

  // ---------------------------------------------------------------- the callbacks

  function Stopped(s: Stream): Stream { s.(stopped := true) }

  function Closed(s: Stream): Stream {
    if s.closed then s else Stopped(s.(closed := true)).(log := s.log + [Close])
  }

  function Denied(s: Stream): Stream { Closed(s.(denials := s.denials + 1)).(cancelled := true) }

  function Ticked(s: Stream, allowed: Option<bool>): Stream {
    var s' := if allowed == Some(false) && !s.stopped then Denied(Stopped(s)) else s;
    s'.(busy := false)
  }

  function Pulled(s: Stream, read: Read): Stream
    requires s.pulls > 0
  {
    var s' := s.(pulls := s.pulls - 1);
    match read
    case End => Closed(s')
    case Got(chunk) => if s.closed then s' else s'.(log := s.log + [Enqueue(chunk)])
    case Failed => if s.closed then s' else Stopped(s'.(closed := true)).(log := s.log + [Error])
  }

  function Cancelled(s: Stream): Stream { Stopped(s.(closed := true)).(cancelled := true) }

  /** The timer does not fire once cleared; a tick or read ends only if one is under way. */
  predicate Enabled(s: Stream, e: Event) {
    match e
    case TickStart => !s.stopped
    case TickEnd(_) => s.busy
    case PullEnd(_) => s.pulls > 0
    case _ => true
  }

  function Apply(s: Stream, e: Event): Stream {
    if !Enabled(s, e) then s
    else
      match e
      case TickStart => s.(busy := true)
      case TickEnd(allowed) => Ticked(s, allowed)
      case PullStart => s.(pulls := s.pulls + 1)
      case PullEnd(read) => Pulled(s, read)
      case Cancel => Cancelled(s)
  }

  function After(run: seq<Event>): Stream {
    if run == [] then OPEN else Apply(After(run[..|run| - 1]), run[|run| - 1])
  }

  // ---------------------------------------------------------------- every run

  predicate Chunks(log: seq<Act>) { forall i | 0 <= i < |log| :: log[i].Enqueue? }

  /** The controller is ended at most once, by the last call on it; onDenied runs at most once. */
  predicate Orderly(s: Stream) {
    && s.stopped == s.closed
    && s.denials <= 1 && (s.denials == 1 ==> s.closed)
    && (if s.closed then s.log == [] || Chunks(s.log[..|s.log| - 1]) else Chunks(s.log))
  }

  lemma LogGrows(log: seq<Act>, a: Act)
    ensures (log + [a])[..|log + [a]| - 1] == log
    ensures Chunks(log) && a.Enqueue? ==> Chunks(log + [a])
    ensures Chunks(log) && log != [] ==> Chunks(log[..|log| - 1])
  {}

  lemma StepOrderly(s: Stream, e: Event)
    requires Orderly(s)
    ensures Orderly(Apply(s, e))
    ensures s.closed ==> Apply(s, e).closed && Apply(s, e).log == s.log && Apply(s, e).denials == s.denials
  {
    hide Chunks;
    LogGrows(s.log, Close);
    LogGrows(s.log, Error);
    if e.PullEnd? && e.read.Got? {
      LogGrows(s.log, Enqueue(e.read.chunk));
    }
  }

  lemma {:induction false} RunOrderly(run: seq<Event>)
    ensures Orderly(After(run))
  {
    hide Apply, Orderly;
    if run == [] {
      OpenOrderly();
    } else {
      RunOrderly(run[..|run| - 1]);
      StepOrderly(After(run[..|run| - 1]), run[|run| - 1]);
    }
  }

  lemma OpenOrderly()
    ensures Orderly(OPEN)
  {
  }

  /** Once the stream has ended, by a denial, an error, its end or the reader's cancel, nothing is
      enqueued, it is not ended again, and onDenied does not run. */
  lemma {:induction false} NothingAfterTheEnd(run: seq<Event>, k: nat)
    requires k <= |run| && After(run[..k]).closed
    ensures var s, t := After(run[..k]), After(run); t.closed && t.log == s.log && t.denials == s.denials
  {
    hide Apply, Orderly;
    if k == |run| {
      assert run[..k] == run;
    } else {
      var p := run[..|run| - 1];
      assert p[..k] == run[..k];
      NothingAfterTheEnd(p, k);
      RunOrderly(p);
      StepOrderly(After(p), run[|run| - 1]);
    }
  }

  /** A check that allows, or one that throws, ends nothing: the stream stays as it was and the next tick
      may check again. */
  lemma AllowedGoesOn(run: seq<Event>, allowed: Option<bool>)
    requires After(run).busy && allowed != Some(false)
    ensures After(run + [TickEnd(allowed)]) == After(run).(busy := false)
  {
    var r := run + [TickEnd(allowed)];
    assert r[..|r| - 1] == run;
  }

  /** A check that denies ends the stream, whatever else is under way. */
  lemma DenialEnds(run: seq<Event>)
    requires After(run).busy
    ensures var s, t := After(run), After(run + [TickEnd(Some(false))]);
            t.closed && t.stopped && (!s.closed ==> t.denials == 1 && t.cancelled && t.log == s.log + [Close])
  {
    var r := run + [TickEnd(Some(false))];
    assert r[..|r| - 1] == run;
    RunOrderly(run);
  }

  // ---------------------------------------------------------------- what ends the stream, and how

  /** The reads under way: begun and not ended. */
  function Outstanding(run: seq<Event>): nat {
    if run == [] then 0
    else
      var n := Outstanding(run[..|run| - 1]);
      match run[|run| - 1]
      case PullStart => n + 1
      case PullEnd(_) => if n == 0 then 0 else n - 1
      case _ => n
  }

  lemma {:induction false} PullsAre(run: seq<Event>)
    ensures After(run).pulls == Outstanding(run)
  {
    hide Stopped, Closed, Denied;
    if run != [] {
      PullsAre(run[..|run| - 1]);
      PullStep(After(run[..|run| - 1]), run[|run| - 1]);
    }
  }

  lemma PullStep(s: Stream, e: Event)
    ensures var t := Apply(s, e);
            match e
            case PullStart => t.pulls == s.pulls + 1
            case PullEnd(_) => t.pulls == (if s.pulls == 0 then 0 else s.pulls - 1)
            case _ => t.pulls == s.pulls
  {}

  /** This event ends a stream: the reader's cancel, the end or a failure of a read under way, or a
      denial. */
  predicate Ending(e: Event, reading: nat, busy: bool) {
    match e
    case Cancel => true
    case PullEnd(read) => reading > 0 && !read.Got?
    case TickEnd(allowed) => busy && allowed == Some(false)
    case _ => false
  }

  predicate EndsAt(run: seq<Event>, k: nat) {
    k < |run| && Ending(run[k], Outstanding(run[..k]), After(run[..k]).busy)
  }

  /** What the controller is told when the stream ends: nothing by a cancel, an error by a failure. */
  function LastCall(e: Event): seq<Act> {
    match e
    case Cancel => []
    case PullEnd(Failed) => [Error]
    case _ => [Close]
  }

  lemma EndStep(s: Stream, e: Event)
    requires Orderly(s)
    ensures var t := Apply(s, e);
            && (t.closed <==> s.closed || Ending(e, s.pulls, s.busy))
            && (t.closed && !s.closed ==> t.log == s.log + LastCall(e) && t.denials == if e.TickEnd? then 1 else 0)
            && (t.cancelled <==> s.cancelled || e.Cancel? || t.denials > s.denials)
  {
    hide Chunks;
  }

  lemma EndsBefore(run: seq<Event>, k: nat)
    requires run != []
    ensures k < |run| - 1 ==> run[..|run| - 1][..k] == run[..k]
    ensures k < |run| - 1 ==> (EndsAt(run[..|run| - 1], k) <==> EndsAt(run, k))
  {
    if k < |run| - 1 {
      assert run[..|run| - 1][..k] == run[..k];
    }
  }

  lemma LastEnds(run: seq<Event>)
    requires run != []
    ensures var s, e := After(run[..|run| - 1]), run[|run| - 1];
            EndsAt(run, |run| - 1) <==> Ending(e, s.pulls, s.busy)
  {
    hide Ending, Apply;
    PullsAre(run[..|run| - 1]);
  }

  /** A stream is closed if and only if something has ended it. */
  lemma {:induction false} ClosedExactlyWhen(run: seq<Event>)
    ensures After(run).closed <==> exists k: nat :: EndsAt(run, k)
  {
    hide Apply, Orderly, EndsAt, Ending;
    if run == [] {
      NoEnd(run);
    } else {
      var p := run[..|run| - 1];
      ClosedExactlyWhen(p);
      RunOrderly(p);
      LastEnds(run);
      EndStep(After(p), run[|run| - 1]);
      forall k: nat ensures EndsAt(run, k) <==> EndsAt(p, k) || (k == |p| && EndsAt(run, |p|)) {
        EndsBefore(run, k);
        NoEnd(p);
        NoEnd(run);
      }
    }
  }

  lemma NoEnd(run: seq<Event>)
    ensures forall k: nat | k >= |run| :: !EndsAt(run, k)
  {}

  /** What ended it first decides the last call on its controller and whether onDenied has run. */
  lemma EndedBy(run: seq<Event>, k: nat)
    requires EndsAt(run, k) && !After(run[..k]).closed
    ensures After(run).log == After(run[..k]).log + LastCall(run[k])
    ensures After(run).denials == if run[k].TickEnd? then 1 else 0
  {
    hide Apply, Orderly, LastCall, Ending;
    var r := run[..k + 1];
    assert r[..k] == run[..k] && r[k] == run[k];
    RunOrderly(run[..k]);
    PullsAre(run[..k]);
    EndStep(After(run[..k]), run[k]);
    assert After(r) == Apply(After(run[..k]), run[k]);
    NothingAfterTheEnd(run, k + 1);
  }

  /** The body's reader is cancelled by a denial or with the stream, and only then. */
  lemma {:induction false} CancelledExactlyWhen(run: seq<Event>)
    ensures After(run).cancelled <==> After(run).denials == 1 || Cancel in run
  {
    hide Apply, Orderly, Ending, LastCall;
    if run != [] {
      var p, e := run[..|run| - 1], run[|run| - 1];
      CancelledExactlyWhen(p);
      RunOrderly(p);
      EndStep(After(p), e);
      StepOrderly(After(p), e);
      AtMostOne(After(p), e);
      assert run == p + [e];
    }
  }

  lemma AtMostOne(s: Stream, e: Event)
    requires Orderly(s)
    ensures s.denials <= Apply(s, e).denials <= 1
  {}

  /** The chunks read so far. */
  function ChunksRead(run: seq<Event>): seq<Chunk> {
    if run == [] then []
    else
      var p, e := run[..|run| - 1], run[|run| - 1];
      ChunksRead(p) + NewChunks(After(p), e)
  }

  function Sent(log: seq<Act>): seq<Chunk> {
    if log == [] then []
    else
      var a := log[|log| - 1];
      Sent(log[..|log| - 1]) + if a.Enqueue? then [a.chunk] else []
  }

  lemma SentSnoc(log: seq<Act>, a: Act)
    ensures Sent(log + [a]) == Sent(log) + if a.Enqueue? then [a.chunk] else []
  {
    assert (log + [a])[..|log + [a]| - 1] == log;
  }

  /** What one event adds to the chunks read. */
  function NewChunks(s: Stream, e: Event): seq<Chunk> {
    if e.PullEnd? && e.read.Got? && s.pulls > 0 then [e.read.chunk] else []
  }

  lemma ChunksStep(s: Stream, e: Event, chunks: seq<Chunk>)
    requires Orderly(s) && Sent(s.log) <= chunks && (!s.closed ==> Sent(s.log) == chunks)
    ensures var t := Apply(s, e);
            Sent(t.log) <= chunks + NewChunks(s, e) && (!t.closed ==> Sent(t.log) == chunks + NewChunks(s, e))
  {
    hide Sent, Orderly;
    SentSnoc(s.log, Close);
    SentSnoc(s.log, Error);
    if e.PullEnd? && e.read.Got? {
      SentSnoc(s.log, Enqueue(e.read.chunk));
    }
    StepOrderly(s, e);
  }

  /** The stream passes on the chunks it read, in order and without gaps; while it is open, all. */
  lemma {:induction false} ChunksPassOn(run: seq<Event>)
    ensures Sent(After(run).log) <= ChunksRead(run)
    ensures !After(run).closed ==> Sent(After(run).log) == ChunksRead(run)
  {
    hide Sent, Apply, Orderly;
    if run == [] {
      SentNone();
    } else {
      var p, e := run[..|run| - 1], run[|run| - 1];
      ChunksPassOn(p);
      RunOrderly(p);
      ChunksStep(After(p), e, ChunksRead(p));
    }
  }

  lemma SentNone()
    ensures Sent([]) == []
  {}

  // ---------------------------------------------------------------- the object

  class Streamed {
    var stopped: bool
    var busy: bool
    var closed: bool
    var cancelled: bool
    var pulls: nat
    var denials: nat
    var log: seq<Act>

    constructor ()
      ensures Model() == OPEN
    {
      stopped, busy, closed, cancelled := false, false, false, false;
      pulls, denials := 0, 0;
      log := [];
    }

    function Model(): Stream
      reads this
    {
      Stream(stopped, busy, closed, cancelled, pulls, denials, log)
    }

    method StopWatch()
      modifies this
      ensures Model() == Stopped(old(Model()))
    {
      stopped := true;
    }

    method CloseController()
      modifies this
      ensures Model() == Closed(old(Model()))
    {
      if closed {
        return;
      }
      closed := true;
      StopWatch();
      log := log + [Close];
    }

    method OnDenied()
      modifies this
      ensures Model() == Denied(old(Model()))
    {
      denials := denials + 1;
      CloseController();
      cancelled := true;
    }

    method BeginTick() returns (go: bool)
      requires !stopped
      modifies this
      ensures go == !old(busy)
      ensures Model() == Apply(old(Model()), TickStart)
    {
      if busy {
        return false;
      }
      busy := true;
      return true;
    }

    method EndTick(allowed: Option<bool>)
      requires busy
      modifies this
      ensures Model() == Apply(old(Model()), TickEnd(allowed))
    {
      if allowed.Some? && !allowed.value && !stopped {
        StopWatch();
        OnDenied();
      }
      busy := false;
    }

    method BeginPull()
      modifies this
      ensures Model() == Apply(old(Model()), PullStart)
    {
      pulls := pulls + 1;
    }

    method EndPull(read: Read)
      requires pulls > 0
      modifies this
      ensures Model() == Apply(old(Model()), PullEnd(read))
    {
      pulls := pulls - 1;
      match read
      case End => CloseController();
      case Got(chunk) =>
        if !closed {
          log := log + [Enqueue(chunk)];
        }
      case Failed =>
        if closed {
          return;
        }
        closed := true;
        StopWatch();
        log := log + [Error];
    }

    method CancelStream()
      modifies this
      ensures Model() == Apply(old(Model()), Cancel)
    {
      closed := true;
      StopWatch();
      cancelled := true;
    }
  }
}

/** When the gateway's pump waits with a frame in hand, and what lets it read on. */
module MuxProgress {
  import opened Mux
  import opened MuxReuse

  /** The pump holds a frame and can neither queue nor drop it. */
  predicate Blocked(c: Conn) { c.pump.Holding? && !Enabled(c, Send) && !Enabled(c, Drop) }

  predicate StaysBlocked(c: Conn, es: seq<Event>)
    requires Legal(c, es)
    decreases |es|
  {
    Blocked(c) && (es == [] || StaysBlocked(Apply(c, es[0]), es[1..]))
  }

  predicate Avoids(es: seq<Event>, e: Event) { forall i | 0 <= i < |es| :: es[i] != e }

  lemma AvoidsRest(es: seq<Event>, e: Event)
    requires es != []
    ensures Avoids(es, e) <==> es[0] != e && Avoids(es[1..], e)
  {
    if es[0] != e && Avoids(es[1..], e) {
      forall i | 0 <= i < |es| ensures es[i] != e {
        assert i > 0 ==> es[i] == es[1..][i - 1];
      }
    }
  }

  lemma BlockedStep(c: Conn, e: Event)
    requires Inv(c) && Enabled(c, e) && Blocked(c)
    ensures Blocked(Apply(c, e)) <==> e != Receive(c.pump.stream) && e != CloseDone(c.pump.stream)
    ensures Apply(c, e).pump == c.pump && Apply(c, e).read == c.read
  {
    assert StreamOk(c, c.pump.stream);
  }

  /** While a reader lags 64 frames behind, the pump reads nothing for anyone: it stays blocked through a
      run if and only if the run neither takes a frame from that reader's queue nor closes the stream. */
  lemma {:induction false} BlockedExactlyUntil(c: Conn, es: seq<Event>)
    requires Inv(c) && Blocked(c) && Legal(c, es)
    ensures StaysBlocked(c, es) <==> Avoids(es, Receive(c.pump.stream)) && Avoids(es, CloseDone(c.pump.stream))
    ensures StaysBlocked(c, es) ==> Run(c, es).read == c.read && Run(c, es).pump == c.pump
    decreases |es|
  {
    hide Inv, Enabled, Avoids;
    if es == [] {
      assert Avoids(es, Receive(c.pump.stream)) && Avoids(es, CloseDone(c.pump.stream)) by { NothingAvoids(es); }
    } else {
      AvoidsRest(es, Receive(c.pump.stream));
      AvoidsRest(es, CloseDone(c.pump.stream));
      BlockedStep(c, es[0]);
      EventKeepsInv(c, es[0]);
      if Blocked(Apply(c, es[0])) {
        BlockedExactlyUntil(Apply(c, es[0]), es[1..]);
      }
    }
  }

  lemma NothingAvoids(es: seq<Event>)
    requires es == []
    ensures forall e :: Avoids(es, e)
  {}

  // ---------------------------------------------------------------- without the reader's help

  /** The pump can get rid of its frame though the reader of that stream never takes another. */
  ghost predicate Freeable(c: Conn)
    requires c.pump.Holding?
  {
    exists es :: Legal(c, es) && Avoids(es, Receive(c.pump.stream)) && Run(c, es).pump.Reading?
  }

  /** The stream in whose queue there is no room has been replaced in the map. */
  predicate Jammed(c: Conn, k: nat) {
    && c.pump.Holding? && c.pump.stream == k < |c.streams|
    && c.streams[k].place.Replaced? && |c.streams[k].incoming| == QUEUE
  }

  lemma {:induction false} JamStays(c: Conn, es: seq<Event>, k: nat)
    requires Inv(c) && Jammed(c, k) && Legal(c, es) && Avoids(es, Receive(k))
    ensures Jammed(Run(c, es), k)
    decreases |es|
  {
    hide Inv, Avoids;
    if es != [] {
      AvoidsRest(es, Receive(k));
      EventKeepsInv(c, es[0]);
      JamStep(c, es[0], k);
      JamStays(Apply(c, es[0]), es[1..], k);
    }
  }

  lemma JamStep(c: Conn, e: Event, k: nat)
    requires Inv(c) && Jammed(c, k) && Enabled(c, e) && e != Receive(k)
    ensures Jammed(Apply(c, e), k)
  {
    assert StreamOk(c, k);
  }

  lemma OneStepFrees(c: Conn, e: Event)
    requires c.pump.Holding? && (e.Send? || e.Drop?) && Enabled(c, e)
    ensures Freeable(c)
  {
    var es := [e];
    assert es[1..] == [] && Run(c, es) == Apply(c, e) && Apply(c, e).pump.Reading?;
    assert Legal(c, es) && Avoids(es, Receive(c.pump.stream)) && Run(c, es).pump.Reading?;
  }

  /** Removing the stream and closing it, as its handler does when it returns, lets the pump drop the frame. */
  lemma RemovalFrees(c: Conn)
    requires Inv(c) && c.pump.Holding? && c.streams[c.pump.stream].place.Attached?
    ensures Freeable(c)
  {
    var k := c.pump.stream;
    assert StreamOk(c, k);
    var remove := LoadAndDelete(c.streams[k].id);
    assert Enabled(Apply(Apply(c, remove), CloseDone(k)), Drop);
    RunThree(c, remove, CloseDone(k), Drop);
    var es := [remove, CloseDone(k), Drop];
    assert Legal(c, es) && Avoids(es, Receive(k)) && Run(c, es).pump.Reading?;
  }

  lemma ClosingFrees(c: Conn)
    requires Inv(c) && c.pump.Holding? && c.streams[c.pump.stream].place.Taken?
    ensures Freeable(c)
  {
    var k := c.pump.stream;
    var es := [CloseDone(k), Drop];
    var c1 := Apply(c, CloseDone(k));
    assert es[1..] == [Drop] && [Drop][1..] == [];
    assert Legal(c1, [Drop]) && Run(c1, [Drop]) == Apply(c1, Drop);
    assert Legal(c, es) && Avoids(es, Receive(k)) && Run(c, es).pump.Reading?;
  }

  /** The pump depends on a reader if and only if it holds a frame for a full stream that has been
      replaced: nobody is left to close it. */
  lemma FreeableExactlyWhen(c: Conn)
    requires Inv(c) && c.pump.Holding?
    ensures Freeable(c) <==> !Jammed(c, c.pump.stream)
  {
    hide Freeable;
    var k := c.pump.stream;
    assert StreamOk(c, k);
    if Jammed(c, k) {
      JamHolds(c);
    } else if Enabled(c, Send) {
      OneStepFrees(c, Send);
    } else {
      match c.streams[k].place
      case Attached => RemovalFrees(c);
      case Taken => ClosingFrees(c);
      case _ =>
    }
  }

  lemma JamHolds(c: Conn)
    requires Inv(c) && c.pump.Holding? && Jammed(c, c.pump.stream)
    ensures !Freeable(c)
  {
    hide Inv, Avoids;
    forall es | Legal(c, es) && Avoids(es, Receive(c.pump.stream)) ensures !Run(c, es).pump.Reading? {
      JamStays(c, es, c.pump.stream);
    }
  }

  // ---------------------------------------------------------------- how many streams it takes

  predicate NoneReplaced(c: Conn) { forall k | 0 <= k < |c.streams| :: !c.streams[k].place.Replaced? }

  lemma NoneReplacedStep(c: Conn, e: Event)
    requires Inv(c) && Enabled(c, e) && NoneReplaced(c) && |c.streams| <= IDS
    ensures NoneReplaced(Apply(c, e))
  {
    if e.Store? {
      var id := c.streams[e.stream].id;
      assert StreamOk(c, e.stream);
      assert id in c.table ==> StreamOk(c, c.table[id]);
    }
  }

  lemma {:induction false} RunNoneReplaced(c: Conn, es: seq<Event>)
    requires Inv(c) && Legal(c, es) && NoneReplaced(c) && |Run(c, es).streams| <= IDS
    ensures NoneReplaced(Run(c, es))
    decreases |es|
  {
    hide Inv, NoneReplaced;
    if es != [] {
      StreamsOnlyGrow(c, es);
      StreamsOnlyGrow(Apply(c, es[0]), es[1..]);
      NoneReplacedStep(c, es[0]);
      EventKeepsInv(c, es[0]);
      RunNoneReplaced(Apply(c, es[0]), es[1..]);
    }
  }

  /** One frame for the stream that holds id 1, from the socket to its queue. */
  lemma QueueOne(es: seq<Event>, f: Frame) returns (es': seq<Event>)
    requires Legal(EMPTY, es) && AllAsked(EMPTY, es)
    requires var c := Run(EMPTY, es);
             c.pump.Reading? && f.id in c.table && c.table[f.id] == 0 < |c.streams| && c.streams[0].id == f.id
             && c.streams[0].place.Attached? && |c.streams[0].incoming| < QUEUE
    ensures Legal(EMPTY, es') && AllAsked(EMPTY, es')
    ensures var c, c' := Run(EMPTY, es), Run(EMPTY, es');
            && c'.pump.Reading? && c'.table == c.table
            && c'.streams == c.streams[0 := c.streams[0].(incoming := c.streams[0].incoming + [f.body])]
  {
    hide Run, Legal, AllAsked;
    es' := Extend(es, Read(f));
    es' := Extend(es', Look);
    es' := Extend(es', Send);
  }

  lemma {:induction false} QueueMany(es: seq<Event>, f: Frame, n: nat) returns (es': seq<Event>)
    requires Legal(EMPTY, es) && AllAsked(EMPTY, es) && n <= QUEUE
    requires var c := Run(EMPTY, es);
             c.pump.Reading? && f.id in c.table && c.table[f.id] == 0 < |c.streams| && c.streams[0].id == f.id
             && c.streams[0].place.Attached? && c.streams[0].incoming == []
    ensures Legal(EMPTY, es') && AllAsked(EMPTY, es')
    ensures var c, c' := Run(EMPTY, es), Run(EMPTY, es');
            && c'.pump.Reading? && c'.table == c.table && |c'.streams| == |c.streams|
            && c'.streams[0] == c.streams[0].(incoming := c'.streams[0].incoming) && |c'.streams[0].incoming| == n
            && forall k | 0 < k < |c.streams| :: c'.streams[k] == c.streams[k]
  {
    hide Run, Legal, AllAsked;
    es' := es;
    if n > 0 {
      es' := QueueMany(es, f, n - 1);
      es' := QueueOne(es', f);
    }
  }

  /** With one stream too many, a slow reader can stop the tunnel for good: its queue fills, and a later
      stream with the same id takes its place in the map. */
  lemma JamHappens() returns (es: seq<Event>)
    ensures Legal(EMPTY, es) && |Run(EMPTY, es).streams| == IDS + 1 && Jammed(Run(EMPTY, es), 0)
  {
    hide Run, Legal, AllAsked;
    var f := Frame(1, [3]);
    es := OpenMany(IDS + 1);
    var c0 := Run(EMPTY, es);
    assert c0.streams[0] == Fresh(0) && c0.streams[IDS] == Fresh(IDS);
    es := Extend(es, Store(0));
    es := QueueMany(es, f, QUEUE);
    es := Extend(es, Read(f));
    es := Extend(es, Look);
    es := Extend(es, Store(IDS));
  }

  /** In all runs of at most n streams the pump can be freed without the reader it waits for, exactly
      when n streams have distinct ids. */
  lemma FreeableWhileIdsLast(n: nat)
    ensures (forall es | Legal(EMPTY, es) && |Run(EMPTY, es).streams| <= n && Run(EMPTY, es).pump.Holding? ::
               Freeable(Run(EMPTY, es)))
            <==> n <= IDS
  {
    hide Inv, Freeable;
    EmptyInv();
    if n <= IDS {
      forall es | Legal(EMPTY, es) && |Run(EMPTY, es).streams| <= n && Run(EMPTY, es).pump.Holding?
        ensures Freeable(Run(EMPTY, es))
      {
        RunKeepsInv(EMPTY, es);
        RunNoneReplaced(EMPTY, es);
        FreeableExactlyWhen(Run(EMPTY, es));
      }
    } else {
      var es := JamHappens();
      RunKeepsInv(EMPTY, es);
      FreeableExactlyWhen(Run(EMPTY, es));
    }
  }
}

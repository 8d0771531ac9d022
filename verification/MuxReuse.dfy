/** Which frames reach a stream, measured by when the pump read them; and what happens when the 32-bit
    ids come round again. */
module MuxReuse {
  import opened Mux

  lemma {:induction false} BodiesPrefix(a: seq<Frame>, b: seq<Frame>, id: StreamId)
    requires a <= b
    ensures Bodies(a, id) <= Bodies(b, id)
    decreases |b|
  {
    if a == b {
      assert Bodies(a, id) == Bodies(b, id);
    } else {
      BodiesPrefix(a, b[..|b| - 1], id);
    }
  }

  lemma {:induction false} SkipOthers(frames: seq<Frame>, from: nat, id: StreamId)
    requires from < |frames| && frames[from].id != id
    ensures Bodies(frames[from..], id) == Bodies(frames[from + 1..], id)
    decreases |frames|
  {
    var last := |frames| - 1;
    if from == last {
      assert frames[from..] == [frames[from]] && frames[from..][..0] == [];
    } else {
      SkipOthers(frames[..last], from, id);
      assert frames[from..][..|frames| - from - 1] == frames[..last][from..];
      assert frames[from + 1..][..|frames| - from - 2] == frames[..last][from + 1..];
    }
  }

  lemma {:induction false} SkipAllOthers(frames: seq<Frame>, from: nat, to: nat, id: StreamId)
    requires from <= to <= |frames| && forall i | from <= i < to :: frames[i].id != id
    ensures Bodies(frames[from..], id) == Bodies(frames[to..], id)
  {
    if from < to {
      SkipAllOthers(frames, from, to - 1, id);
      SkipOthers(frames, to - 1, id);
    }
  }

  // ---------------------------------------------------------------- one stream

  /** What the reader of stream k has is a prefix of the frames for its id read since it was stored. */
  predicate OwnFrames(c: Conn, k: nat) {
    && k < |c.streams| && c.streams[k].sinceRead <= |c.read|
    && c.streams[k].received <= Bodies(c.read[c.streams[k].sinceRead..], c.streams[k].id)
  }

  /** The pump has read a frame with this id and not looked it up yet. */
  predicate AboutToLook(c: Conn, id: StreamId) { c.pump.Looking? && c.pump.frame.id == id }

  /** The frame under way when stream k was stored, if any, is not for its id. */
  predicate Clean(c: Conn, k: nat) {
    && k < |c.streams|
    && var s := c.streams[k];
    && !s.place.Unstored? && s.since <= s.sinceRead <= |c.read| && s.sinceRead <= s.since + 1
    && (s.since < s.sinceRead ==> c.read[s.since].id != s.id)
  }

  lemma CleanIsOwn(c: Conn, k: nat)
    requires Inv(c) && Clean(c, k)
    ensures OwnFrames(c, k)
  {
    var s := c.streams[k];
    assert StreamOk(c, k);
    assert s.received <= Given(c, k) <= Due(c, k);
    if s.since < s.sinceRead {
      SkipOthers(c.read, s.since, s.id);
    }
    assert c.looked[s.since..] <= c.read[s.since..];
    BodiesPrefix(c.looked[s.since..], c.read[s.since..], s.id);
  }

  lemma CleanStep(c: Conn, e: Event, k: nat)
    requires Enabled(c, e) && Clean(c, k)
    ensures Clean(Apply(c, e), k)
  {}

  lemma {:induction false} CleanRun(c: Conn, es: seq<Event>, k: nat)
    requires Inv(c) && Clean(c, k) && Legal(c, es)
    ensures Inv(Run(c, es)) && Clean(Run(c, es), k)
    decreases |es|
  {
    if es != [] {
      EventKeepsInv(c, es[0]);
      CleanStep(c, es[0], k);
      CleanRun(Apply(c, es[0]), es[1..], k);
    }
  }

  lemma RunFirst(c: Conn, e: Event, es: seq<Event>)
    requires Enabled(c, e) && Legal(Apply(c, e), es)
    ensures Legal(c, [e] + es) && Run(c, [e] + es) == Run(Apply(c, e), es)
  {
    hide Apply, Enabled;
    assert ([e] + es)[1..] == es;
  }

  lemma RunThree(c: Conn, a: Event, b: Event, e: Event)
    requires Enabled(c, a) && Enabled(Apply(c, a), b) && Enabled(Apply(Apply(c, a), b), e)
    ensures Legal(c, [a, b, e]) && Run(c, [a, b, e]) == Apply(Apply(Apply(c, a), b), e)
  {
    hide Apply, Enabled;
    RunFirst(Apply(Apply(c, a), b), e, []);
    RunFirst(Apply(c, a), b, [e]);
    RunFirst(c, a, [b, e]);
    assert [e] + [] == [e] && [b] + [e] == [b, e] && [a] + [b, e] == [a, b, e];
  }

  lemma NoBodies(id: StreamId)
    ensures Bodies([], id) == []
  {}

  /** A frame read before the stream was stored and looked up after it. */
  lemma StraddlerArrives(c: Conn, k: nat)
    requires Inv(c) && Enabled(c, Store(k)) && AboutToLook(c, c.streams[k].id)
    ensures var c1, more := Apply(c, Store(k)), [Look, Send, Receive(k)];
            Legal(c1, more) && !OwnFrames(Run(c1, more), k)
  {
    hide Bodies;
    var body := c.pump.frame.body;
    var c1 := Apply(c, Store(k));
    assert StreamOk(c, k);
    assert c1.streams[k].incoming == [] == c1.streams[k].received && c1.streams[k].sinceRead == |c.read|;
    var c2 := Apply(c1, Look);
    assert c2.pump == Holding(k, body) && c2.streams == c1.streams;
    var c3 := Apply(c2, Send);
    assert c3.streams[k].incoming == [body] && c3.streams[k].received == [];
    var c4 := Apply(c3, Receive(k));
    RunThree(c1, Look, Send, Receive(k));
    assert c4.streams[k].received == [] + [body] == [body] && c4.read == c.read;
    assert c4.read[|c.read|..] == [];
    NoBodies(c.streams[k].id);
  }

  /** Whatever else happens, and whatever the peer sends: the reader of a stream only ever gets frames
      read since the stream was stored, if and only if the pump was not just about to look up a frame
      with the stream's id at that moment. */
  lemma OwnFramesExactlyWhen(es: seq<Event>, k: nat)
    requires Legal(EMPTY, es) && Enabled(Run(EMPTY, es), Store(k))
    ensures var c := Run(EMPTY, es);
            var stored := Apply(c, Store(k));
            (forall more | Legal(stored, more) :: OwnFrames(Run(stored, more), k)) <==> !AboutToLook(c, c.streams[k].id)
  {
    hide Inv, OwnFrames, Clean;
    var c := Run(EMPTY, es);
    RunKeepsInv(EMPTY, es) by { EmptyInv(); }
    if AboutToLook(c, c.streams[k].id) {
      StraddlerArrives(c, k);
    } else {
      var stored := Apply(c, Store(k));
      EventKeepsInv(c, Store(k));
      StoredClean(c, k);
      forall more | Legal(stored, more) ensures OwnFrames(Run(stored, more), k) {
        CleanRun(stored, more, k);
        CleanIsOwn(Run(stored, more), k);
      }
    }
  }

  lemma EmptyInv()
    ensures Inv(EMPTY)
  {}

  lemma StoredClean(c: Conn, k: nat)
    requires Inv(c) && Enabled(c, Store(k)) && !AboutToLook(c, c.streams[k].id)
    ensures Clean(Apply(c, Store(k)), k)
  {}

  // ---------------------------------------------------------------- frames read since the stream was stored

  /** The peer sends frames only for an id that some stored stream has had. */
  predicate Asked(c: Conn, e: Event) {
    e.Read? ==> exists k | 0 <= k < |c.streams| :: c.streams[k].id == e.frame.id && !c.streams[k].place.Unstored?
  }

  predicate AllAsked(c: Conn, es: seq<Event>)
    requires Legal(c, es)
    decreases |es|
  {
    es == [] || (Asked(c, es[0]) && AllAsked(Apply(c, es[0]), es[1..]))
  }

  /** Every reader has a prefix of the frames for its id read since its stream was stored. */
  predicate PrefixOfRead(c: Conn) {
    forall k | 0 <= k < |c.streams| :: OwnFrames(c, k)
  }

  predicate IdUsed(c: Conn, id: StreamId) {
    exists j | 0 <= j < |c.streams| :: c.streams[j].id == id
  }

  predicate AllIdsUsed(c: Conn) {
    forall i | 0 <= i < |c.read| :: IdUsed(c, c.read[i].id)
  }

  /** No frame read before a stream was stored has its id. */
  predicate NothingEarly(c: Conn, k: nat)
    requires k < |c.streams|
  {
    var s := c.streams[k];
    && s.sinceRead <= |c.read| && s.since <= |c.looked| && s.since <= s.sinceRead
    && (s.place.Unstored? ==> forall i | 0 <= i < |c.read| :: c.read[i].id != s.id)
    && (!s.place.Unstored? ==> forall i | 0 <= i < s.sinceRead :: c.read[i].id != s.id)
  }

  lemma IdsByIndex(c: Conn)
    requires Inv(c)
    ensures forall k | 0 <= k < |c.streams| :: c.streams[k].id == (k + 1) % IDS
    ensures |c.looked| <= |c.read|
  {
    forall k | 0 <= k < |c.streams| ensures c.streams[k].id == (k + 1) % IDS {
      assert StreamOk(c, k);
    }
  }

  /** A frame for an id that was stored once is not for this stream, unless this stream was stored. */
  lemma EarlyRead(c: Conn, e: Event, k: nat)
    requires Inv(c) && e.Read? && Enabled(c, e) && Asked(c, e) && k < |c.streams| <= IDS && NothingEarly(c, k)
    ensures NothingEarly(Apply(c, e), k)
  {
    hide Inv, StreamOk;
    var j :| 0 <= j < |c.streams| && c.streams[j].id == e.frame.id && !c.streams[j].place.Unstored?;
    OneIdEach(c, j, k);
  }

  lemma OneIdEach(c: Conn, j: nat, k: nat)
    requires Inv(c) && j < |c.streams| && k < |c.streams| <= IDS
    ensures j != k ==> c.streams[j].id != c.streams[k].id
  {
    IdsByIndex(c);
  }

  lemma EarlyNew(c: Conn)
    requires Inv(c) && |c.streams| < IDS && AllIdsUsed(c)
    ensures NothingEarly(Apply(c, NewStream), |c.streams|)
  {
    hide Inv, StreamOk;
    IdsByIndex(c);
    forall i | 0 <= i < |c.read| ensures c.read[i].id != NextId(c) {
      assert IdUsed(c, c.read[i].id);
      var j :| 0 <= j < |c.streams| && c.streams[j].id == c.read[i].id;
    }
  }

  lemma EarlyOther(c: Conn, e: Event, k: nat)
    requires Enabled(c, e) && !e.Read? && k < |c.streams| && NothingEarly(c, k) && |c.looked| <= |c.read|
    requires e.Look? ==> |c.looked| < |c.read|
    ensures NothingEarly(Apply(c, e), k)
  {}

  lemma EarlyKeeps(c: Conn, e: Event, k: nat)
    requires Inv(c) && Enabled(c, e) && Asked(c, e) && k < |Apply(c, e).streams| <= IDS
    requires forall j | 0 <= j < |c.streams| :: NothingEarly(c, j)
    requires AllIdsUsed(c)
    ensures NothingEarly(Apply(c, e), k)
  {
    hide NothingEarly, StreamOk;
    if k == |c.streams| {
      EarlyNew(c);
    } else if e.Read? {
      EarlyRead(c, e, k);
    } else {
      EarlyOther(c, e, k);
    }
  }

  lemma ReadIdsKeep(c: Conn, e: Event)
    requires Enabled(c, e) && Asked(c, e) && AllIdsUsed(c)
    ensures AllIdsUsed(Apply(c, e))
  {
    var c' := Apply(c, e);
    forall i | 0 <= i < |c'.read| ensures IdUsed(c', c'.read[i].id) {
      if i < |c.read| {
        assert IdUsed(c, c.read[i].id);
        var j :| 0 <= j < |c.streams| && c.streams[j].id == c.read[i].id;
        assert c'.streams[j].id == c'.read[i].id;
      } else {
        var j :| 0 <= j < |c.streams| && c.streams[j].id == e.frame.id && !c.streams[j].place.Unstored?;
        assert c'.streams[j].id == c'.read[i].id;
      }
    }
  }

  lemma {:induction false} RunKeepsEarly(c: Conn, es: seq<Event>)
    requires Inv(c) && Legal(c, es) && AllAsked(c, es) && |Run(c, es).streams| <= IDS
    requires forall j | 0 <= j < |c.streams| :: NothingEarly(c, j)
    requires AllIdsUsed(c)
    ensures forall k | 0 <= k < |Run(c, es).streams| :: NothingEarly(Run(c, es), k)
    decreases |es|
  {
    if es != [] {
      var c1 := Apply(c, es[0]);
      EventKeepsInv(c, es[0]);
      StreamsOnlyGrow(c1, es[1..]);
      ReadIdsKeep(c, es[0]);
      forall k | 0 <= k < |c1.streams| ensures NothingEarly(c1, k) {
        EarlyKeeps(c, es[0], k);
      }
      RunKeepsEarly(c1, es[1..]);
    }
  }

  lemma UniqueIdsSuffice(es: seq<Event>)
    requires Legal(EMPTY, es) && AllAsked(EMPTY, es) && |Run(EMPTY, es).streams| <= IDS
    ensures PrefixOfRead(Run(EMPTY, es))
  {
    RunKeepsInv(EMPTY, es);
    RunKeepsEarly(EMPTY, es);
    var c := Run(EMPTY, es);
    forall k | 0 <= k < |c.streams| ensures OwnFrames(c, k) {
      var s := c.streams[k];
      ReceivedIsAPrefix(es, k);
      assert NothingEarly(c, k) && StreamOk(c, k);
      if !s.place.Unstored? {
        SkipAllOthers(c.read, s.since, s.sinceRead, s.id);
        assert c.looked[s.since..] <= c.read[s.since..];
        BodiesPrefix(c.looked[s.since..], c.read[s.since..], s.id);
      } else {
        assert s.received == [];
      }
    }
  }

  // ---------------------------------------------------------------- the bound on ids is exact

  lemma {:induction false} RunAppend(c: Conn, es: seq<Event>, e: Event)
    requires Legal(c, es) && Enabled(Run(c, es), e)
    ensures Legal(c, es + [e]) && Run(c, es + [e]) == Apply(Run(c, es), e)
    ensures AllAsked(c, es) && Asked(Run(c, es), e) ==> AllAsked(c, es + [e])
    decreases |es|
  {
    if es == [] {
      assert [e][1..] == [];
    } else {
      assert (es + [e])[1..] == es[1..] + [e];
      RunAppend(Apply(c, es[0]), es[1..], e);
    }
  }

  function Fresh(k: nat): Stream { Stream((k + 1) % IDS, Unstored, [], false, [], 0, 0) }

  lemma {:induction false} OpenMany(n: nat) returns (es: seq<Event>)
    ensures Legal(EMPTY, es) && AllAsked(EMPTY, es)
    ensures var c := Run(EMPTY, es);
            c == EMPTY.(streams := c.streams) && |c.streams| == n && forall k | 0 <= k < n :: c.streams[k] == Fresh(k)
  {
    if n == 0 {
      es := [];
    } else {
      var before := OpenMany(n - 1);
      RunAppend(EMPTY, before, NewStream);
      es := before + [NewStream];
    }
  }

  /** With one stream more than there are ids, a frame read for the first holder of an id can reach
      the second, stored between the reading and the lookup. */
  lemma ReusedIdGetsOldFrame() returns (es: seq<Event>)
    ensures Legal(EMPTY, es) && AllAsked(EMPTY, es) && |Run(EMPTY, es).streams| == IDS + 1
    ensures !PrefixOfRead(Run(EMPTY, es))
  {
    hide Run, Legal, AllAsked;
    es := OpenMany(IDS + 1);
    var c0 := Run(EMPTY, es);
    var f := Frame(1, [3]);
    assert c0.streams[0] == Fresh(0) && c0.streams[IDS] == Fresh(IDS);
    es := Extend(es, Store(0));
    var c1 := Run(EMPTY, es);
    assert c1.streams[0].id == 1 && c1.streams[IDS] == Fresh(IDS) && c1.table == map[1 := 0];
    es := Extend(es, Read(f));
    es := Extend(es, Store(IDS));
    var c3 := Run(EMPTY, es);
    assert c3.table[1] == IDS && c3.streams[IDS].sinceRead == 1
           && c3.streams[IDS].received == [] == c3.streams[IDS].incoming;
    es := Extend(es, Look);
    es := Extend(es, Send);
    es := Extend(es, Receive(IDS));
    var c := Run(EMPTY, es);
    assert c.streams[IDS].received == [[3]] && c.read[1..] == [];
    assert !OwnFrames(c, IDS);
  }

  lemma Extend(es: seq<Event>, e: Event) returns (es': seq<Event>)
    requires Legal(EMPTY, es) && AllAsked(EMPTY, es) && Enabled(Run(EMPTY, es), e) && Asked(Run(EMPTY, es), e)
    ensures Legal(EMPTY, es') && AllAsked(EMPTY, es') && Run(EMPTY, es') == Apply(Run(EMPTY, es), e)
  {
    RunAppend(EMPTY, es, e);
    es' := es + [e];
  }

  /** Readers get a prefix of what was read since their stream was stored in every run of at most n
      streams, exactly when n streams have distinct ids. */
  lemma DistinctIdsAreExact(n: nat)
    ensures (forall es | Legal(EMPTY, es) && AllAsked(EMPTY, es) && |Run(EMPTY, es).streams| <= n ::
               PrefixOfRead(Run(EMPTY, es)))
            <==> n <= IDS
  {
    if n <= IDS {
      forall es | Legal(EMPTY, es) && AllAsked(EMPTY, es) && |Run(EMPTY, es).streams| <= n
        ensures PrefixOfRead(Run(EMPTY, es))
      {
        UniqueIdsSuffice(es);
      }
    } else {
      var es := ReusedIdGetsOldFrame();
    }
  }

  /** A peer that sends a frame before the stream is stored breaks it with the first id. */
  lemma UnaskedFrameArrives()
    ensures var es := [NewStream, Read(Frame(1, [3])), Store(0), Look, Send, Receive(0)];
            Legal(EMPTY, es) && !AllAsked(EMPTY, es) && !PrefixOfRead(Run(EMPTY, es))
  {
    hide Inv, Run, Legal, OwnFrames, Asked;
    var f, more := Frame(1, [3]), [Look, Send, Receive(0)];
    var c1 := Apply(EMPTY, NewStream);
    var c2 := Apply(c1, Read(f));
    EmptyInv();
    EventKeepsInv(EMPTY, NewStream);
    EventKeepsInv(c1, Read(f));
    StraddlerArrives(c2, 0);
    var c3 := Apply(c2, Store(0));
    RunFirst(c2, Store(0), more);
    RunFirst(c1, Read(f), [Store(0)] + more);
    RunFirst(EMPTY, NewStream, [Read(f)] + ([Store(0)] + more));
    var es := [NewStream] + ([Read(f)] + ([Store(0)] + more));
    assert es == [NewStream, Read(f), Store(0), Look, Send, Receive(0)];
    StreamsOnlyGrow(c3, more);
    assert !AllAsked(EMPTY, es) by {
      assert !Asked(c1, Read(f)) by { NobodyStored(); }
      assert es[1..] == [Read(f)] + ([Store(0)] + more);
    }
  }

  lemma NobodyStored()
    ensures !Asked(Apply(EMPTY, NewStream), Read(Frame(1, [3])))
  {}
}

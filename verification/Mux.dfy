/** The gateway's stream multiplexer (gateway/mux.go): one pump reads the frames of a tunnel and
    hands each to the bounded queue of its stream, while streams are opened, removed and read by
    other goroutines. Each event below is one atomic step of one of them. */
module Mux {

  const QUEUE: nat := 64
  const IDS: nat := 0x1_0000_0000

  type StreamId = x: nat | x < IDS

  /** A frame without its stream id: the type byte and the payload. */
  type Body(==, !new) = seq<nat>

  datatype Frame = Frame(id: StreamId, body: Body)

  /** Where a stream is: not yet in the stream map, in it, taken out by a remover, or replaced there by
      a later stream with the same id. */
  datatype Place = Unstored | Attached | Taken | Replaced

  /** A stream object. `since` and `sinceRead` are how many frames the pump had looked up, and
      had read, when the stream was stored. */
  datatype Stream = Stream(
    id: StreamId, place: Place, incoming: seq<Body>, done: bool, received: seq<Body>, since: nat, sinceRead: nat)

  /** The pump waits for a message, has one to look up, or holds one for a stream. */
  datatype Pump = Reading | Looking(frame: Frame) | Holding(stream: nat, body: Body) | Stopped

  /** `read` and `looked` are the frames the pump has read and has looked up so far. */
  datatype Conn = Conn(streams: seq<Stream>, table: map<StreamId, nat>, pump: Pump, read: seq<Frame>,
                       looked: seq<Frame>)

  const EMPTY := Conn([], map[], Reading, [], [])

  datatype Event =
    | NewStream
    | Store(stream: nat)
    | LoadAndDelete(id: StreamId)
    | CloseDone(stream: nat)
    | Read(frame: Frame)
    | Look
    | Send
    | Drop
    | Fail
    | Receive(stream: nat)

  /** The counter is a uint32, incremented before use. */
  function NextId(c: Conn): StreamId { (|c.streams| + 1) % IDS }

  predicate Enabled(c: Conn, e: Event) {
    match e
    case NewStream => true
    case Store(k) => k < |c.streams| && c.streams[k].place.Unstored?
    case LoadAndDelete(id) => true
    // A remover closes the stream it took out of the map; the pump, when it stops, those still in it.
    // Nobody closes a stream that has been replaced.
    case CloseDone(k) =>
      k < |c.streams| && (c.streams[k].place.Taken? || (c.pump.Stopped? && c.streams[k].place.Attached?))
    case Read(_) => c.pump.Reading?
    case Look => c.pump.Looking?
    case Send => c.pump.Holding? && c.pump.stream < |c.streams| && |c.streams[c.pump.stream].incoming| < QUEUE
    case Drop => c.pump.Holding? && c.pump.stream < |c.streams| && c.streams[c.pump.stream].done
    case Fail => c.pump.Reading?
    case Receive(k) => k < |c.streams| && c.streams[k].incoming != []
  }

  function Detach(c: Conn, id: StreamId, place: Place): Conn {
    if id in c.table && c.table[id] < |c.streams| then
      var k := c.table[id];
      c.(table := c.table - {id}, streams := c.streams[k := c.streams[k].(place := place)])
    else c
  }

  function Apply(c: Conn, e: Event): Conn
    requires Enabled(c, e)
  {
    match e
    case NewStream => c.(streams := c.streams + [Stream(NextId(c), Unstored, [], false, [], 0, 0)])
    // Storing replaces whatever stream the map held under the id.
    case Store(k) =>
      var id := c.streams[k].id;
      var c1 := Detach(c, id, Replaced);
      c1.(table := c1.table[id := k],
          streams := c1.streams[k := c.streams[k].(place := Attached, since := |c.looked|, sinceRead := |c.read|)])
    case LoadAndDelete(id) => Detach(c, id, Taken)
    case CloseDone(k) => c.(streams := c.streams[k := c.streams[k].(done := true)])
    case Read(frame) => c.(pump := Looking(frame), read := c.read + [frame])
    case Look =>
      var f := c.pump.frame;
      c.(pump := if f.id in c.table then Holding(c.table[f.id], f.body) else Reading, looked := c.looked + [f])
    case Send =>
      var k := c.pump.stream;
      c.(pump := Reading, streams := c.streams[k := c.streams[k].(incoming := c.streams[k].incoming + [c.pump.body])])
    case Drop => c.(pump := Reading)
    case Fail => c.(pump := Stopped)
    case Receive(k) =>
      var s := c.streams[k];
      c.(streams := c.streams[k := s.(incoming := s.incoming[1..], received := s.received + [s.incoming[0]])])
  }

  predicate Legal(c: Conn, es: seq<Event>)
    decreases |es|
  {
    es == [] || (Enabled(c, es[0]) && Legal(Apply(c, es[0]), es[1..]))
  }

  function Run(c: Conn, es: seq<Event>): Conn
    requires Legal(c, es)
    decreases |es|
  {
    if es == [] then c else Run(Apply(c, es[0]), es[1..])
  }

  // ---------------------------------------------------------------- frames of one stream

  /** The bodies of the frames with this id, in order. */
  function Bodies(frames: seq<Frame>, id: StreamId): seq<Body> {
    if frames == [] then []
    else
      var last := frames[|frames| - 1];
      Bodies(frames[..|frames| - 1], id) + (if last.id == id then [last.body] else [])
  }

  lemma BodiesAppend(frames: seq<Frame>, from: nat, f: Frame, id: StreamId)
    requires from <= |frames|
    ensures Bodies((frames + [f])[from..], id) == Bodies(frames[from..], id) + (if f.id == id then [f.body] else [])
  {
    assert (frames + [f])[from..] == frames[from..] + [f];
    assert (frames[from..] + [f])[..|frames[from..]|] == frames[from..];
  }

  /** What the stream has been given: received, queued, or in the pump's hand. */
  function Given(c: Conn, k: nat): seq<Body>
    requires k < |c.streams|
  {
    c.streams[k].received + c.streams[k].incoming
        + (if c.pump.Holding? && c.pump.stream == k then [c.pump.body] else [])
  }

  /** The frames looked up for the stream's id since it was stored. */
  function Due(c: Conn, k: nat): seq<Body>
    requires k < |c.streams| && c.streams[k].since <= |c.looked|
  {
    Bodies(c.looked[c.streams[k].since..], c.streams[k].id)
  }

  predicate StreamOk(c: Conn, k: nat)
    requires k < |c.streams|
  {
    var s := c.streams[k];
    && s.id == (k + 1) % IDS && |s.incoming| <= QUEUE && s.since <= |c.looked| && s.sinceRead <= |c.read|
    && (s.place.Attached? <==> s.id in c.table && c.table[s.id] == k)
    && match s.place
       case Unstored => Given(c, k) == [] && !s.done
       case Attached => Given(c, k) == Due(c, k) && (s.done ==> c.pump.Stopped?)
       case Taken => Given(c, k) <= Due(c, k)
       case Replaced => Given(c, k) <= Due(c, k) && (s.done ==> c.pump.Stopped?)
  }

  ghost predicate Inv(c: Conn) {
    && (forall id | id in c.table :: c.table[id] < |c.streams| && c.streams[c.table[id]].id == id)
    && (c.pump.Holding? ==> c.pump.stream < |c.streams|)
    && c.read == c.looked + (if c.pump.Looking? then [c.pump.frame] else [])
    && forall k | 0 <= k < |c.streams| :: StreamOk(c, k)
  }

  lemma DetachKeeps(c: Conn, id: StreamId, place: Place)
    requires Inv(c) && (place.Taken? || place.Replaced?)
    ensures Inv(Detach(c, id, place)) && id !in Detach(c, id, place).table
  {
    var c' := Detach(c, id, place);
    forall k | 0 <= k < |c'.streams| ensures StreamOk(c', k) {
      assert StreamOk(c, k);
    }
  }

  lemma StoreKeeps(c: Conn, k: nat)
    requires Inv(c) && Enabled(c, Store(k))
    ensures Inv(Apply(c, Store(k)))
  {
    var id := c.streams[k].id;
    DetachKeeps(c, id, Replaced);
    var c1 := Detach(c, id, Replaced);
    var c' := Apply(c, Store(k));
    assert StreamOk(c, k);
    forall j | 0 <= j < |c'.streams| ensures StreamOk(c', j) {
      assert StreamOk(c1, j);
    }
  }

  lemma LookKeeps(c: Conn)
    requires Inv(c) && Enabled(c, Look)
    ensures Inv(Apply(c, Look))
  {
    var c', f := Apply(c, Look), c.pump.frame;
    forall k | 0 <= k < |c'.streams| ensures StreamOk(c', k) {
      assert StreamOk(c, k);
      BodiesAppend(c.looked, c.streams[k].since, f, c.streams[k].id);
    }
  }

  lemma HandOverKeeps(c: Conn, e: Event)
    requires Inv(c) && Enabled(c, e) && (e.Send? || e.Drop?)
    ensures Inv(Apply(c, e))
  {
    hide Bodies;
    var c' := Apply(c, e);
    assert StreamOk(c, c.pump.stream);
    forall k | 0 <= k < |c'.streams| ensures StreamOk(c', k) {
      assert StreamOk(c, k);
      if e.Send? && k == c.pump.stream {
        assert c.streams[k].received + (c.streams[k].incoming + [c.pump.body]) == Given(c, k);
      }
    }
  }

  lemma ReceiveKeeps(c: Conn, k: nat)
    requires Inv(c) && Enabled(c, Receive(k))
    ensures Inv(Apply(c, Receive(k)))
  {
    hide Bodies;
    var c', s := Apply(c, Receive(k)), c.streams[k];
    assert s.received + s.incoming == (s.received + [s.incoming[0]]) + s.incoming[1..];
    assert Given(c', k) == Given(c, k);
    forall j | 0 <= j < |c'.streams| ensures StreamOk(c', j) {
      assert StreamOk(c, j);
    }
  }

  lemma CloseKeeps(c: Conn, k: nat)
    requires Inv(c) && Enabled(c, CloseDone(k))
    ensures Inv(Apply(c, CloseDone(k)))
  {
    hide Bodies;
    var c' := Apply(c, CloseDone(k));
    forall j | 0 <= j < |c'.streams| ensures StreamOk(c', j) {
      assert StreamOk(c, j);
    }
  }

  lemma OthersKeep(c: Conn, e: Event)
    requires Inv(c) && Enabled(c, e) && (e.NewStream? || e.Read? || e.Fail?)
    ensures Inv(Apply(c, e))
  {
    hide Bodies;
    var c' := Apply(c, e);
    forall k | 0 <= k < |c'.streams| ensures StreamOk(c', k) {
      assert k < |c.streams| ==> StreamOk(c, k);
    }
  }

  lemma EventKeepsInv(c: Conn, e: Event)
    requires Inv(c) && Enabled(c, e)
    ensures Inv(Apply(c, e))
  {
    hide Inv, Bodies, Given, Due, StreamOk;
    match e
    case Store(k) => StoreKeeps(c, k);
    case LoadAndDelete(id) => DetachKeeps(c, id, Taken);
    case Look => LookKeeps(c);
    case Send => HandOverKeeps(c, e);
    case Drop => HandOverKeeps(c, e);
    case Receive(k) => ReceiveKeeps(c, k);
    case CloseDone(k) => CloseKeeps(c, k);
    case _ => OthersKeep(c, e);
  }

  lemma {:induction false} RunKeepsInv(c: Conn, es: seq<Event>)
    requires Inv(c) && Legal(c, es)
    ensures Inv(Run(c, es))
    decreases |es|
  {
    if es != [] {
      EventKeepsInv(c, es[0]);
      RunKeepsInv(Apply(c, es[0]), es[1..]);
    }
  }

  // ---------------------------------------------------------------- main results

  /** In every interleaving, and through any number of id wrap-arounds, what a reader has received
      is a prefix, in order and without gaps, of the frames looked up for its id since the stream
      was stored; and nothing is lost while the stream is in the map: the rest is in the queue, of
      at most 64 frames, or in the pump's hand. */
  lemma ReceivedIsAPrefix(es: seq<Event>, k: nat)
    requires Legal(EMPTY, es) && k < |Run(EMPTY, es).streams|
    ensures var c := Run(EMPTY, es);
            var s := c.streams[k];
            && s.since <= |c.looked| && |s.incoming| <= QUEUE
            && s.received <= Bodies(c.looked[s.since..], s.id)
            && (s.place.Attached? ==> Given(c, k) == Bodies(c.looked[s.since..], s.id))
  {
    RunKeepsInv(EMPTY, es);
    var c := Run(EMPTY, es);
    assert StreamOk(c, k);
    assert c.streams[k].received <= Given(c, k);
  }

  lemma {:induction false} StreamsOnlyGrow(c: Conn, es: seq<Event>)
    requires Legal(c, es)
    ensures |c.streams| <= |Run(c, es).streams|
    decreases |es|
  {
    if es != [] {
      StreamsOnlyGrow(Apply(c, es[0]), es[1..]);
    }
  }
}

/** The multiplexer as the object it is: its methods, each run without interruption, take the steps
    of `Mux` in the order the code does. */
module MuxObject {
  import opened Wrappers
  import opened Words
  import opened Mux
  import Framing

  /** `openStream` run without interruption. */
  function Opened(c: Conn): Conn { Apply(Apply(c, NewStream), Event.Store(|c.streams|)) }

  /** The new stream is in the map under its id; a stream the map held there is out of it. */
  lemma OpenedIs(c: Conn)
    requires Inv(c)
    ensures var k, id := |c.streams|, NextId(c);
            var added := Stream(id, Attached, [], false, [], |c.looked|, |c.read|);
            var rest := if id in c.table && c.table[id] < k
                        then c.streams[c.table[id] := c.streams[c.table[id]].(place := Replaced)]
                        else c.streams;
            Opened(c) == Conn(rest + [added], c.table[id := k], c.pump, c.read, c.looked) && Inv(Opened(c))
  {
    hide Given, Due, Bodies, StreamOk;
    EventKeepsInv(c, NewStream);
    EventKeepsInv(Apply(c, NewStream), Event.Store(|c.streams|));
    var k, id := |c.streams|, NextId(c);
    assert Opened(c).table == c.table[id := k];
  }

  /** `removeStream`: the stream found in the map is closed. */
  function Removed(c: Conn, id: StreamId): Conn {
    if id in c.table && c.table[id] < |c.streams| then Apply(Detach(c, id, Taken), CloseDone(c.table[id])) else c
  }

  /** The select of `readPump`, with a frame in hand: it may take either ready case, and waits when
      there is none. */
  function Delivered(c: Conn, preferDone: bool): Conn {
    if Enabled(c, Drop) && (preferDone || !Enabled(c, Send)) then Apply(c, Drop)
    else if Enabled(c, Send) then Apply(c, Send)
    else c
  }

  /** When the pump stops, every stream still in the map is closed. */
  function AllClosed(c: Conn): Conn {
    c.(pump := Stopped,
       streams := seq(|c.streams|, k requires 0 <= k < |c.streams| =>
         if c.streams[k].place.Attached? then c.streams[k].(done := true) else c.streams[k]))
  }

  class MuxConn {
    var nextId: nat
    var streams: seq<Stream>
    var table: map<StreamId, nat>
    var pump: Pump
    // What the pump has read and looked up so far.
    var read: seq<Frame>
    var looked: seq<Frame>

    function Model(): Conn
      reads this
    {
      Conn(streams, table, pump, read, looked)
    }

    ghost predicate Valid()
      reads this
    {
      nextId == |streams| % IDS && Inv(Model())
    }

    constructor ()
      ensures Valid() && Model() == EMPTY
    {
      nextId, streams, table, pump := 0, [], map[], Reading;
      read, looked := [], [];
    }

    method OpenStream() returns (k: nat)
      requires Valid()
      modifies this
      ensures Valid() && k == old(|streams|) && Model() == Opened(old(Model()))
      ensures streams[k].id in table && table[streams[k].id] == k && streams[k].place.Attached?
    {
      hide Opened, Inv;
      ghost var was := Model();
      OpenedIs(was);
      nextId := (nextId + 1) % IDS;
      k := |streams|;
      // Storing under an id already in the map replaces the stream there.
      if nextId in table && table[nextId] < k {
        streams := streams[table[nextId] := streams[table[nextId]].(place := Replaced)];
      }
      table := table[nextId := k];
      streams := streams + [Stream(nextId, Attached, [], false, [], |looked|, |read|)];
    }

    method RemoveStream(id: StreamId)
      requires Valid()
      modifies this
      ensures Valid() && Model() == Removed(old(Model()), id)
      ensures id !in table && (old(id in table) ==> streams[old(table[id])].done)
    {
      ghost var was := Model();
      if id in table {
        DetachKeeps(was, id, Taken);
        EventKeepsInv(Detach(was, id, Taken), CloseDone(table[id]));
        var k := table[id];
        table := table - {id};
        streams := streams[k := streams[k].(place := Taken, done := true)];
        assert Model() == Removed(was, id);
      }
    }

    /** `readPump` up to its select. A message shorter than a header is skipped. */
    method Take(message: seq<byte>)
      requires Valid() && pump.Reading?
      modifies this
      ensures Valid()
      ensures |message| < 5 ==> Model() == old(Model())
      ensures |message| >= 5 ==>
                var f := Framing.Decode(message);
                Model() == Apply(Apply(old(Model()), Read(Frame(f.id, [f.kind] + f.payload))), Look)
    {
      if |message| < 5 {
        return;
      }
      ghost var was := Model();
      var f := Framing.Decode(message);
      var frame := Frame(f.id, [f.kind] + f.payload);
      EventKeepsInv(was, Read(frame));
      EventKeepsInv(Apply(was, Read(frame)), Look);
      read, looked := read + [frame], looked + [frame];
      if f.id in table {
        pump := Holding(table[f.id], frame.body);
      }
    }

    /** The select of `readPump`. The frame stays in hand when the queue is full and the stream open. */
    method Deliver(preferDone: bool)
      requires Valid() && pump.Holding?
      modifies this
      ensures Valid() && Model() == Delivered(old(Model()), preferDone)
      ensures old(!streams[pump.stream].done && |streams[pump.stream].incoming| < QUEUE) ==>
                pump.Reading? && streams[old(pump.stream)].incoming == old(streams[pump.stream].incoming + [pump.body])
      ensures old(streams[pump.stream].done) ==> pump.Reading?
      ensures old(!streams[pump.stream].done && |streams[pump.stream].incoming| >= QUEUE) ==> Model() == old(Model())
      ensures |streams| == old(|streams|) && forall k | 0 <= k < |streams| && k != old(pump.stream) ::
                streams[k] == old(streams[k])
    {
      ghost var was := Model();
      var k, body := pump.stream, pump.body;
      if streams[k].done && (preferDone || |streams[k].incoming| >= QUEUE) {
        EventKeepsInv(was, Drop);
        pump := Reading;
      } else if |streams[k].incoming| < QUEUE {
        EventKeepsInv(was, Send);
        pump := Reading;
        streams := streams[k := streams[k].(incoming := streams[k].incoming + [body])];
      }
    }

    /** `readFrame`: the next frame of the stream, or nothing once it is closed. */
    method ReadFrame(k: nat, preferDone: bool) returns (frame: Option<Body>)
      requires Valid() && k < |streams|
      requires streams[k].incoming != [] || streams[k].done || pump.Stopped?
      modifies this
      ensures Valid()
      ensures frame.None? ==> (old(streams[k].done) || pump.Stopped?) && Model() == old(Model())
      ensures frame.Some? ==> old(streams[k].incoming) != [] && frame.value == old(streams[k].incoming)[0]
                              && Model() == Apply(old(Model()), Receive(k))
    {
      if streams[k].incoming == [] || (preferDone && (streams[k].done || pump.Stopped?)) {
        return None;
      }
      EventKeepsInv(Model(), Receive(k));
      var s := streams[k];
      streams := streams[k := s.(incoming := s.incoming[1..], received := s.received + [s.incoming[0]])];
      return Some(s.incoming[0]);
    }

    /** The tunnel ends: the deferred part of `readPump`. */
    method Stop()
      requires Valid() && pump.Reading?
      modifies this
      ensures Valid() && Model() == AllClosed(old(Model()))
      ensures |streams| == old(|streams|) && forall k | 0 <= k < |streams| ::
                streams[k].done <==> old(streams[k].done || streams[k].place.Attached?)
      ensures pump.Stopped? && table == old(table)
    {
      ghost var was := Model();
      pump := Stopped;
      EventKeepsInv(was, Fail);
      var k := 0;
      while k < |streams|
        invariant k <= |streams| == |was.streams| && Valid() && pump.Stopped? && nextId == old(nextId)
        invariant table == was.table && read == was.read && looked == was.looked
        invariant forall i | 0 <= i < |streams| ::
                    var s := was.streams[i];
                    streams[i] == if i < k && s.place.Attached? then s.(done := true) else s
      {
        if streams[k].place.Attached? {
          EventKeepsInv(Model(), CloseDone(k));
          streams := streams[k := streams[k].(done := true)];
        }
        k := k + 1;
      }
      assert streams == AllClosed(was).streams;
    }
  }
}

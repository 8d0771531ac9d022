/** The CLI's end of the tunnel (cli/src/tunnel.ts): request bodies are collected per stream id in one
    table for all tunnels, upgraded streams are relayed to sockets kept per tunnel. */
module TunnelCli {
  import opened Wrappers
  import opened Words
  import opened Framing

  type Tunnel = nat

  /** A parsed REQUEST_HEADERS payload; `upgrade` is whether its headers ask for a WebSocket. */
  datatype Request = Request(head: seq<byte>, upgrade: bool, hasBody: bool)

  type Parse = seq<byte> -> Request

  datatype Pending = Pending(req: Request, chunks: seq<seq<byte>>, tunnel: Tunnel)

  /** A request handed to the local server, with its body if it has one. */
  datatype Delivery = Delivery(tunnel: Tunnel, id: StreamId, req: Request, body: Option<seq<byte>>)

  type Stream = (Tunnel, StreamId)

  /** `dialing`: upgrades sent to the local server and not answered yet; `sockets`: what has been
      written to each upgraded socket. */
  datatype State = State(
    pending: map<StreamId, Pending>, dialing: set<Stream>, sockets: map<Stream, seq<byte>>, delivered: seq<Delivery>)

  datatype Event =
    | Message(tunnel: Tunnel, data: seq<byte>)
    | Upgraded(tunnel: Tunnel, id: StreamId)
    | SocketClosed(tunnel: Tunnel, id: StreamId)
    | TunnelClosed(tunnel: Tunnel)

  function Forward(s: State, w: Tunnel, id: StreamId, req: Request): State {
    if req.upgrade then s.(dialing := s.dialing + {(w, id)})
    else if req.hasBody then s.(pending := s.pending[id := Pending(req, [], w)])
    else s.(delivered := s.delivered + [Delivery(w, id, req, None)])
  }

  function BodyFrame(s: State, w: Tunnel, f: Frame): State {
    if (w, f.id) in s.sockets then
      if f.kind == DATA then s.(sockets := s.sockets[(w, f.id) := s.sockets[(w, f.id)] + f.payload])
      else if f.kind == END then s.(sockets := s.sockets - {(w, f.id)})
      else s
    else if f.id !in s.pending then s
    else
      var p := s.pending[f.id];
      if f.kind == DATA then s.(pending := s.pending[f.id := p.(chunks := p.chunks + [f.payload])])
      else if f.kind == END then
        s.(pending := s.pending - {f.id},
            delivered := s.delivered + [Delivery(p.tunnel, f.id, p.req, Some(Concat(p.chunks)))])
      else s
  }

  function OnFrame(s: State, w: Tunnel, f: Frame, parse: Parse): State {
    if f.kind == REQUEST_HEADERS then Forward(s, w, f.id, parse(f.payload))
    else if f.kind == DATA || f.kind == END then BodyFrame(s, w, f)
    else s
  }

  function Apply(s: State, e: Event, parse: Parse): State {
    match e
    case Message(w, data) => if |data| < 5 then s else OnFrame(s, w, Decode(data), parse)
    case Upgraded(w, id) =>
      if (w, id) in s.dialing then s.(dialing := s.dialing - {(w, id)}, sockets := s.sockets[(w, id) := []]) else s
    case SocketClosed(w, id) => s.(sockets := s.sockets - {(w, id)})
    case TunnelClosed(w) => s.(sockets := map k | k in s.sockets && k.0 != w :: s.sockets[k])
  }

  function Run(s: State, es: seq<Event>, parse: Parse): State {
    if es == [] then s else Apply(Run(s, es[..|es| - 1], parse), es[|es| - 1], parse)
  }

  // ---------------------------------------------------------------- the object

  /** The module's tables as an object, with the loop that puts a body together. */
  class Cli {
    var pendingRequests: map<StreamId, Pending>
    var dialing: set<Stream>
    var sockets: map<Stream, seq<byte>>
    var delivered: seq<Delivery>

    ghost function Model(): State
      reads this
    {
      State(pendingRequests, dialing, sockets, delivered)
    }

    constructor ()
      ensures Model() == State(map[], {}, map[], [])
    {
      pendingRequests, dialing, sockets, delivered := map[], {}, map[], [];
    }

    method OnMessage(w: Tunnel, data: seq<byte>, parse: Parse)
      modifies this
      ensures Model() == old(Apply(Model(), Message(w, data), parse))
    {
      if |data| < 5 {
        return;
      }
      var frame := Decode(data);
      if frame.kind == REQUEST_HEADERS {
        ProxyToLocal(w, frame.id, parse(frame.payload));
      } else if frame.kind == DATA || frame.kind == END {
        HandleBodyFrame(w, frame.id, frame.kind, frame.payload);
      }
    }

    method ProxyToLocal(w: Tunnel, id: StreamId, req: Request)
      modifies this
      ensures Model() == old(Forward(Model(), w, id, req))
    {
      if req.upgrade {
        dialing := dialing + {(w, id)};
      } else if req.hasBody {
        pendingRequests := pendingRequests[id := Pending(req, [], w)];
      } else {
        delivered := delivered + [Delivery(w, id, req, None)];
      }
    }

    method HandleBodyFrame(w: Tunnel, id: StreamId, kind: byte, payload: seq<byte>)
      modifies this
      ensures Model() == old(BodyFrame(Model(), w, Frame(id, kind, payload)))
    {
      if (w, id) in sockets {
        if kind == DATA {
          sockets := sockets[(w, id) := sockets[(w, id)] + payload];
        } else if kind == END {
          sockets := sockets - {(w, id)};
        }
        return;
      }
      if id !in pendingRequests {
        return;
      }
      var pending := pendingRequests[id];
      if kind == DATA {
        pendingRequests := pendingRequests[id := pending.(chunks := pending.chunks + [payload])];
      } else if kind == END {
        pendingRequests := pendingRequests - {id};
        var body := Reassemble(pending.chunks);
        delivered := delivered + [Delivery(pending.tunnel, id, pending.req, Some(body))];
      }
    }

    /** One buffer of the total length, filled chunk after chunk. */
    static method Reassemble(chunks: seq<seq<byte>>) returns (body: seq<byte>)
      ensures body == Concat(chunks)
    {
      var totalLen := 0;
      for i := 0 to |chunks|
        invariant totalLen == |Concat(chunks[..i])|
      {
        assert chunks[..i + 1] == chunks[..i] + [chunks[i]];
        totalLen := totalLen + |chunks[i]|;
      }
      assert chunks[..|chunks|] == chunks;
      var buffer := new byte[totalLen](_ => 0);
      var offset := 0;
      for i := 0 to |chunks|
        invariant offset == |Concat(chunks[..i])| <= totalLen
        invariant buffer[..offset] == Concat(chunks[..i])
      {
        assert chunks[..i + 1] == chunks[..i] + [chunks[i]];
        PrefixIsShorter(chunks, i + 1);
        forall j | 0 <= j < |chunks[i]| {
          buffer[offset + j] := chunks[i][j];
        }
        assert buffer[..offset + |chunks[i]|] == Concat(chunks[..i]) + chunks[i];
        offset := offset + |chunks[i]|;
      }
      assert buffer[..offset] == buffer[..];
      body := buffer[..];
    }
  }

  lemma {:induction false} PrefixIsShorter(chunks: seq<seq<byte>>, n: nat)
    requires n <= |chunks|
    ensures |Concat(chunks[..n])| <= |Concat(chunks)|
  {
    if n == |chunks| {
      assert chunks[..n] == chunks;
    } else {
      PrefixIsShorter(chunks[..|chunks| - 1], n);
      assert chunks[..|chunks| - 1][..n] == chunks[..n];
    }
  }

  // ---------------------------------------------------------------- one stream among others

  /** The frames of the events with this stream id, in order. */
  function FramesOf(es: seq<Event>, id: StreamId): seq<Frame> {
    if es == [] then []
    else
      var e := es[|es| - 1];
      FramesOf(es[..|es| - 1], id)
      + (if e.Message? && |e.data| >= 5 && Decode(e.data).id == id then [Decode(e.data)] else [])
  }

  function DeliveriesOf(ds: seq<Delivery>, id: StreamId): seq<Delivery> {
    if ds == [] then []
    else DeliveriesOf(ds[..|ds| - 1], id) + (if ds[|ds| - 1].id == id then [ds[|ds| - 1]] else [])
  }

  /** What the gateway sends for one request on stream `id`. */
  function Sent(id: StreamId, head: seq<byte>, chunks: seq<seq<byte>>, parse: Parse): seq<Frame> {
    [Frame(id, REQUEST_HEADERS, head)]
    + (if parse(head).hasBody then DataFrames(id, chunks) + [Frame(id, END, [])] else [])
  }

  /** What the CLI holds for stream `id` after the first n frames of its request on tunnel w. */
  ghost predicate Tracks(s0: State, s: State, w: Tunnel, id: StreamId, head: seq<byte>, chunks: seq<seq<byte>>,
          n: nat, parse: Parse)
  {
    var req, total := parse(head), |Sent(id, head, chunks, parse)|;
    && n <= total && (w, id) !in s.sockets && (w, id) !in s.dialing
    && DeliveriesOf(s.delivered, id) == DeliveriesOf(s0.delivered, id)
         + (if n == total then [Delivery(w, id, req, if req.hasBody then Some(Concat(chunks)) else None)] else [])
    && (0 < n < total ==> id in s.pending && s.pending[id] == Pending(req, chunks[..n - 1], w))
  }

  lemma OwnFrame(s0: State, s: State, w: Tunnel, id: StreamId, head: seq<byte>, chunks: seq<seq<byte>>, n: nat,
          parse: Parse)
    requires !parse(head).upgrade && n < |Sent(id, head, chunks, parse)| && Tracks(s0, s, w, id, head, chunks, n, parse)
    ensures Tracks(s0, OnFrame(s, w, Sent(id, head, chunks, parse)[n], parse), w, id, head, chunks, n + 1, parse)
  {
    hide Concat;
    var req := parse(head);
    if n == 0 {
    } else if n <= |chunks| {
      assert chunks[..n] == chunks[..n - 1] + [chunks[n - 1]];
    } else {
      assert chunks[..n - 1] == chunks;
    }
  }

  /** All that matters to a stream on tunnel w. */
  predicate SameStream(s: State, s': State, w: Tunnel, id: StreamId) {
    && (id in s'.pending <==> id in s.pending) && (id in s.pending ==> s'.pending[id] == s.pending[id])
    && ((w, id) in s'.sockets ==> (w, id) in s.sockets || (w, id) in s.dialing)
    && ((w, id) in s'.dialing ==> (w, id) in s.dialing)
    && DeliveriesOf(s'.delivered, id) == DeliveriesOf(s.delivered, id)
  }

  lemma OtherFrame(s: State, v: Tunnel, f: Frame, w: Tunnel, id: StreamId, parse: Parse)
    requires f.id != id
    ensures SameStream(s, OnFrame(s, v, f, parse), w, id)
  {
    hide Concat;
  }

  /** Frames of other streams, and sockets, do not touch this one. */
  lemma OtherEvent(s: State, e: Event, w: Tunnel, id: StreamId, parse: Parse)
    requires e.Message? && |e.data| >= 5 ==> Decode(e.data).id != id
    ensures SameStream(s, Apply(s, e, parse), w, id)
  {
    hide OnFrame, Decode, DeliveriesOf;
    if e.Message? && |e.data| >= 5 {
      OtherFrame(s, e.tunnel, Decode(e.data), w, id, parse);
    }
  }

  /** On a new tunnel, whatever earlier tunnels left pending and however the frames of its streams
      interleave: a request whose frames arrive whole is handed to the local server exactly once,
      with exactly the bytes of its data frames, and one whose frames do not is never handed over. */
  lemma {:induction false} EachBodyArrivesOnce(
    s: State, es: seq<Event>, w: Tunnel, id: StreamId, head: seq<byte>, chunks: seq<seq<byte>>, n: nat, parse: Parse)
    requires (w, id) !in s.sockets && (w, id) !in s.dialing
    requires forall i | 0 <= i < |es| && es[i].Message? :: es[i].tunnel == w
    requires !parse(head).upgrade && n <= |Sent(id, head, chunks, parse)|
    requires FramesOf(es, id) == Sent(id, head, chunks, parse)[..n]
    ensures Tracks(s, Run(s, es, parse), w, id, head, chunks, n, parse)
  {
    var sent := Sent(id, head, chunks, parse);
    if es == [] {
      assert n == 0;
    } else {
      var before, e := es[..|es| - 1], es[|es| - 1];
      if e.Message? && |e.data| >= 5 && Decode(e.data).id == id {
        assert n > 0 && FramesOf(es, id) == FramesOf(before, id) + [Decode(e.data)];
        assert FramesOf(before, id) == FramesOf(es, id)[..n - 1] == sent[..n - 1];
        assert Decode(e.data) == sent[n - 1];
        EachBodyArrivesOnce(s, before, w, id, head, chunks, n - 1, parse);
        OwnFrame(s, Run(s, before, parse), w, id, head, chunks, n - 1, parse);
      } else {
        EachBodyArrivesOnce(s, before, w, id, head, chunks, n, parse);
        OtherEvent(Run(s, before, parse), e, w, id, parse);
      }
    }
  }

  /** From end to end: with the frames the gateway's body loop makes of what it reads, the local
      server gets exactly the bytes that were read, once. */
  lemma BytesReadAreDelivered(
    s: State, es: seq<Event>, w: Tunnel, id: StreamId, head: seq<byte>, pieces: seq<seq<byte>>, parse: Parse)
    requires (w, id) !in s.sockets && (w, id) !in s.dialing
    requires forall i | 0 <= i < |es| && es[i].Message? :: es[i].tunnel == w
    requires !parse(head).upgrade && parse(head).hasBody
    requires FramesOf(es, id) ==
             [Frame(id, REQUEST_HEADERS, head)] + (DataFrames(id, NonEmpty(pieces)) + [Frame(id, END, [])])
    ensures DeliveriesOf(Run(s, es, parse).delivered, id) ==
            DeliveriesOf(s.delivered, id) + [Delivery(w, id, parse(head), Some(Concat(pieces)))]
  {
    hide Run, FramesOf, DeliveriesOf, Concat, NonEmpty;
    var chunks := NonEmpty(pieces);
    var sent := Sent(id, head, chunks, parse);
    assert sent[..|sent|] == sent;
    EachBodyArrivesOnce(s, es, w, id, head, chunks, |sent|, parse);
    NonEmptyKeepsBytes(pieces, 0);
  }

  /** A table shared by all tunnels is not enough for upgraded streams. A body left unfinished by a
      closed tunnel is handed over, cut short, when the next tunnel upgrades the same stream id, the
      local side closes first, and the gateway then ends the stream. */
  lemma UnfinishedBodyRevived(parse: Parse, post: seq<byte>, up: seq<byte>)
    requires parse(post) == Request(post, false, true) && parse(up) == Request(up, true, false)
    ensures
      var es := [Message(1, Encode(Frame(1, REQUEST_HEADERS, post))), Message(1, Encode(Frame(1, DATA, [97]))),
                 TunnelClosed(1),
                 Message(2, Encode(Frame(1, REQUEST_HEADERS, up))), Upgraded(2, 1), SocketClosed(2, 1),
                 Message(2, Encode(Frame(1, END, [])))];
      Run(State(map[], {}, map[], []), es, parse).delivered == [Delivery(1, 1, parse(post), Some([97]))]
  {
    hide Encode, Decode, Run;
    var f0, f1, f3, f6 := Frame(1, REQUEST_HEADERS, post), Frame(1, DATA, [97]), Frame(1, REQUEST_HEADERS, up),
        Frame(1, END, []);
    DecodeEncode(f0);
    DecodeEncode(f1);
    DecodeEncode(f3);
    DecodeEncode(f6);
    var e := [Message(1, Encode(f0)), Message(1, Encode(f1)), TunnelClosed(1), Message(2, Encode(f3)), Upgraded(2, 1),
              SocketClosed(2, 1), Message(2, Encode(f6))];
    var s := State(map[], {}, map[], []);
    var s2 := State(map[1 := Pending(parse(post), [[97]], 1)], {}, map[], []);
    Plays(s, e, 0, parse);
    assert Run(s, e[..1], parse) == State(map[1 := Pending(parse(post), [], 1)], {}, map[], []);
    assert [] + [[97]] == [[97]];
    Plays(s, e, 1, parse);
    assert Run(s, e[..2], parse) == s2;
    Plays(s, e, 2, parse);
    assert Run(s, e[..3], parse) == s2;
    Plays(s, e, 3, parse);
    assert Run(s, e[..4], parse) == s2.(dialing := {(2, 1)});
    Plays(s, e, 4, parse);
    assert Run(s, e[..5], parse) == s2.(sockets := map[(2, 1) := []]);
    Plays(s, e, 5, parse);
    assert Run(s, e[..6], parse) == s2;
    Plays(s, e, 6, parse);
    assert e[..7] == e;
    assert Concat([[97]]) == [97] by {
      assert Concat([]) == [];
    }
  }

  lemma Plays(s: State, es: seq<Event>, k: nat, parse: Parse)
    requires k < |es|
    ensures Run(s, es[..k + 1], parse) == Apply(Run(s, es[..k], parse), es[k], parse)
    ensures Run(s, es[..0], parse) == s
  {
    assert es[..k + 1][..k] == es[..k];
  }

  /** An end frame on a stream with no open socket, whose id another tunnel left pending. */
  predicate Revives(s: State, w: Tunnel, f: Frame) {
    f.kind == END && (w, f.id) !in s.sockets && f.id in s.pending && s.pending[f.id].tunnel != w
  }

  predicate OnlyOwn(ds: seq<Delivery>, from: nat, w: Tunnel) {
    forall i | from <= i < |ds| :: ds[i].tunnel == w
  }

  predicate NoRevival(s: State, es: seq<Event>, w: Tunnel, parse: Parse) {
    forall i | 0 <= i < |es| && es[i].Message? && |es[i].data| >= 5 ::
      !Revives(Run(s, es[..i], parse), w, Decode(es[i].data))
  }

  lemma OneEventRevives(s: State, e: Event, w: Tunnel, parse: Parse)
    requires e.Message? ==> e.tunnel == w
    ensures s.delivered <= Apply(s, e, parse).delivered
    ensures OnlyOwn(Apply(s, e, parse).delivered, |s.delivered|, w)
            <==> !(e.Message? && |e.data| >= 5 && Revives(s, w, Decode(e.data)))
  {
    hide Decode, Concat;
    if e.Message? && |e.data| >= 5 {
      var after := Apply(s, e, parse).delivered;
      assert Revives(s, w, Decode(e.data)) ==> after[|s.delivered|].tunnel != w;
    }
  }

  /** On a new tunnel w the CLI hands over only requests of w exactly when no such end frame arrives. */
  lemma {:induction false} RevivedExactlyWhen(s: State, es: seq<Event>, w: Tunnel, parse: Parse)
    requires forall i | 0 <= i < |es| && es[i].Message? :: es[i].tunnel == w
    ensures s.delivered <= Run(s, es, parse).delivered
    ensures OnlyOwn(Run(s, es, parse).delivered, |s.delivered|, w) <==> NoRevival(s, es, w, parse)
  {
    hide Apply, Revives, Decode;
    if es != [] {
      var before, e := es[..|es| - 1], es[|es| - 1];
      var s1 := Run(s, before, parse);
      RevivedExactlyWhen(s, before, w, parse);
      OneEventRevives(s1, e, w, parse);
      assert forall i | 0 <= i < |before| :: es[..i] == before[..i];
      assert NoRevival(s, es, w, parse)
        <==> NoRevival(s, before, w, parse) && !(e.Message? && |e.data| >= 5 && Revives(s1, w, Decode(e.data)));
    }
  }
}

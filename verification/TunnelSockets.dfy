/** What reaches the sockets of upgraded streams: over all interleavings. */
module TunnelSockets {
  import opened Wrappers
  import opened Words
  import opened Framing
  import opened TunnelCli

  /** A message of tunnel w that is a frame of this kind and stream. */
  predicate Carries(e: Event, w: Tunnel, id: StreamId, kind: byte) {
    e.Message? && e.tunnel == w && |e.data| >= 5 && Decode(e.data).id == id && Decode(e.data).kind == kind
  }

  /** The payloads of tunnel w's data frames for this stream, one after another. */
  function Payloads(es: seq<Event>, w: Tunnel, id: StreamId): seq<byte> {
    if es == [] then []
    else
      var e := es[|es| - 1];
      Payloads(es[..|es| - 1], w, id) + (if Carries(e, w, id, DATA) then Decode(e.data).payload else [])
  }

  /** The stream is over for its socket: the gateway's end frame, the local side, or the tunnel. */
  predicate Ends(e: Event, w: Tunnel, id: StreamId) {
    Carries(e, w, id, END) || e == SocketClosed(w, id) || e == TunnelClosed(w)
  }

  predicate Stays(es: seq<Event>, w: Tunnel, id: StreamId) { forall i | 0 <= i < |es| :: !Ends(es[i], w, id) }

  predicate UpgradedOnce(es: seq<Event>, w: Tunnel, id: StreamId) {
    forall i | 0 <= i < |es| :: es[i] != Upgraded(w, id)
  }

  /** One event, as the socket of (w, id) sees it. */
  lemma SocketStep(s: State, e: Event, w: Tunnel, id: StreamId, parse: Parse)
    ensures var t := Apply(s, e, parse);
            e != Upgraded(w, id) ==>
              && ((w, id) in t.sockets <==> (w, id) in s.sockets && !Ends(e, w, id))
              && ((w, id) in t.sockets ==>
                    t.sockets[(w, id)] ==
                    s.sockets[(w, id)] + (if Carries(e, w, id, DATA) then Decode(e.data).payload else []))
  {
    hide Decode, Concat;
  }

  /** From any moment on at which a stream has a socket, and until it is upgraded again: the socket is
      kept if and only if nothing ends the stream, and it has then been sent, after what it had, the
      payloads of the stream's data frames, in order; frames of other streams and tunnels change nothing. */
  lemma {:induction false} SocketGetsPayloads(s: State, es: seq<Event>, w: Tunnel, id: StreamId, parse: Parse)
    requires (w, id) in s.sockets && UpgradedOnce(es, w, id)
    ensures var t := Run(s, es, parse);
            && ((w, id) in t.sockets <==> Stays(es, w, id))
            && ((w, id) in t.sockets ==> t.sockets[(w, id)] == s.sockets[(w, id)] + Payloads(es, w, id))
    decreases |es|
  {
    hide Apply, Ends, Carries, Decode;
    if es == [] {
      assert Payloads(es, w, id) == [] && s.sockets[(w, id)] + [] == s.sockets[(w, id)];
    } else {
      var before, e := es[..|es| - 1], es[|es| - 1];
      SocketGetsPayloads(s, before, w, id, parse);
      SocketStep(Run(s, before, parse), e, w, id, parse);
      StaysSnoc(es, w, id);
    }
  }

  lemma StaysSnoc(es: seq<Event>, w: Tunnel, id: StreamId)
    requires es != []
    ensures Stays(es, w, id) <==> Stays(es[..|es| - 1], w, id) && !Ends(es[|es| - 1], w, id)
  {
    hide Ends;
    forall i | 0 <= i < |es| ensures i < |es| - 1 ==> es[i] == es[..|es| - 1][i] {}
  }

  /** What belongs to an upgraded stream goes to its socket and nowhere else. */
  lemma SocketFirst(s: State, e: Event, w: Tunnel, id: StreamId, parse: Parse)
    requires (w, id) in s.sockets && (Carries(e, w, id, DATA) || Carries(e, w, id, END))
    ensures var t := Apply(s, e, parse);
            && t.pending == s.pending && t.delivered == s.delivered && t.dialing == s.dialing
            && forall k | k != (w, id) :: (k in t.sockets <==> k in s.sockets)
                                          && (k in s.sockets ==> t.sockets[k] == s.sockets[k])
  {
    hide Decode, Concat;
  }

  lemma DialStep(s: State, e: Event, w: Tunnel, id: StreamId, parse: Parse)
    requires (w, id) in s.dialing && e != Upgraded(w, id)
    ensures (w, id) in Apply(s, e, parse).dialing
  {
    hide Decode, Concat;
  }

  lemma {:induction false} StillDialing(s: State, es: seq<Event>, w: Tunnel, id: StreamId, parse: Parse)
    requires (w, id) in s.dialing && UpgradedOnce(es, w, id)
    ensures (w, id) in Run(s, es, parse).dialing
    decreases |es|
  {
    hide Apply;
    if es != [] {
      StillDialing(s, es[..|es| - 1], w, id, parse);
      DialStep(Run(s, es[..|es| - 1], parse), es[|es| - 1], w, id, parse);
    }
  }

  /** A request to upgrade, of a stream whose local side is neither asked nor answered yet. */
  predicate AsksUpgrade(e: Event, w: Tunnel, id: StreamId, parse: Parse) {
    Carries(e, w, id, REQUEST_HEADERS) && parse(Decode(e.data).payload).upgrade
  }

  lemma {:induction false} RunJoins(s: State, a: seq<Event>, b: seq<Event>, parse: Parse)
    ensures Run(s, a + b, parse) == Run(Run(s, a, parse), b, parse)
    decreases |b|
  {
    hide Apply;
    if b == [] {
      assert a + b == a;
    } else {
      assert (a + b)[..|a + b| - 1] == a + b[..|b| - 1];
      RunJoins(s, a, b[..|b| - 1], parse);
    }
  }

  lemma RunOne(s: State, e: Event, parse: Parse)
    ensures Run(s, [e], parse) == Apply(s, e, parse)
  {
    hide Apply;
    assert [e][..0] == [] && Run(s, [], parse) == s;
  }

  /** The whole life of an upgraded stream: the request to upgrade, whatever comes before the local side
      has answered, the answer, and the rest. The socket gets exactly the payloads of the data frames
      that follow the answer, in order, and is gone once the stream has ended. */
  lemma UpgradeRelays(s: State, ask: Event, early: seq<Event>, late: seq<Event>, w: Tunnel, id: StreamId, parse: Parse)
    requires AsksUpgrade(ask, w, id, parse) && UpgradedOnce(early, w, id) && UpgradedOnce(late, w, id)
    ensures var t := Run(s, [ask] + early + ([Upgraded(w, id)] + late), parse);
            && ((w, id) in t.sockets <==> Stays(late, w, id))
            && ((w, id) in t.sockets ==> t.sockets[(w, id)] == Payloads(late, w, id))
  {
    hide Carries, Decode, Concat, Stays;
    var s1, s2 := Run(s, [ask], parse), Run(s, [ask] + early, parse);
    RunOne(s, ask, parse);
    Asked(s, ask, w, id, parse);
    RunJoins(s, [ask], early, parse);
    StillDialing(s1, early, w, id, parse);
    var s3 := Run(s2, [Upgraded(w, id)], parse);
    RunOne(s2, Upgraded(w, id), parse);
    assert s3.sockets[(w, id)] == [];
    RunJoins(s2, [Upgraded(w, id)], late, parse);
    RunJoins(s, [ask] + early, [Upgraded(w, id)] + late, parse);
    SocketGetsPayloads(s3, late, w, id, parse);
    assert [] + Payloads(late, w, id) == Payloads(late, w, id);
  }

  lemma Asked(s: State, ask: Event, w: Tunnel, id: StreamId, parse: Parse)
    requires AsksUpgrade(ask, w, id, parse)
    ensures (w, id) in Apply(s, ask, parse).dialing
  {
    hide Decode, Concat;
  }
}

/** Tunnel frames: a big-endian stream id, a type byte and a payload (gateway/mux.go, cli/src/tunnel.ts),
    and the gateway's loop that cuts a request body into data frames. */
module Framing {
  import opened Words
  import opened Fips180

  type StreamId = word

  const REQUEST_HEADERS: byte := 0x01
  const RESPONSE_HEADERS: byte := 0x02
  const DATA: byte := 0x03
  const END: byte := 0x04

  const CHUNK: nat := 32 * 1024

  datatype Frame = Frame(id: StreamId, kind: byte, payload: seq<byte>)

  function Encode(f: Frame): (r: seq<byte>)
    ensures |r| == 5 + |f.payload|
  {
    BigEndian(f.id, 4) + [f.kind] + f.payload
  }

  function Decode(data: seq<byte>): Frame
    requires |data| >= 5
  {
    Frame(Word(data, 0), data[4], data[5..])
  }

  lemma DivisionBy(q: nat, r: nat, d: nat)
    requires r < d
    ensures (q * d + r) / d == q && (q * d + r) % d == r
  {
    DivMod(q * d + r, d);
    var q', r' := (q * d + r) / d, (q * d + r) % d;
    assert q * d + r == q' * d + r';
    if q < q' {
      MulMono(q + 1, q', d);
    } else if q' < q {
      MulMono(q' + 1, q, d);
    }
  }

  lemma WordOfBytes(b0: byte, b1: byte, b2: byte, b3: byte)
    ensures var x := (b0 as int) * 0x100_0000 + (b1 as int) * 0x1_0000 + (b2 as int) * 0x100 + b3;
            x / 0x100_0000 == b0 && x / 0x1_0000 % 256 == b1 && x / 0x100 % 256 == b2 && x % 256 == b3
  {
    var n0: int, n1: int, n2: int, n3: int := b0, b1, b2, b3;
    DivisionBy(n0, n1 * 0x1_0000 + n2 * 0x100 + n3, 0x100_0000);
    DivisionBy(n0 * 0x100 + n1, n2 * 0x100 + n3, 0x1_0000);
    DivisionBy(n0, n1, 0x100);
    DivisionBy(n0 * 0x1_0000 + n1 * 0x100 + n2, n3, 0x100);
    DivisionBy(n0 * 0x100 + n1, n2, 0x100);
  }

  lemma SumOfBytes(x: int)
    requires x >= 0
    ensures x == x / 0x100_0000 * 0x100_0000 + x / 0x1_0000 % 256 * 0x1_0000 + x / 0x100 % 256 * 0x100 + x % 256
  {
    var a := x / 256;
    var b := a / 256;
    assert x / 0x1_0000 == b && x / 0x100_0000 == b / 256;
  }

  /** The bytes on the wire: the stream id, most significant byte first, then the type, then the payload. */
  lemma WireFormat(f: Frame)
    ensures var m := Encode(f);
            && |m| == 5 + |f.payload| && m[4] == f.kind && m[5..] == f.payload
            && f.id == ((m[0] as nat * 256 + m[1] as nat) * 256 + m[2] as nat) * 256 + m[3] as nat
  {
    hide BigEndian;
    WordBytes(f.id);
    SumOfBytes(f.id);
  }

  /** A frame survives the wire. */
  lemma DecodeEncode(f: Frame)
    ensures Decode(Encode(f)) == f
  {
    hide BigEndian;
    WordBytes(f.id);
    SumOfBytes(f.id);
    assert Encode(f)[5..] == f.payload;
  }

  /** Every message of at least five bytes is the encoding of a frame. */
  lemma EncodeDecode(data: seq<byte>)
    requires |data| >= 5
    ensures Encode(Decode(data)) == data
  {
    hide BigEndian;
    WordOfBytes(data[0], data[1], data[2], data[3]);
    WordBytes(Word(data, 0));
    assert data[..4] == BigEndian(Word(data, 0), 4);
    assert data == data[..4] + [data[4]] + data[5..];
  }

  /** `writeFrame`: header and payload as one message; an empty payload is not written. */
  method WriteFrame(id: StreamId, kind: byte, payload: seq<byte>) returns (message: seq<byte>)
    ensures message == Encode(Frame(id, kind, payload))
  {
    hide BigEndian;
    var header := new byte[5](_ => 0);
    header[0], header[1], header[2], header[3] := id / 0x100_0000, id / 0x1_0000 % 256, id / 0x100 % 256, id % 256;
    header[4] := kind;
    WordBytes(id);
    message := header[..];
    if |payload| > 0 {
      message := message + payload;
    }
  }

  /** `encodeFrame`: the same bytes in one buffer. */
  method EncodeFrame(id: StreamId, kind: byte, payload: seq<byte>) returns (message: seq<byte>)
    ensures message == Encode(Frame(id, kind, payload))
  {
    hide BigEndian;
    var buffer := new byte[5 + |payload|](_ => 0);
    buffer[0], buffer[1], buffer[2], buffer[3] := id / 0x100_0000, id / 0x1_0000 % 256, id / 0x100 % 256, id % 256;
    buffer[4] := kind;
    forall i | 0 <= i < |payload| {
      buffer[5 + i] := payload[i];
    }
    WordBytes(id);
    assert buffer[..5] == BigEndian(id, 4) + [kind];
    assert buffer[5..] == payload;
    assert buffer[..] == buffer[..5] + buffer[5..];
    message := buffer[..];
  }

  // ---------------------------------------------------------------- request bodies

  function Concat(chunks: seq<seq<byte>>): seq<byte> {
    if chunks == [] then [] else Concat(chunks[..|chunks| - 1]) + chunks[|chunks| - 1]
  }

  lemma ConcatAppend(chunks: seq<seq<byte>>, last: seq<byte>)
    ensures Concat(chunks + [last]) == Concat(chunks) + last
  {
    assert (chunks + [last])[..|chunks|] == chunks;
  }

  function DataFrames(id: StreamId, chunks: seq<seq<byte>>): (r: seq<Frame>)
    ensures |r| == |chunks| && forall i | 0 <= i < |r| :: r[i] == Frame(id, DATA, chunks[i])
  {
    seq(|chunks|, i requires 0 <= i < |chunks| => Frame(id, DATA, chunks[i]))
  }

  /** The reads that returned any bytes. */
  function NonEmpty(pieces: seq<seq<byte>>): seq<seq<byte>> {
    if pieces == [] then []
    else
      var last := pieces[|pieces| - 1];
      NonEmpty(pieces[..|pieces| - 1]) + if last == [] then [] else [last]
  }

  /** Leaving out empty reads loses no byte, and the chunks fit the buffer if the reads did. */
  lemma {:induction false} NonEmptyKeepsBytes(pieces: seq<seq<byte>>, bound: nat)
    ensures Concat(NonEmpty(pieces)) == Concat(pieces)
    ensures (forall i | 0 <= i < |pieces| :: |pieces[i]| <= bound) ==>
              forall i | 0 <= i < |NonEmpty(pieces)| :: 0 < |NonEmpty(pieces)[i]| <= bound
  {
    if pieces != [] {
      var before, last := pieces[..|pieces| - 1], pieces[|pieces| - 1];
      NonEmptyKeepsBytes(before, bound);
      ConcatAppend(NonEmpty(before), last);
      assert NonEmpty(before) + [] == NonEmpty(before);
      assert Concat(before) + [] == Concat(before);
    }
  }

  /** The body loop of `proxyHTTPRequest`. `pieces` is what each read of the body returns, the last one
      with an error (the end of the body). */
  method SendBody(id: StreamId, pieces: seq<seq<byte>>) returns (frames: seq<Frame>)
    requires forall i | 0 <= i < |pieces| :: |pieces[i]| <= CHUNK
    ensures frames == DataFrames(id, NonEmpty(pieces)) + [Frame(id, END, [])]
    ensures Concat(NonEmpty(pieces)) == Concat(pieces)
    ensures forall i | 0 <= i < |frames| - 1 :: 0 < |frames[i].payload| <= CHUNK
  {
    frames := [];
    var n := 0;
    while n < |pieces|
      invariant 0 <= n <= |pieces|
      invariant frames == DataFrames(id, NonEmpty(pieces[..n]))
    {
      assert pieces[..n + 1][..n] == pieces[..n];
      if |pieces[n]| > 0 {
        frames := frames + [Frame(id, DATA, pieces[n])];
      }
      n := n + 1;
    }
    assert pieces[..n] == pieces;
    NonEmptyKeepsBytes(pieces, CHUNK);
    frames := frames + [Frame(id, END, [])];
  }
}

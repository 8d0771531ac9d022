/** The canonical path against what reaches opencode's router, and against itself. */
module PathRouting {
  import opened Wrappers
  import opened Words
  import opened Paths
  import opened PathLemmas
  import opened PathTheorems

  /** A session id as the route matches it: one plain segment. */
  predicate PlainId(id: Bytes) {
    id != [] && !Dots(id) && forall b | b in id :: PlainByte(b) && b != SLASH
  }

  /** A path as `proxyRest` leaves it. */
  predicate Forwarded(rest: Bytes) { rest != [] && rest[0] == SLASH && Single(rest) }

  lemma ProxyRestForwarded(after: Bytes)
    ensures Forwarded(ProxyRest(after))
  {
    CollapseSingle(after);
  }

  /** The segments of a forwarded path as written, with escapes and dot segments in place. */
  function Written(rest: Bytes): seq<Bytes>
    requires rest != []
  {
    Split(rest[1..])
  }

  lemma LastDecoded(s: Bytes)
    requires Sound(s) && s != [] && s[|s| - 1] == SPACE
    ensures Decode(s) != [] && Decode(s)[|Decode(s)| - 1] == SPACE
  {
    var n := |s| - 1;
    assert s == s[..n] + [SPACE];
    forall i | 0 <= i < n && s[..n][i] == PCT ensures EscapeAt(s[..n], i) {
      assert EscapeAt(s, i);
    }
    DecodeConcat(s[..n], [SPACE]);
    assert [SPACE][1..] == [];
    assert Decode([SPACE]) == [SPACE] + Decode([]);
  }

  lemma SplittingDecoded(s: Bytes, b: byte)
    requires b in s && Splitting(b)
    ensures b in Decode(s)
  {
  }

  lemma WrittenSteady(rest: Bytes, env: Env)
    requires Forwarded(rest) && Accepts(rest, env)
    ensures Steady(Written(rest)) && AllSound(Written(rest)) && Abs(Written(rest)) == rest
  {
    hide Split, Join, Decode, EscapeAt, HasStructuralEscape, Splitting, PaddedDots;
    var segs := Written(rest);
    JoinSplit(rest[1..]);
    assert Abs(segs) == rest;
    TidySingle(segs);
    SoundTail(rest, 1);
    SoundSegments(segs);
    forall i, b | 0 <= i < |segs| && b in segs[i] ensures !Splitting(b) {
      SegmentBytes(rest[1..], i, b);
      assert b in rest;
      if Splitting(b) {
        SplittingDecoded(rest, b);
      }
    }
    JoinLast(segs);
    if rest[|rest| - 1] == SPACE {
      LastDecoded(rest);
    }
    var last := segs[|segs| - 1];
    if last != [] {
      assert last[|last| - 1] in last;
      Unsplit(last[|last| - 1]);
    }
  }

  /** Decoding keeps segments apart and keeps their dots. */
  lemma DecodedSegment(seg: Bytes)
    requires Sound(seg) && SlashFree(seg)
    ensures SlashFree(Decode(seg)) && (Decode(seg) == [] <==> seg == [])
    ensures SingleDot(Decode(seg)) == SingleDot(seg) && DoubleDot(Decode(seg)) == DoubleDot(seg)
    ensures PCT !in Decode(seg)
  {
    hide EscapeAt, HasStructuralEscape;
    if SLASH in Decode(seg) {
      DecodedByte(seg, SLASH);
    }
    if PCT in Decode(seg) {
      DecodedByte(seg, PCT);
    }
    DecodePlain(Decode(seg));
    SoundDots(seg);
    SoundDots(Decode(seg));
    if Decode(seg) == [DOT] || Decode(seg) == [DOT, DOT] {
      DecodeDots(seg);
    }
    if seg == [DOT] || seg == [DOT, DOT] {
      DecodePlain(seg);
    }
  }

  lemma DecodedSegments(segs: seq<Bytes>)
    requires AllSound(segs) && AllSlashFree(segs)
    ensures AllSlashFree(Each(Decode, segs)) && KeepsDots(Decode, segs)
    ensures Tidy(segs) ==> Tidy(Each(Decode, segs))
    ensures NoDots(segs) ==> NoDots(Each(Decode, segs))
  {
    hide Decode, Sound, SingleDot, DoubleDot;
    forall i | 0 <= i < |segs|
      ensures SlashFree(Decode(segs[i])) && (Decode(segs[i]) == [] <==> segs[i] == [])
      ensures SingleDot(Decode(segs[i])) == SingleDot(segs[i]) && DoubleDot(Decode(segs[i])) == DoubleDot(segs[i])
    {
      DecodedSegment(segs[i]);
    }
    DecodeEmpty();
  }

  lemma DecodeEmpty()
    ensures Decode([]) == []
  {}

  lemma SegmentsAre(path: Bytes, segs: seq<Bytes>)
    requires segs != [] && AllSlashFree(segs) && Tidy(segs) && Decode(path) == Abs(segs)
    ensures Segments(path) == segs
  {
    hide Split, Join, Decode;
    TidySingle(segs);
    CollapseSingle(Abs(segs));
    assert ([SLASH] + Abs(segs))[1..] == Abs(segs);
    assert Collapse([SLASH] + Decode(path)) == Abs(segs);
    assert Abs(segs)[1..] == Join(segs);
    SplitJoin(segs);
  }

  /** Decoding the forwarded path decodes its segments: no escape makes or breaks one. */
  lemma SegmentsDecoded(rest: Bytes, env: Env)
    requires Forwarded(rest) && Accepts(rest, env)
    ensures Segments(rest) == Each(Decode, Written(rest))
  {
    hide Split, Join, Decode, Sound, Accepts, SingleDot, DoubleDot;
    WrittenSteady(rest, env);
    var segs := Written(rest);
    DecodeAbs(segs);
    DecodedSegments(segs);
    SegmentsAre(rest, Each(Decode, segs));
  }

  // ---------------------------------------------------------------- the hops

  /** What the gateway makes of a path whose segments have these decodings. */
  lemma DownstreamOf(segs: seq<Bytes>)
    requires segs != [] && AllSlashFree(segs)
    ensures Downstream(Abs(segs)) ==
            if |segs| >= 3 && segs[0] == PROXY then Some((segs[1], Abs(segs[2..]))) else None
  {
    hide Split, Join;
    assert Abs(segs) == [] + [SLASH] + Join(segs);
    SplitCons([], Join(segs));
    SplitJoin(segs);
    var s := Split(Abs(segs));
    assert s == [[]] + segs;
    if |segs| >= 3 {
      assert s[3..] == segs[2..];
    }
  }

  lemma PlainDecodes(seg: Bytes)
    requires forall b | b in seg :: PlainByte(b)
    ensures Sound(seg) && Decode(seg) == seg && forall b | b in seg :: !Splitting(b)
  {
    DecodePlain(seg);
  }

  lemma ProxyIsPlain()
    ensures PROXY != [] && !Dots(PROXY) && forall b | b in PROXY :: PlainByte(b) && b != SLASH
  {
    PlainDecodes(PROXY);
    SoundDots(PROXY);
  }

  /** The segments the API sends to the gateway, dot segments resolved. */
  function Sent(id: Bytes, rest: Bytes): seq<Bytes>
    requires rest != []
  {
    Resolve([PROXY, id], Written(rest))
  }

  lemma AddressResolves(id: Bytes, segs: seq<Bytes>)
    requires PlainId(id) && segs != []
    ensures Resolve([], [PROXY, id] + segs) == Resolve([PROXY, id], segs) && NoDots([PROXY, id])
    ensures Abs([PROXY, id]) + Abs(segs) == Abs([PROXY, id] + segs)
  {
    hide SingleDot, DoubleDot, PlainByte, Resolve, Join;
    ProxyIsPlain();
    assert [PROXY, id] + segs == [PROXY] + ([id] + segs);
    ResolveStep([], PROXY, [id] + segs);
    ResolveStep([] + [PROXY], id, segs);
    assert [] + [PROXY] + [id] == [PROXY, id];
    JoinAddress(PROXY, id, segs);
  }

  lemma JoinAddress(a: Bytes, b: Bytes, segs: seq<Bytes>)
    requires segs != []
    ensures Abs([a, b]) + Abs(segs) == Abs([a, b] + segs)
  {
    var s := [a, b] + segs;
    assert s[1..] == [b] + segs && ([b] + segs)[1..] == segs && [a, b][1..] == [b];
    assert Join(s) == a + [SLASH] + (b + [SLASH] + Join(segs));
    assert Join([a, b]) == a + [SLASH] + b;
  }

  lemma AddressSteady(id: Bytes, segs: seq<Bytes>)
    requires PlainId(id) && Steady(segs) && AllSound(segs)
    ensures Steady([PROXY, id] + segs) && AllSound([PROXY, id] + segs)
    ensures Steady([PROXY, id] + [[]]) && AllSound([PROXY, id])
    ensures Decode(PROXY) == PROXY && Decode(id) == id
  {
    hide Sound, Decode, Splitting, SingleDot, DoubleDot, PlainByte;
    ProxyIsPlain();
    PlainDecodes(PROXY);
    PlainDecodes(id);
    var a := [PROXY, id] + segs;
    assert a[|a| - 1] == segs[|segs| - 1];
    assert forall i | 2 <= i < |a| :: a[i] == segs[i - 2];
  }

  lemma SentDecoded(id: Bytes, rest: Bytes, env: Env)
    requires Standard(env) && PlainId(id) && Forwarded(rest) && Accepts(rest, env)
    ensures Pathname(Abs([PROXY, id]) + rest, env).Some?
    ensures Decode(Pathname(Abs([PROXY, id]) + rest, env).value) == Abs(Each(Decode, Sent(id, rest)))
    ensures Steady(Sent(id, rest)) && AllSound(Sent(id, rest)) && NoDots(Sent(id, rest))
  {
    hide Split, Join, Decode, Sound, Accepts, SingleDot, DoubleDot, Splitting, PlainByte, Pathname, Resolve;
    WrittenSteady(rest, env);
    var segs := Written(rest);
    AddressSteady(id, segs);
    AddressResolves(id, segs);
    ParseSteady([PROXY, id] + segs, env);
    ResolveSteady([PROXY, id], segs);
    EncodedSegments(Sent(id, rest), env.special);
    DecodeAbs(Each(Encoder(env.special), Sent(id, rest)));
  }

  lemma DecodedSteady(segs: seq<Bytes>)
    requires Steady(segs) && AllSound(segs) && NoDots(segs)
    requires forall i | 0 <= i < |segs| :: forall b | b in Decode(segs[i]) :: !Splitting(b)
    requires var last := Decode(segs[|segs| - 1]); last == [] || last[|last| - 1] > SPACE
    ensures Steady(Each(Decode, segs)) && NoDots(Each(Decode, segs)) && AllRaw(Each(Decode, segs))
  {
    hide Decode, Sound, SingleDot, DoubleDot, Splitting;
    DecodedSegments(segs);
    forall i | 0 <= i < |segs| ensures PCT !in Decode(segs[i]) {
      DecodedSegment(segs[i]);
    }
  }

  /** A path already decoded and resolved passes the CLI's parse and the router's decode unchanged. */
  lemma LastHops(segs: seq<Bytes>, env: Env)
    requires Standard(env) && Steady(segs) && NoDots(segs) && AllRaw(segs)
    ensures Pathname(Abs(segs), env).Some? && Decode(Pathname(Abs(segs), env).value) == Abs(segs)
  {
    hide Split, Join, Decode, EscapeAt, HasStructuralEscape, SingleDot, DoubleDot, Splitting, PlainByte, Pathname;
    ParseSteady(segs, env);
    ResolveNoDots([], segs);
    assert [] + segs == segs;
    forall i | 0 <= i < |segs| ensures Sound(segs[i]) && Decode(segs[i]) == segs[i] {
      DecodePlain(segs[i]);
    }
    EncodedSegments(segs, env.special);
    DecodeAbs(Each(Encoder(env.special), segs));
    assert Each(Decode, segs) == segs;
  }

  /** The decoded segments that were sent come from the accepted path, or are the address. */
  lemma SentReadable(id: Bytes, rest: Bytes, env: Env)
    requires Standard(env) && PlainId(id) && Forwarded(rest) && Accepts(rest, env)
    ensures Steady(Each(Decode, Sent(id, rest))) && NoDots(Each(Decode, Sent(id, rest)))
    ensures AllRaw(Each(Decode, Sent(id, rest)))
  {
    hide Split, Join, Decode, Sound, Accepts, SingleDot, DoubleDot, Splitting, PlainByte, Resolve;
    var segs := Written(rest);
    var sent := Sent(id, rest);
    SentDecoded(id, rest, env);
    WrittenSteady(rest, env);
    SegmentsDecoded(rest, env);
    AcceptedSegments(rest, env);
    AddressSteady(id, segs);
    AddressResolves(id, segs);
    ResolveLeaves([PROXY, id], segs);
    DecodeEmpty();
    forall i | 0 <= i < |sent| ensures forall b | b in Decode(sent[i]) :: !Splitting(b) {
      assert sent[i] in sent;
      if sent[i] in segs {
        var k :| 0 <= k < |segs| && segs[k] == sent[i];
        assert Each(Decode, segs)[k] == Decode(segs[k]);
        assert Raw(Segments(rest)[k]);
      } else if sent[i] in [PROXY, id] {
        ProxyIsPlain();
        PlainDecodes(sent[i]);
      }
    }
    assert Each(Decode, segs)[|segs| - 1] == Decode(segs[|segs| - 1]);
    DecodedSteady(sent);
  }

  /** Session and path at the router, in terms of the segments the API sent. */
  lemma RoutedForm(id: Bytes, rest: Bytes, env: Env)
    requires Standard(env) && PlainId(id) && Forwarded(rest) && Accepts(rest, env)
    ensures var g := Each(Decode, Sent(id, rest));
            Routed(id, rest, env) == if |g| >= 3 && g[0] == PROXY then Some((g[1], Abs(g[2..]))) else None
  {
    hide Split, Join, Decode, Sound, Accepts, SingleDot, DoubleDot, Splitting, PlainByte, Pathname, Resolve, Downstream;
    var g := Each(Decode, Sent(id, rest));
    SentDecoded(id, rest, env);
    SentReadable(id, rest, env);
    DownstreamOf(g);
    if |g| >= 3 && g[0] == PROXY {
      LastHops(g[2..], env);
    }
  }

  /** A path that never climbs above the session reaches that session's router as the resolved
      segments. */
  lemma InsideArrives(id: Bytes, rest: Bytes, env: Env)
    requires Standard(env) && PlainId(id) && Forwarded(rest) && Accepts(rest, env)
    requires Inside(0, Written(rest))
    ensures Routed(id, rest, env) == Some((id, Abs(Resolve([], Segments(rest)))))
  {
    hide Split, Join, Decode, Sound, Accepts, SingleDot, DoubleDot, Splitting, PlainByte, Routed, Resolve, Inside;
    var segs := Written(rest);
    WrittenSteady(rest, env);
    RoutedForm(id, rest, env);
    ResolveInside([PROXY, id], [], segs);
    assert [PROXY, id] + [] == [PROXY, id];
    var tail := Resolve([], segs);
    ResolveLeaves([], segs);
    DecodedSegments(segs);
    ResolveEach(Decode, [], segs);
    assert Each(Decode, []) == [];
    SegmentsDecoded(rest, env);
    AddressSteady(id, segs);
    var g := Each(Decode, [PROXY, id] + tail);
    assert g[2..] == Each(Decode, tail);
    assert g[0] == Decode(PROXY) && g[1] == Decode(id);
  }

  lemma LowerSlashFree(s: Bytes)
    requires SlashFree(s)
    ensures SlashFree(Lower(s))
  {
    forall i | 0 <= i < |s| ensures Lower(s)[i] != SLASH {
      assert s[i] in s;
    }
  }

  lemma LowerSegments(a: seq<Bytes>, b: seq<Bytes>)
    requires a != [] && b != [] && AllSlashFree(a) && AllSlashFree(b)
    requires Lower(Abs(a)) == Lower(Abs(b))
    ensures |a| == |b|
  {
    hide Split, Join;
    LowerAbs(a);
    LowerAbs(b);
    var la, lb := Each(Lower, a), Each(Lower, b);
    forall i | 0 <= i < |a| ensures SlashFree(la[i]) { LowerSlashFree(a[i]); }
    forall i | 0 <= i < |b| ensures SlashFree(lb[i]) { LowerSlashFree(b[i]); }
    assert Abs(la)[1..] == Join(la) && Abs(lb)[1..] == Join(lb);
    SplitJoin(la);
    SplitJoin(lb);
  }

  /** A path that climbs above its root never arrives as the canonical path says. */
  lemma ClimbingDiffers(id: Bytes, rest: Bytes, env: Env)
    requires Standard(env) && PlainId(id) && Forwarded(rest) && Accepts(rest, env)
    requires !Inside(0, Written(rest))
    ensures var r := Routed(id, rest, env);
            r.Some? ==> Lower(r.value.1) != Lower(Abs(Resolve([], Segments(rest))))
  {
    hide Split, Join, Decode, Sound, Accepts, SingleDot, DoubleDot, Splitting, PlainByte, Routed, Resolve, Inside;
    var segs := Written(rest);
    WrittenSteady(rest, env);
    RoutedForm(id, rest, env);
    SentReadable(id, rest, env);
    ResolveClimbs([PROXY, id], [], segs);
    var g := Each(Decode, Sent(id, rest));
    DecodedSegments(segs);
    ResolveEach(Decode, [], segs);
    assert Each(Decode, []) == [];
    SegmentsDecoded(rest, env);
    AcceptedSegments(rest, env);
    ResolveSteady([], Segments(rest));
    var x := Resolve([], Segments(rest));
    if |g| >= 3 && g[0] == PROXY {
      if Lower(Abs(g[2..])) == Lower(Abs(x)) {
        LowerSegments(g[2..], x);
      }
    }
  }

  /** The guards' one-shot reading is what the router gets, up to ASCII case, exactly when the dot
      segments never climb above the session's root. */
  lemma OneReading(id: Bytes, after: Bytes, env: Env)
    requires Standard(env) && PlainId(id) && CanonicalPath(ProxyRest(after), env).Some?
    ensures var rest := ProxyRest(after);
            var c := CanonicalPath(rest, env).value;
            Inside(0, Written(rest))
            <==> exists path :: Routed(id, rest, env) == Some((id, path)) && Lower(path) == Decode(c)
  {
    hide Split, Join, Decode, SingleDot, DoubleDot, Routed, Resolve, Inside, Pathname, Lower;
    var rest := ProxyRest(after);
    ProxyRestForwarded(after);
    CanonicalDecoded(rest, env);
    if Inside(0, Written(rest)) {
      InsideArrives(id, rest, env);
    } else {
      ClimbingDiffers(id, rest, env);
    }
  }

  /** Why the condition is there: "/../b/x", forwarded for session a, would reach session b. */
  lemma AnotherSession(a: Bytes, b: Bytes, x: Bytes, env: Env)
    requires Standard(env) && PlainId(a) && PlainId(b) && PlainId(x)
    ensures var rest := Abs([[DOT, DOT], b, x]);
            Forwarded(rest) && CanonicalPath(rest, env).Some?
            && Routed(a, rest, env) == Some((b, Abs([x])))
            && Decode(CanonicalPath(rest, env).value) == Lower(Abs([b, x]))
  {
    hide Split, Join, Decode, Sound, Accepts, SingleDot, DoubleDot, Splitting, Routed, Resolve, Pathname;
    var segs := [[DOT, DOT], b, x];
    var rest := Abs(segs);
    PlainDecodes(b);
    PlainDecodes(x);
    PlainDecodes([DOT, DOT]);
    SoundDots([DOT, DOT]);
    ProxyIsPlain();
    TidySingle(segs);
    forall c | c in rest ensures PlainByte(c) {
      JoinBytes(segs, c);
    }
    PlainAccepted(rest, env);
    assert rest[1..] == Join(segs);
    SplitJoin(segs);
    SegmentsAre(rest, segs);
    CanonicalDecoded(rest, env);
    RoutedForm(a, rest, env);
    assert segs == [[DOT, DOT]] + [b, x];
    ClimbOne([PROXY, a], [DOT, DOT], [b, x]);
    ClimbOne([], [DOT, DOT], [b, x]);
    assert [PROXY, a][..1] + [b, x] == [PROXY, b, x];
    assert [] + [b, x] == [b, x];
    var g := Each(Decode, [PROXY, b, x]);
    PlainDecodes(PROXY);
    assert g == [PROXY, b, x];
    assert g[2..] == [x];
  }

  lemma ClimbOne(done: seq<Bytes>, dots: Bytes, rest: seq<Bytes>)
    requires DoubleDot(dots) && rest != [] && NoDots(rest)
    ensures Resolve(done, [dots] + rest) == (if done == [] then [] else done[..|done| - 1]) + rest
  {
    hide Resolve, SingleDot, DoubleDot, NoDots;
    ResolveStep(done, dots, rest);
    ResolveNoDots(if done == [] then [] else done[..|done| - 1], rest);
  }

  // ---------------------------------------------------------------- idempotence

  lemma LowerDots(s: Bytes)
    ensures (Lower(s) == [DOT] <==> s == [DOT]) && (Lower(s) == [DOT, DOT] <==> s == [DOT, DOT])
  {
    assert forall i | 0 <= i < |s| :: Lower(s)[i] == DOT <==> s[i] == DOT;
  }

  lemma LowerSegment(s: Bytes)
    requires SlashFree(s) && Raw(s) && !Dots(s)
    ensures SlashFree(Lower(s)) && Raw(Lower(s)) && !Dots(Lower(s))
  {
    hide SingleDot, DoubleDot, EscapeAt, HasStructuralEscape;
    var l := Lower(s);
    forall b | b in l ensures b != PCT && !Splitting(b) && b != SLASH {
      var k :| 0 <= k < |l| && l[k] == b;
      assert l[k] == LowerByte(s[k]) && s[k] in s;
    }
    DecodePlain(s);
    DecodePlain(l);
    SoundDots(s);
    SoundDots(l);
    assert s == [DOT] || s == [DOT, DOT] <==> l == [DOT] || l == [DOT, DOT] by { LowerDots(s); }
  }

  lemma LowerSteady(segs: seq<Bytes>)
    requires Steady(segs) && NoDots(segs) && AllRaw(segs)
    ensures var l := Each(Lower, segs); Steady(l) && NoDots(l) && AllRaw(l)
  {
    hide SingleDot, DoubleDot;
    var l := Each(Lower, segs);
    forall i | 0 <= i < |segs| ensures SlashFree(l[i]) && Raw(l[i]) && !Dots(l[i]) && |l[i]| == |segs[i]| {
      assert l[i] == Lower(segs[i]);
      LowerSegment(segs[i]);
    }
    var last := segs[|segs| - 1];
    assert l[|l| - 1] == Lower(last);
    assert last != [] ==> Lower(last)[|last| - 1] == LowerByte(last[|last| - 1]);
  }

  lemma {:induction false} TrimStartLower(s: Bytes)
    ensures TrimStart(Lower(s)) == Lower(TrimStart(s))
  {
    if s != [] {
      TrimStartLower(s[1..]);
      assert Lower(s)[1..] == Lower(s[1..]);
      assert LowerByte(s[0]) == SPACE <==> s[0] == SPACE;
    }
  }

  lemma {:induction false} TrimEndLower(s: Bytes)
    ensures TrimEnd(Lower(s)) == Lower(TrimEnd(s))
  {
    if s != [] {
      TrimEndLower(s[..|s| - 1]);
      assert Lower(s)[..|s| - 1] == Lower(s[..|s| - 1]);
      assert LowerByte(s[|s| - 1]) == SPACE <==> s[|s| - 1] == SPACE;
    }
  }

  lemma PaddedLower(seg: Bytes)
    requires PaddedDots(Lower(seg))
    ensures PaddedDots(seg)
  {
    hide TrimStart, TrimEnd;
    TrimStartLower(seg);
    TrimEndLower(TrimStart(seg));
    var t := Trim(seg);
    assert Trim(Lower(seg)) == Lower(t);
    forall i | 0 <= i < |t| ensures t[i] == DOT {
      assert Lower(t)[i] == DOT;
    }
  }

  lemma {:induction false} Utf8Segments(segs: seq<Bytes>, env: Env)
    requires Standard(env) && segs != []
    ensures env.utf8(Join(segs)) <==> forall i | 0 <= i < |segs| :: env.utf8(segs[i])
  {
    if |segs| > 1 {
      Utf8Segments(segs[1..], env);
      assert env.utf8(segs[0] + [SLASH] + Join(segs[1..])) <==> env.utf8(segs[0]) && env.utf8(Join(segs[1..]));
      assert forall i | 0 < i < |segs| :: segs[i] == segs[1..][i - 1];
      if forall i | 0 <= i < |segs| :: env.utf8(segs[i]) {
        forall i | 0 <= i < |segs[1..]| ensures env.utf8(segs[1..][i]) {
          assert segs[1..][i] == segs[i + 1];
        }
      }
    }
  }

  /** What is left of an accepted path is made of its own segments. */
  lemma OwnSegments(path: Bytes, env: Env, x: Bytes)
    requires Standard(env) && Accepts(path, env) && x in Resolve([], Segments(path))
    ensures env.utf8(x) && !PaddedDots(x)
  {
    hide Split, Join, Decode, Sound, SingleDot, DoubleDot, Splitting, Resolve, Collapse;
    var d := Decode(path);
    ResolveLeaves([], Segments(path));
    if x != [] {
      CollapseSegments([SLASH] + d);
      CollapseSingle([SLASH] + d);
      var p := Collapse([SLASH] + d);
      SplitSlash(p[1..]);
      SplitSlash(d);
      assert p == [SLASH] + p[1..];
      assert x in Split(p);
      assert x in Split(d);
      JoinSplit(d);
      Utf8Segments(Split(d), env);
    }
  }

  lemma CanonicalAccepted(path: Bytes, env: Env)
    requires Standard(env) && Accepts(path, env)
    ensures CanonicalPath(path, env).Some? && Accepts(CanonicalPath(path, env).value, env)
  {
    hide Split, Join, Decode, SingleDot, DoubleDot, Splitting, Resolve, Collapse, EscapeAt, PaddedDots,
         CanonicalPath, Lower;
    CanonicalDecoded(path, env);
    AcceptedSegments(path, env);
    ResolveSteady([], Segments(path));
    var r := Resolve([], Segments(path));
    var l := Each(Lower, r);
    LowerSteady(r);
    LowerAbs(r);
    var d := Abs(l);
    forall i | 0 <= i < |r| ensures env.utf8(r[i]) && !PaddedDots(l[i]) {
      OwnSegments(path, env, r[i]);
      if PaddedDots(l[i]) {
        PaddedLower(r[i]);
      }
    }
    Utf8Segments(r, env);
    assert Abs(r) == [] + [SLASH] + Join(r);
    assert env.utf8([]);
    assert env.utf8([] + [SLASH] + Join(r));
    assert env.utf8(Lower(Abs(r)));
    forall i | 0 <= i < |d| ensures !Splitting(d[i]) {
      assert d[i] in d;
      JoinBytes(l, d[i]);
      SlashKept();
    }
    JoinLast(l);
    SplitSlash(Join(l));
    SplitJoin(l);
    forall i | 0 <= i < |Split(d)| ensures !PaddedDots(Split(d)[i]) {
      if i == 0 {
        NoPaddedEmpty();
      } else {
        assert Split(d)[i] == l[i - 1];
      }
    }
  }

  lemma NoPaddedEmpty()
    ensures !PaddedDots([])
  {}

  lemma SlashKept()
    ensures !Splitting(SLASH)
  {}

  lemma AcceptedOnly(path: Bytes, env: Env)
    ensures CanonicalPath(path, env).Some? ==> Accepts(path, env)
  {}

  lemma AlreadyCanonical(c: Bytes, segs: seq<Bytes>, env: Env)
    requires Standard(env) && Accepts(c, env) && Decode(c) == Abs(segs)
    requires Steady(segs) && NoDots(segs)
    ensures CanonicalPath(c, env) == Some(Lower(Abs(Each(Encoder(env.special), segs))))
  {
    hide Join, Decode, SingleDot, DoubleDot, Resolve, Accepts, CanonicalPath, Lower;
    CanonicalForm(c, env);
    SegmentsAre(c, segs);
    ResolveNoDots([], segs);
    assert [] + segs == segs;
  }

  lemma EncodedLower(segs: seq<Bytes>, special: byte -> bool)
    requires Keeps(special) && AllRaw(segs)
    ensures Lower(Abs(Each(Encoder(special), Each(Lower, segs)))) == Lower(Abs(Each(Encoder(special), segs)))
  {
    hide Join, Raw, Encode, Lower;
    var e, l := Encoder(special), Each(Lower, segs);
    LowerAbs(Each(e, l));
    LowerAbs(Each(e, segs));
    forall i | 0 <= i < |segs| ensures Lower(Encode(Lower(segs[i]), special)) == Lower(Encode(segs[i], special)) {
      EncodeRawLower(segs[i], special);
    }
    assert Each(Lower, Each(e, l)) == Each(Lower, Each(e, segs));
  }

  /** The canonical path is its own canonical path. */
  lemma CanonicalTwice(path: Bytes, env: Env)
    requires Standard(env) && CanonicalPath(path, env).Some?
    ensures var c := CanonicalPath(path, env).value; CanonicalPath(c, env) == Some(c)
  {
    hide Split, Join, Decode, Steady, NoDots, AllRaw, Resolve, Collapse, Sound, Lower, Accepts, CanonicalPath, Encoder;
    AcceptedOnly(path, env);
    CanonicalAccepted(path, env);
    CanonicalDecoded(path, env);
    CanonicalForm(path, env);
    AcceptedSegments(path, env);
    SteadyStart(Segments(path));
    var r := Resolve([], Segments(path));
    LowerSteady(r);
    LowerAbs(r);
    AlreadyCanonical(CanonicalPath(path, env).value, Each(Lower, r), env);
    EncodedLower(r, env.special);
  }

  lemma SteadyStart(segs: seq<Bytes>)
    requires Steady(segs) && AllRaw(segs)
    ensures var r := Resolve([], segs); Steady(r) && NoDots(r) && AllRaw(r)
  {
    hide Resolve, SingleDot, DoubleDot;
    ResolveSteady([], segs);
  }
}

/** The guards read a request path once; the hops after them read it four more times. These are the
    conditions under which both readings agree. */
module PathTheorems {
  import opened Wrappers
  import opened Words
  import opened Paths
  import opened PathLemmas

  predicate AllSound(segs: seq<Bytes>) { forall i | 0 <= i < |segs| :: Sound(segs[i]) }

  predicate AllRaw(segs: seq<Bytes>) { forall i | 0 <= i < |segs| :: Raw(segs[i]) }

  /** The segments of a path that no URL parser cuts, trims or takes for a host. */
  predicate Steady(segs: seq<Bytes>) {
    && segs != [] && AllSlashFree(segs) && Tidy(segs)
    && (forall i | 0 <= i < |segs| :: forall b | b in segs[i] :: !Splitting(b))
    && var last := segs[|segs| - 1]; last == [] || last[|last| - 1] > SPACE
  }

  // ---------------------------------------------------------------- one parse

  lemma {:induction false} JoinLast(segs: seq<Bytes>)
    requires segs != []
    ensures var last := segs[|segs| - 1]; var s := Abs(segs);
            s[|s| - 1] == if last == [] then SLASH else last[|last| - 1]
  {
    if |segs| > 1 {
      JoinLast(segs[1..]);
      assert Abs(segs) == [SLASH] + segs[0] + Abs(segs[1..]);
    }
  }

  lemma ParseSteady(segs: seq<Bytes>, env: Env)
    requires Steady(segs)
    ensures Pathname(Abs(segs), env) == Some(Abs(Each(Encoder(env.special), Resolve([], segs))))
    ensures Single(Abs(segs))
  {
    var s := Abs(segs);
    forall b | b in s ensures !Splitting(b) {
      JoinBytes(segs, b);
    }
    JoinLast(segs);
    UprightKept(s);
    TidySingle(segs);
    assert |s| >= 2 ==> !(s[0] == SLASH && s[1] == SLASH);
    SplitJoin(segs);
    assert s[1..] == Join(segs);
  }

  lemma ResolveSteady(done: seq<Bytes>, segs: seq<Bytes>)
    requires Steady(segs) && NoDots(done) && (done == [] || Steady(done + [[]]))
    ensures Steady(Resolve(done, segs)) && NoDots(Resolve(done, segs))
    ensures AllRaw(done) && AllRaw(segs) ==> AllRaw(Resolve(done, segs))
    ensures AllSound(done) && AllSound(segs) ==> AllSound(Resolve(done, segs))
  {
    hide SingleDot, DoubleDot, EscapeAt;
    var r := Resolve(done, segs);
    ResolveLeaves(done, segs);
    DecodePlain([]);
    forall i | 0 <= i < |done|
      ensures done[i] != [] && SlashFree(done[i]) && forall b | b in done[i] :: !Splitting(b)
    {
      assert done[i] == (done + [[]])[i];
    }
    forall i | 0 <= i < |r| ensures SlashFree(r[i]) && forall b | b in r[i] :: !Splitting(b) {
      assert r[i] in r;
    }
    forall i | 0 <= i < |r|
      ensures AllRaw(done) && AllRaw(segs) ==> Raw(r[i])
      ensures AllSound(done) && AllSound(segs) ==> Sound(r[i])
    {
      assert r[i] in r;
    }
  }

  lemma EncodedSegments(segs: seq<Bytes>, special: byte -> bool)
    requires Keeps(special) && AllSound(segs) && AllSlashFree(segs)
    requires forall i | 0 <= i < |segs| :: forall b | b in segs[i] :: !Splitting(b)
    ensures AllSound(Each(Encoder(special), segs)) && AllSlashFree(Each(Encoder(special), segs))
    ensures Each(Decode, Each(Encoder(special), segs)) == Each(Decode, segs)
  {
    forall i | 0 <= i < |segs|
      ensures Sound(Encode(segs[i], special)) && SlashFree(Encode(segs[i], special))
      ensures Decode(Encode(segs[i], special)) == Decode(segs[i])
    {
      EncodeSound(segs[i], special);
    }
    assert Each(Decode, Each(Encoder(special), segs)) == Each(Decode, segs);
  }

  // ---------------------------------------------------------------- the canonical path

  /** The path with its escapes decoded and its slashes collapsed, by segments. */
  function Segments(path: Bytes): seq<Bytes> { Split(Collapse([SLASH] + Decode(path))[1..]) }

  lemma SegmentByte(path: Bytes, env: Env, i: nat, b: byte)
    requires Accepts(path, env) && i < |Segments(path)| && b in Segments(path)[i]
    ensures b != PCT && !Splitting(b)
  {
    hide Split, Collapse, Decode, EscapeAt, HasStructuralEscape;
    var d := Decode(path);
    var p := Collapse([SLASH] + d);
    SegmentBytes(p[1..], i, b);
    assert b in p;
    CollapseBytes([SLASH] + d, b);
    if b != SLASH {
      assert b in d;
      DecodedByte(path, b);
    }
  }

  lemma AcceptedSegments(path: Bytes, env: Env)
    requires Accepts(path, env)
    ensures Steady(Segments(path)) && AllRaw(Segments(path))
    ensures Collapse([SLASH] + Decode(path)) == Abs(Segments(path))
  {
    hide Split, Join, Collapse, Decode, EscapeAt, HasStructuralEscape, Splitting, PaddedDots;
    var d := Decode(path);
    var p := Collapse([SLASH] + d);
    CollapseSingle([SLASH] + d);
    JoinSplit(p[1..]);
    var segs := Split(p[1..]);
    assert Abs(segs) == p;
    TidySingle(segs);
    forall i, b | 0 <= i < |segs| && b in segs[i] ensures b != PCT && !Splitting(b) {
      SegmentByte(path, env, i, b);
    }
    JoinLast(segs);
    assert p[|p| - 1] == if d == [] then SLASH else d[|d| - 1];
    if d != [] {
      Unsplit(d[|d| - 1]);
    }
  }

  lemma Unsplit(b: byte)
    ensures !Splitting(b) ==> b >= SPACE
  {}

  lemma EncodedTidy(segs: seq<Bytes>, special: byte -> bool)
    requires Keeps(special) && Steady(segs) && AllRaw(segs)
    ensures Tidy(Each(Encoder(special), segs)) && AllSlashFree(Each(Encoder(special), segs))
  {
    forall i | 0 <= i < |segs|
      ensures SlashFree(Encode(segs[i], special)) && (segs[i] != [] ==> Encode(segs[i], special) != [])
    {
      EncodeRaw(segs[i], special);
    }
  }

  /** The second collapse of slashes never finds two in a row. */
  lemma CanonicalForm(path: Bytes, env: Env)
    requires Standard(env) && Accepts(path, env)
    ensures CanonicalPath(path, env) == Some(Lower(Abs(Each(Encoder(env.special), Resolve([], Segments(path))))))
  {
    hide EscapeAt, HasStructuralEscape, Splitting;
    var segs := Segments(path);
    var special := env.special;
    AcceptedSegments(path, env);
    ParseSteady(segs, env);
    ResolveSteady([], segs);
    var out := Each(Encoder(special), Resolve([], segs));
    EncodedTidy(Resolve([], segs), special);
    TidySingle(out);
    CollapseSingle(Abs(out));
  }

  /** Decoding the canonical path gives the resolved segments in lower case. */
  lemma CanonicalDecoded(path: Bytes, env: Env)
    requires Standard(env) && Accepts(path, env)
    ensures CanonicalPath(path, env).Some?
    ensures Decode(CanonicalPath(path, env).value) == Lower(Abs(Resolve([], Segments(path))))
    ensures Sound(CanonicalPath(path, env).value)
  {
    hide Split, Join, Decode, Sound, Raw, Resolve, Steady, Encode;
    CanonicalForm(path, env);
    AcceptedSegments(path, env);
    ResolveSteady([], Segments(path));
    var r := Resolve([], Segments(path));
    var e := Each(Encoder(env.special), r);
    var l := Each(Lower, e);
    LowerAbs(e);
    LowerAbs(r);
    LoweredSegments(r, env.special);
    DecodeAbs(l);
    SoundJoin(l);
    DecodeSlash([]);
    SoundConcat([SLASH], Join(l));
  }

  lemma LoweredSegments(segs: seq<Bytes>, special: byte -> bool)
    requires Keeps(special) && AllRaw(segs)
    ensures var l := Each(Lower, Each(Encoder(special), segs));
            AllSound(l) && Each(Decode, l) == Each(Lower, segs)
  {
    hide Decode, Sound, Raw, Encode;
    var e := Each(Encoder(special), segs);
    var l := Each(Lower, e);
    forall i | 0 <= i < |segs| ensures Sound(l[i]) && Decode(l[i]) == Lower(segs[i]) {
      assert e[i] == Encode(segs[i], special);
      EncodeRawLower(segs[i], special);
    }
    assert Each(Decode, l) == Each(Lower, segs);
  }

  // ---------------------------------------------------------------- plain paths

  lemma {:induction false} TrimKept(s: Bytes)
    requires SPACE !in s
    ensures Trim(s) == s
  {}

  lemma PlainAccepted(path: Bytes, env: Env)
    requires Standard(env) && forall b | b in path :: PlainByte(b)
    ensures Accepts(path, env) && Decode(path) == path
  {
    hide Split, Join, Decode, EscapeAt, TrimStart, TrimEnd;
    DecodePlain(path);
    forall i | 0 <= i < |path| ensures !Splitting(path[i]) && path[i] != SPACE { assert path[i] in path; }
    forall i | 0 <= i < |Split(path)| ensures !PaddedDots(Split(path)[i]) {
      var seg := Split(path)[i];
      if SPACE in seg {
        SegmentBytes(path, i, SPACE);
      }
      TrimKept(seg);
    }
  }

  lemma PlainSegments(path: Bytes, i: nat)
    requires IsPlainPath(path) && i < |Segments(path)| && Decode(path) == path
    ensures Segments(path)[i] !in {[DOT], [DOT, DOT]}
  {
    hide Split, Collapse, Decode;
    var s := [SLASH] + path;
    var p, x := Collapse(s), Segments(path)[i];
    CollapseSingle(s);
    assert p == [SLASH] + p[1..];
    SplitSlash(p[1..]);
    SplitSlash(path);
    CollapseSegments(s);
    assert Split(p)[i + 1] == x;
    assert x in Split(p) && x in Split(s);
    if x in Split(path) {
      var k :| 0 <= k < |Split(path)| && Split(path)[k] == x;
    }
  }

  lemma PlainBytes(path: Bytes)
    requires IsPlainPath(path)
    ensures forall b | b in path :: PlainByte(b)
  {}

  lemma PlainSegment(path: Bytes, i: nat, special: byte -> bool)
    requires IsPlainPath(path) && i < |Segments(path)| && Decode(path) == path && Keeps(special)
    ensures !Dots(Segments(path)[i]) && Encode(Segments(path)[i], special) == Segments(path)[i]
  {
    hide Split, Collapse, Decode, EscapeAt, HasStructuralEscape, SingleDot, DoubleDot;
    var p := Collapse([SLASH] + path);
    var seg := Segments(path)[i];
    forall b | b in seg ensures PlainByte(b) && b != PCT {
      SegmentBytes(p[1..], i, b);
      assert b in p;
      CollapseBytes([SLASH] + path, b);
    }
    EncodePlain(seg, special);
    DecodePlain(seg);
    SoundDots(seg);
    PlainSegments(path, i);
  }

  /** Every plain path is accepted, and only its case and its repeated slashes change. */
  lemma PlainPathsKeep(path: Bytes, env: Env)
    requires Standard(env) && IsPlainPath(path)
    ensures CanonicalPath(path, env) == Some(Lower(Collapse([SLASH] + path)))
  {
    hide Split, Join, Collapse, Decode, Encode, Accepts, CanonicalPath, Lower, IsPlainPath, Resolve, SingleDot,
         DoubleDot;
    PlainBytes(path);
    PlainAccepted(path, env);
    CanonicalForm(path, env);
    AcceptedSegments(path, env);
    var segs := Segments(path);
    forall i | 0 <= i < |segs| ensures !Dots(segs[i]) && Encode(segs[i], env.special) == segs[i] {
      PlainSegment(path, i, env.special);
    }
    ResolveNoDots([], segs);
    assert [] + segs == segs;
    assert Each(Encoder(env.special), segs) == segs;
  }
}

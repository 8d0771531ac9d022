/** Which paths the guards can read at all: exactly those, however they are escaped. */
module PathReadable {
  import opened Wrappers
  import opened Words
  import opened Paths

  /** Only spaces around one dot or more, and at least one space. */
  ghost predicate SpacedDots(seg: Bytes) { exists a: nat, b: nat :: DotsBetween(seg, a, b) }

  predicate DotsBetween(seg: Bytes, a: nat, b: nat) {
    && a < b <= |seg| && (a > 0 || b < |seg|)
    && (forall i | 0 <= i < |seg| :: seg[i] == if a <= i < b then DOT else SPACE)
  }

  /** No later hop would cut or rewrite this text: it has no "?", "#", ";", backslash or control
      character, does not end in a space, and no segment of it is dots among spaces. */
  ghost predicate Readable(t: Bytes) {
    && (forall i | 0 <= i < |t| ::
          t[i] >= 0x20 && t[i] != 0x3f && t[i] != 0x23 && t[i] != 0x3b && t[i] != 0x5c && t[i] != 0x7f)
    && (t != [] ==> t[|t| - 1] != SPACE)
    && forall k | 0 <= k < |Split(t)| :: !SpacedDots(Split(t)[k])
  }

  // ---------------------------------------------------------------- dots among spaces

  lemma {:induction false} TrimStartIs(s: Bytes) returns (a: nat)
    ensures a <= |s| && TrimStart(s) == s[a..]
    ensures (forall i | 0 <= i < a :: s[i] == SPACE) && (a < |s| ==> s[a] != SPACE)
  {
    if s != [] && s[0] == SPACE {
      var b := TrimStartIs(s[1..]);
      a := b + 1;
      assert s[1..][b..] == s[a..];
      assert forall i | 0 < i < a :: s[i] == s[1..][i - 1];
    } else {
      a := 0;
    }
  }

  lemma {:induction false} TrimEndIs(s: Bytes) returns (b: nat)
    ensures b <= |s| && TrimEnd(s) == s[..b]
    ensures (forall i | b <= i < |s| :: s[i] == SPACE) && (b > 0 ==> s[b - 1] != SPACE)
  {
    if s != [] && s[|s| - 1] == SPACE {
      b := TrimEndIs(s[..|s| - 1]);
      assert s[..|s| - 1][..b] == s[..b];
    } else {
      b := |s|;
    }
  }

  lemma TrimIs(s: Bytes) returns (a: nat, b: nat)
    ensures a <= b <= |s| && Trim(s) == s[a..b]
    ensures forall i | 0 <= i < a || b <= i < |s| :: s[i] == SPACE
    ensures a < b ==> s[a] != SPACE && s[b - 1] != SPACE
  {
    a := TrimStartIs(s);
    var c := TrimEndIs(s[a..]);
    b := a + c;
    assert s[a..][..c] == s[a..b];
    forall i | b <= i < |s| ensures s[i] == SPACE {
      assert s[i] == s[a..][i - a];
    }
  }

  lemma PaddedIsSpaced(seg: Bytes)
    ensures PaddedDots(seg) <==> SpacedDots(seg)
  {
    hide Trim;
    var a, b := TrimIs(seg);
    if PaddedDots(seg) {
      assert forall i | a <= i < b :: seg[i] == Trim(seg)[i - a];
      assert DotsBetween(seg, a, b);
    }
    if SpacedDots(seg) {
      var c: nat, d: nat :| DotsBetween(seg, c, d);
      SameCut(seg, a, b, c, d);
      assert Trim(seg) == seg[c..d];
      assert |seg[c..d]| < |seg|;
    }
  }

  lemma SameCut(seg: Bytes, a: nat, b: nat, c: nat, d: nat)
    requires DotsBetween(seg, c, d) && a <= b <= |seg|
    requires forall i | 0 <= i < a || b <= i < |seg| :: seg[i] == SPACE
    requires a < b ==> seg[a] != SPACE && seg[b - 1] != SPACE
    ensures a == c && b == d
  {
    assert seg[c] == DOT && seg[d - 1] == DOT;
  }

  lemma ReadableIs(t: Bytes)
    ensures Readable(t) <==> AcceptsDecoded(t)
  {
    hide Split, PaddedDots, SpacedDots;
    forall k | 0 <= k < |Split(t)| ensures PaddedDots(Split(t)[k]) <==> SpacedDots(Split(t)[k]) {
      PaddedIsSpaced(Split(t)[k]);
    }
  }

  // ---------------------------------------------------------------- escapes

  /** The escapes of an encoded text are those of its first byte and those of the rest. */
  lemma EncodedEscapes(b: byte, rest: Bytes, f: byte -> bool, i: nat)
    requires b != PCT
    ensures var e := EncodeByte(b, f);
            && (i < |e| ==> (EscapeAt(e + rest, i) <==> i == 0 && f(b)))
            && (i >= |e| ==> (EscapeAt(e + rest, i) <==> EscapeAt(rest, i - |e|)))
            && (i >= |e| && EscapeAt(rest, i - |e|) ==> EscapeValue(e + rest, i) == EscapeValue(rest, i - |e|))
            && (f(b) ==> EscapeAt(e + rest, 0) && EscapeValue(e + rest, 0) == b)
  {}

  /** A byte of the text is escaped although a later hop would read it differently. */
  predicate Forbidden(t: Bytes, f: byte -> bool) { exists i | 0 <= i < |t| :: f(t[i]) && Structural(t[i]) }

  lemma {:induction false} EncodedReads(t: Bytes, f: byte -> bool)
    requires PCT !in t
    ensures Decode(Encode(t, f)) == t && WellEscaped(Encode(t, f))
    ensures HasStructuralEscape(Encode(t, f)) <==> Forbidden(t, f)
  {
    hide EscapeAt, Structural, EscapeValue, WellEscaped, HasStructuralEscape, Forbidden, EncodeByte;
    if t == [] {
      NothingEscaped(f);
    } else {
      var b, rest := t[0], t[1..];
      assert b in t && forall x | x in rest :: x in t;
      EncodedReads(rest, f);
      var r := Encode(rest, f);
      DecodedFirst(b, r, f);
      StructuralFirst(b, r, f);
      ForbiddenFirst(t, f);
      WellEscapedFirst(b, r, f);
      assert [b] + rest == t;
    }
  }

  lemma NothingEscaped(f: byte -> bool)
    ensures WellEscaped([]) && !HasStructuralEscape([]) && !Forbidden([], f)
  {}

  lemma DecodedFirst(b: byte, r: Bytes, f: byte -> bool)
    requires b != PCT
    ensures Decode(EncodeByte(b, f) + r) == [b] + Decode(r)
  {
    EncodedEscapes(b, r, f, 0);
    var e := EncodeByte(b, f);
    assert (e + r)[|e|..] == r;
  }

  lemma WellEscapedFirst(b: byte, r: Bytes, f: byte -> bool)
    requires b != PCT && WellEscaped(r)
    ensures WellEscaped(EncodeByte(b, f) + r)
  {
    hide EscapeAt;
    var e := EncodeByte(b, f);
    forall i | 0 <= i < |e + r| && (e + r)[i] == PCT ensures EscapeAt(e + r, i) {
      EncodedEscapes(b, r, f, i);
    }
  }

  lemma StructuralFirst(b: byte, r: Bytes, f: byte -> bool)
    requires b != PCT
    ensures HasStructuralEscape(EncodeByte(b, f) + r) <==> (f(b) && Structural(b)) || HasStructuralEscape(r)
  {
    hide EscapeAt, Structural, EscapeValue;
    var e := EncodeByte(b, f);
    EncodedEscapes(b, r, f, 0);
    if HasStructuralEscape(e + r) {
      var i :| 0 <= i < |e + r| && EscapeAt(e + r, i) && Structural(EscapeValue(e + r, i));
      EncodedEscapes(b, r, f, i);
    }
    if HasStructuralEscape(r) {
      var i :| 0 <= i < |r| && EscapeAt(r, i) && Structural(EscapeValue(r, i));
      EncodedEscapes(b, r, f, i + |e|);
      assert EscapeAt(e + r, i + |e|);
    }
  }

  lemma ForbiddenFirst(t: Bytes, f: byte -> bool)
    requires t != []
    ensures Forbidden(t, f) <==> (f(t[0]) && Structural(t[0])) || Forbidden(t[1..], f)
  {
    hide Structural;
    if Forbidden(t, f) {
      var i :| 0 <= i < |t| && f(t[i]) && Structural(t[i]);
      assert i > 0 ==> t[1..][i - 1] == t[i];
    }
    if Forbidden(t[1..], f) {
      var i :| 0 <= i < |t[1..]| && f(t[1..][i]) && Structural(t[1..][i]);
      assert t[i + 1] == t[1..][i];
    }
  }

  // ---------------------------------------------------------------- the claims

  /** A text without percent signs, with any of its bytes escaped, is accepted if and only if it is
      readable UTF-8 and no structural character of it is among the escaped; and it is read as itself. */
  lemma AcceptedExactly(t: Bytes, f: byte -> bool, env: Env)
    requires PCT !in t
    ensures Decode(Encode(t, f)) == t
    ensures Accepts(Encode(t, f), env) <==> env.utf8(t) && Readable(t) && !Forbidden(t, f)
  {
    hide Decode, HasStructuralEscape, WellEscaped, AcceptsDecoded, Readable, Forbidden;
    EncodedReads(t, f);
    ReadableIs(t);
  }

  /** What the guards can read: exactly the readable UTF-8 texts without percent signs. */
  lemma ReadExactly(t: Bytes, env: Env)
    ensures (exists path :: Accepts(path, env) && Decode(path) == t) <==> PCT !in t && env.utf8(t) && Readable(t)
  {
    hide Decode, Readable, AcceptsDecoded, HasStructuralEscape, WellEscaped;
    ReadableIs(t);
    if path :| Accepts(path, env) && Decode(path) == t {
      NoPercentLeft(path);
    }
    if PCT !in t && env.utf8(t) && Readable(t) {
      var f := (b: byte) => false;
      assert !Forbidden(t, f);
      AcceptedExactly(t, f, env);
      assert Accepts(Encode(t, f), env);
    }
  }

  lemma NoPercentLeft(path: Bytes)
    requires !HasStructuralEscape(path) && WellEscaped(path)
    ensures PCT !in Decode(path)
  {}

  predicate Upper(b: byte) { 0x41 <= b <= 0x5a }

  /** A canonical path has no upper-case letter, and lower-casing changes nothing but upper-case letters. */
  lemma CanonicalIsLower(path: Bytes, env: Env)
    ensures CanonicalPath(path, env).Some? ==> forall b | b in CanonicalPath(path, env).value :: !Upper(b)
    ensures |Lower(path)| == |path|
    ensures forall i | 0 <= i < |path| :: Lower(path)[i] == if Upper(path[i]) then path[i] + 0x20 else path[i]
  {
    hide Collapse, Pathname, Decode, Accepts;
  }

  // ---------------------------------------------------------------- why the rest is refused

  lemma {:induction false} EndStripped(s: Bytes, b: byte)
    requires b <= SPACE
    ensures StripEnd(StripStart(s + [b])) == StripEnd(StripStart(s))
  {
    if s == [] {
      assert [b][1..] == [] && [] + [b] == [b];
    } else if s[0] <= SPACE {
      assert (s + [b])[1..] == s[1..] + [b];
      EndStripped(s[1..], b);
    } else {
      assert (s + [b])[..|s|] == s;
    }
  }

  /** A URL parser does not see spaces and control characters at the ends of a path, */
  lemma EndsUnseen(s: Bytes, b: byte, env: Env)
    requires b <= SPACE
    ensures Pathname([b] + s, env) == Pathname(s, env) == Pathname(s + [b], env)
  {
    hide StripEnd, RemoveBreaks, PathPart, Resolve, Split;
    assert ([b] + s)[1..] == s;
    EndStripped(s, b);
  }

  /** nor what follows a question mark or a number sign; and it reads a backslash as a slash. */
  lemma {:induction false} CutAndTurned(s: Bytes, rest: Bytes, b: byte)
    requires 0x3f !in s && 0x23 !in s
    ensures b in {0x3f, 0x23} ==> PathPart(s + [b] + rest) == PathPart(s)
    ensures b == 0x5c ==> PathPart(s + [b] + rest) == PathPart(s + [SLASH] + rest)
  {
    if s != [] {
      assert forall x | x in s[1..] :: x in s;
      assert s[0] in s;
      assert (s + [b] + rest)[1..] == s[1..] + [b] + rest;
      assert (s + [SLASH] + rest)[1..] == s[1..] + [SLASH] + rest;
      CutAndTurned(s[1..], rest, b);
    } else {
      assert s + [b] + rest == [b] + rest && ([b] + rest)[1..] == rest;
      assert s + [SLASH] + rest == [SLASH] + rest && ([SLASH] + rest)[1..] == rest;
    }
  }
}

/** Facts about segments, escapes and dot segments that the path theorems rest on. */
module PathLemmas {
  import opened Words
  import opened Paths

  // ---------------------------------------------------------------- escapes

  /** Well escaped, and no escape hides a structural character. */
  predicate Sound(s: Bytes) { WellEscaped(s) && !HasStructuralEscape(s) }

  lemma SoundConcat(a: Bytes, b: Bytes)
    requires Sound(a) && Sound(b)
    ensures Sound(a + b)
  {
    var s := a + b;
    forall i | 0 <= i < |s| && s[i] == PCT
      ensures EscapeAt(s, i) && !Structural(EscapeValue(s, i))
    {
      if i < |a| {
        assert EscapeAt(a, i);
        assert EscapeValue(a, i) == EscapeValue(s, i);
      } else {
        assert b[i - |a|] == PCT;
        assert EscapeAt(b, i - |a|);
        assert EscapeValue(b, i - |a|) == EscapeValue(s, i);
      }
    }
  }

  lemma SoundAtSlash(a: Bytes, b: Bytes)
    requires Sound(a + [SLASH] + b)
    ensures Sound(a) && Sound(b)
  {
    var s := a + [SLASH] + b;
    var n := |a| + 1;
    forall i | 0 <= i < |a| && a[i] == PCT
      ensures EscapeAt(a, i) && !Structural(EscapeValue(a, i))
    {
      assert s[i] == PCT;
      assert EscapeAt(s, i);
      assert s[|a|] == SLASH;
      assert EscapeValue(s, i) == EscapeValue(a, i);
    }
    forall i | 0 <= i < |b| && b[i] == PCT
      ensures EscapeAt(b, i) && !Structural(EscapeValue(b, i))
    {
      assert s[n + i] == PCT;
      assert EscapeAt(s, n + i);
      assert EscapeValue(s, n + i) == EscapeValue(b, i);
    }
  }

  lemma {:induction false} SoundSegments(segs: seq<Bytes>)
    requires Sound(Join(segs))
    ensures forall i | 0 <= i < |segs| :: Sound(segs[i])
  {
    if |segs| > 1 {
      SoundAtSlash(segs[0], Join(segs[1..]));
      SoundSegments(segs[1..]);
      forall i | 0 <= i < |segs| ensures Sound(segs[i]) {
        if i > 0 {
          assert segs[i] == segs[1..][i - 1];
        }
      }
    }
  }

  lemma {:induction false} SoundJoin(segs: seq<Bytes>)
    requires forall i | 0 <= i < |segs| :: Sound(segs[i])
    ensures Sound(Join(segs))
  {
    if |segs| > 1 {
      SoundJoin(segs[1..]);
      SoundConcat(segs[0], [SLASH]);
      SoundConcat(segs[0] + [SLASH], Join(segs[1..]));
    }
  }

  lemma SoundTail(s: Bytes, n: nat)
    requires Sound(s) && n <= |s|
    ensures Sound(s[n..])
  {
    forall i | 0 <= i < |s[n..]| && s[n..][i] == PCT
      ensures EscapeAt(s[n..], i) && !Structural(EscapeValue(s[n..], i))
    {
      assert s[n + i] == PCT;
      assert EscapeAt(s, n + i);
      assert EscapeValue(s, n + i) == EscapeValue(s[n..], i);
    }
  }

  /** A decoded byte was written as itself, or is not structural. */
  lemma {:induction false} DecodedByte(s: Bytes, b: byte)
    requires Sound(s) && b in Decode(s)
    ensures b != PCT && (b in s || !Structural(b))
    decreases |s|
  {
    if EscapeAt(s, 0) {
      if b != EscapeValue(s, 0) {
        SoundTail(s, 3);
        DecodedByte(s[3..], b);
      }
    } else {
      assert s[0] != PCT;
      if b != s[0] {
        SoundTail(s, 1);
        DecodedByte(s[1..], b);
      }
    }
  }

  lemma EscapedStart(s: Bytes)
    requires Sound(s) && EscapeAt(s, 0)
    ensures exists b :: b in Decode(s) && b != DOT
  {
    assert Decode(s)[0] in Decode(s);
    assert !Structural(EscapeValue(s, 0));
  }

  lemma {:induction false} DecodeDots(s: Bytes)
    requires Sound(s) && forall b | b in Decode(s) :: b == DOT
    ensures Decode(s) == s
    decreases |s|
  {
    if s != [] {
      if EscapeAt(s, 0) {
        EscapedStart(s);
      } else {
        SoundTail(s, 1);
        forall b | b in Decode(s[1..]) ensures b == DOT {
          assert b in Decode(s);
        }
        DecodeDots(s[1..]);
      }
    }
  }

  lemma {:induction false} DecodePlain(s: Bytes)
    requires PCT !in s
    ensures Decode(s) == s && Sound(s)
  {
    if s != [] {
      assert s[0] in s;
      forall x | x in s[1..] ensures x in s {}
      DecodePlain(s[1..]);
    }
  }

  lemma WellEscapedTail(s: Bytes, n: nat)
    requires WellEscaped(s) && n <= |s|
    ensures WellEscaped(s[n..])
  {
    forall i | 0 <= i < |s[n..]| && s[n..][i] == PCT ensures EscapeAt(s[n..], i) {
      assert EscapeAt(s, n + i);
    }
  }

  lemma DecodeStep(s: Bytes)
    ensures s == [] ==> Decode(s) == []
    ensures EscapeAt(s, 0) ==> Decode(s) == [EscapeValue(s, 0)] + Decode(s[3..])
    ensures s != [] && s[0] != PCT ==> Decode(s) == [s[0]] + Decode(s[1..])
  {}

  lemma {:induction false} DecodeConcat(a: Bytes, b: Bytes)
    requires WellEscaped(a)
    ensures Decode(a + b) == Decode(a) + Decode(b)
    decreases |a|
  {
    hide WellEscaped, Decode, EscapeValue;
    var s := a + b;
    DecodeStep(a);
    DecodeStep(s);
    if a == [] {
      assert s == b;
    } else if a[0] == PCT {
      EscapeStarts(a, b);
      assert s[3..] == a[3..] + b;
      WellEscapedTail(a, 3);
      DecodeConcat(a[3..], b);
    } else {
      assert s[1..] == a[1..] + b;
      WellEscapedTail(a, 1);
      DecodeConcat(a[1..], b);
    }
  }

  lemma EscapeStarts(a: Bytes, b: Bytes)
    requires WellEscaped(a) && a != [] && a[0] == PCT
    ensures EscapeAt(a, 0) && EscapeAt(a + b, 0) && EscapeValue(a, 0) == EscapeValue(a + b, 0)
  {}

  lemma DecodeSlash(b: Bytes)
    ensures Decode([SLASH] + b) == [SLASH] + Decode(b) && Sound([SLASH])
  {
    assert ([SLASH] + b)[1..] == b;
  }

  lemma {:induction false} DecodeJoin(segs: seq<Bytes>)
    requires forall i | 0 <= i < |segs| :: Sound(segs[i])
    ensures Decode(Join(segs)) == Join(Each(Decode, segs))
  {
    hide Decode, HasStructuralEscape, WellEscaped;
    if segs == [] {
      DecodePlain([]);
    } else if |segs| > 1 {
      var rest := Join(segs[1..]);
      DecodeJoin(segs[1..]);
      assert Each(Decode, segs)[1..] == Each(Decode, segs[1..]);
      assert segs[0] + [SLASH] + rest == segs[0] + ([SLASH] + rest);
      assert Sound(segs[0]);
      DecodeConcat(segs[0], [SLASH] + rest);
      DecodeSlash(rest);
    }
  }

  lemma DecodeAbs(segs: seq<Bytes>)
    requires forall i | 0 <= i < |segs| :: Sound(segs[i])
    ensures Decode(Abs(segs)) == Abs(Each(Decode, segs))
  {
    DecodeSlash(Join(segs));
    DecodeJoin(segs);
  }

  // ---------------------------------------------------------------- encoding

  /** Neither the percent sign nor a plain byte is encoded. */
  ghost predicate Keeps(special: byte -> bool) {
    forall b: byte :: PlainByte(b) || b == PCT ==> !special(b)
  }

  lemma EncodeByteSound(b: byte, special: byte -> bool)
    requires Keeps(special) && b != PCT && !Splitting(b)
    ensures Sound(EncodeByte(b, special)) && Decode(EncodeByte(b, special)) == [b]
    ensures SLASH in EncodeByte(b, special) ==> b == SLASH
    ensures Lower(EncodeByte(LowerByte(b), special)) == Lower(EncodeByte(b, special))
    ensures Decode(Lower(EncodeByte(b, special))) == [LowerByte(b)]
    ensures Sound(Lower(EncodeByte(b, special)))
  {
    assert PlainByte(b) ==> !special(b);
    var e := EncodeByte(b, special);
    if special(b) {
      assert LowerByte(b) == b;
      assert EscapeAt(e, 0) && EscapeValue(e, 0) == b;
      assert e[3..] == [];
      var l := Lower(e);
      assert l[0] == PCT && EscapeAt(l, 0) && EscapeValue(l, 0) == b;
      assert l[3..] == [];
    } else {
      assert e == [b] && e[1..] == [];
      assert Lower(e) == [LowerByte(b)] && Lower(e)[1..] == [];
      assert PlainByte(LowerByte(b)) || LowerByte(b) == b;
    }
  }

  lemma LowerConcat(a: Bytes, b: Bytes)
    ensures Lower(a + b) == Lower(a) + Lower(b)
  {}

  /** No percent sign and nothing that splits a path. */
  predicate Raw(s: Bytes) { forall b | b in s :: b != PCT && !Splitting(b) }

  lemma RawTail(s: Bytes)
    requires Raw(s) && s != []
    ensures s[0] != PCT && !Splitting(s[0]) && Raw(s[1..])
  {
    assert s[0] in s;
  }

  /** A raw string survives encoding. */
  lemma {:induction false} EncodeRaw(s: Bytes, special: byte -> bool)
    requires Keeps(special) && Raw(s)
    ensures Sound(Encode(s, special)) && Decode(Encode(s, special)) == s
    ensures SLASH in Encode(s, special) ==> SLASH in s
  {
    hide EncodeByte, Decode, Sound;
    DecodePlain([]);
    if s != [] {
      var e, r := EncodeByte(s[0], special), Encode(s[1..], special);
      RawTail(s);
      EncodeRaw(s[1..], special);
      EncodeByteSound(s[0], special);
      SoundConcat(e, r);
      DecodeConcat(e, r);
    }
  }

  /** It survives whatever the case of the hex digits. */
  lemma {:induction false} EncodeRawLower(s: Bytes, special: byte -> bool)
    requires Keeps(special) && Raw(s)
    ensures Sound(Lower(Encode(s, special))) && Decode(Lower(Encode(s, special))) == Lower(s)
    ensures Lower(Encode(Lower(s), special)) == Lower(Encode(s, special))
  {
    hide EncodeByte, Decode, Sound;
    DecodePlain([]);
    if s != [] {
      var e, r := EncodeByte(s[0], special), Encode(s[1..], special);
      RawTail(s);
      EncodeRawLower(s[1..], special);
      EncodeByteSound(s[0], special);
      LowerConcat(e, r);
      SoundConcat(Lower(e), Lower(r));
      DecodeConcat(Lower(e), Lower(r));
      assert Lower(s) == [LowerByte(s[0])] + Lower(s[1..]);
      assert Lower(s)[1..] == Lower(s[1..]);
      LowerConcat(EncodeByte(LowerByte(s[0]), special), Encode(Lower(s[1..]), special));
    }
  }

  lemma EncodePlain(s: Bytes, special: byte -> bool)
    requires Keeps(special) && forall b | b in s :: PlainByte(b)
    ensures Encode(s, special) == s
  {
    if s != [] {
      assert s[0] in s;
      forall b | b in s[1..] ensures PlainByte(b) { assert b in s; }
      EncodePlain(s[1..], special);
    }
  }

  /** Encoding what is already escaped adds nothing that one decode does not take away. */
  lemma {:induction false} EncodeSound(s: Bytes, special: byte -> bool)
    requires Keeps(special) && Sound(s) && forall b | b in s :: !Splitting(b)
    ensures Sound(Encode(s, special)) && Decode(Encode(s, special)) == Decode(s)
    ensures SLASH in Encode(s, special) ==> SLASH in s
    decreases |s|
  {
    if s == [] {
    } else if s[0] == PCT {
      assert EscapeAt(s, 0);
      var e := s[..3];
      assert PlainByte(s[1]) && PlainByte(s[2]);
      var t := s[1..];
      assert Encode(s, special) == [PCT] + Encode(t, special);
      assert Encode(t, special) == [s[1]] + Encode(t[1..], special);
      assert t[1..][1..] == s[3..];
      assert Encode(t[1..], special) == [s[2]] + Encode(s[3..], special);
      assert Encode(s, special) == e + Encode(s[3..], special);
      SoundTail(s, 3);
      EncodeSound(s[3..], special);
      assert EscapeAt(e, 0) && EscapeValue(e, 0) == EscapeValue(s, 0);
      SoundConcat(e, Encode(s[3..], special));
      DecodeConcat(e, Encode(s[3..], special));
      assert e[3..] == [];
    } else {
      SoundTail(s, 1);
      EncodeSound(s[1..], special);
      EncodeByteSound(s[0], special);
      SoundConcat(EncodeByte(s[0], special), Encode(s[1..], special));
      DecodeConcat(EncodeByte(s[0], special), Encode(s[1..], special));
    }
  }

  // ---------------------------------------------------------------- dot segments

  predicate NoDots(segs: seq<Bytes>) { forall i | 0 <= i < |segs| :: !Dots(segs[i]) }

  lemma HiddenDot(a: Bytes, dot: Bytes, b: Bytes)
    requires SingleDot(dot)
    ensures dot == [DOT] || HasStructuralEscape(a + dot + b)
  {
    var s := a + dot + b;
    var i := |a|;
    if dot != [DOT] {
      assert s[i] == dot[0] && s[i + 1] == dot[1] && s[i + 2] == dot[2];
      assert EscapeAt(s, i) && EscapeValue(s, i) == DOT;
    }
  }

  /** When no escape hides a dot, the dot segments are the literal ones. */
  lemma SoundDots(seg: Bytes)
    requires Sound(seg)
    ensures SingleDot(seg) <==> seg == [DOT]
    ensures DoubleDot(seg) <==> seg == [DOT, DOT]
  {
    hide EscapeAt, HasStructuralEscape;
    if SingleDot(seg) {
      HiddenDot([], seg, []);
      assert [] + seg + [] == seg;
    }
    if DoubleDot(seg) {
      var i :| 0 <= i <= |seg| && SingleDot(seg[..i]) && SingleDot(seg[i..]);
      HiddenDot([], seg[..i], seg[i..]);
      HiddenDot(seg[..i], seg[i..], []);
      assert [] + seg[..i] + seg[i..] == seg && seg[..i] + seg[i..] + [] == seg;
    }
    if seg == [DOT, DOT] {
      assert seg[..1] == [DOT] && seg[1..] == [DOT];
    }
  }

  /** f turns dot segments into dot segments, and nothing else into one. */
  ghost predicate KeepsDots(f: Bytes -> Bytes, segs: seq<Bytes>) {
    f([]) == [] && forall i | 0 <= i < |segs| ::
      SingleDot(f(segs[i])) == SingleDot(segs[i]) && DoubleDot(f(segs[i])) == DoubleDot(segs[i])
  }

  lemma EachDone(f: Bytes -> Bytes, done: seq<Bytes>, x: Bytes)
    ensures Each(f, done + [x]) == Each(f, done) + [f(x)]
  {}

  lemma {:induction false} ResolveEach(f: Bytes -> Bytes, done: seq<Bytes>, segs: seq<Bytes>)
    requires KeepsDots(f, segs)
    ensures Resolve(Each(f, done), Each(f, segs)) == Each(f, Resolve(done, segs))
    decreases |segs|
  {
    hide SingleDot, DoubleDot;
    if segs != [] {
      var seg, last := segs[0], |segs| == 1;
      var kept := if DoubleDot(seg) then (if done == [] then [] else done[..|done| - 1])
                  else if SingleDot(seg) then done
                  else done + [seg];
      var next := if Dots(seg) && last then kept + [[]] else kept;
      assert Each(f, segs)[1..] == Each(f, segs[1..]);
      assert f(seg) == Each(f, segs)[0];
      if done != [] {
        assert Each(f, done[..|done| - 1]) == Each(f, done)[..|done| - 1];
      }
      EachDone(f, done, seg);
      EachDone(f, kept, []);
      ResolveEach(f, next, segs[1..]);
    }
  }

  lemma {:induction false} ResolveNoDots(done: seq<Bytes>, segs: seq<Bytes>)
    requires NoDots(segs)
    ensures Resolve(done, segs) == done + segs
    decreases |segs|
  {
    hide SingleDot, DoubleDot;
    if segs == [] {
    } else {
      assert !Dots(segs[0]);
      ResolveNoDots(done + [segs[0]], segs[1..]);
      assert done + [segs[0]] + segs[1..] == done + segs;
    }
  }

  lemma EmptyIsNoDots()
    ensures !Dots([])
  {
    var e: Bytes := [];
    assert forall i | 0 <= i <= |e| :: e[..i] == [];
  }

  /** One segment that is not the last. */
  lemma ResolveStep(done: seq<Bytes>, seg: Bytes, rest: seq<Bytes>)
    requires rest != []
    ensures Resolve(done, [seg] + rest) ==
            Resolve(if DoubleDot(seg) then (if done == [] then [] else done[..|done| - 1])
                    else if SingleDot(seg) then done
                    else done + [seg], rest)
  {
    hide SingleDot, DoubleDot;
    assert ([seg] + rest)[1..] == rest;
  }

  /** What is left has no dot segments and was there before, or is the empty segment a final dot
      segment leaves; only the last segment can be empty if only the last one was. */
  lemma {:induction false} ResolveLeaves(done: seq<Bytes>, segs: seq<Bytes>)
    requires NoDots(done)
    ensures NoDots(Resolve(done, segs))
    ensures forall x | x in Resolve(done, segs) :: x in done || x in segs || x == []
    ensures segs != [] ==>
              var r := Resolve(done, segs); r != [] && (r[|r| - 1] == [] || r[|r| - 1] == segs[|segs| - 1])
    ensures (forall i | 0 <= i < |done| :: done[i] != []) && (forall i | 0 <= i < |segs| - 1 :: segs[i] != []) ==>
              forall i | 0 <= i < |Resolve(done, segs)| - 1 :: Resolve(done, segs)[i] != []
    decreases |segs|
  {
    hide SingleDot, DoubleDot;
    if segs != [] {
      EmptyIsNoDots();
      var seg, last := segs[0], |segs| == 1;
      var kept := if DoubleDot(seg) then (if done == [] then [] else done[..|done| - 1])
                  else if SingleDot(seg) then done
                  else done + [seg];
      var next := if Dots(seg) && last then kept + [[]] else kept;
      ResolveLeaves(next, segs[1..]);
      assert forall x | x in segs[1..] :: x in segs;
      if last {
        assert segs[1..] == [];
        assert Resolve(next, []) == next;
      }
    }
  }

  lemma {:induction false} ResolveInside(prefix: seq<Bytes>, done: seq<Bytes>, segs: seq<Bytes>)
    requires Inside(|done|, segs)
    ensures Resolve(prefix + done, segs) == prefix + Resolve(done, segs)
    decreases |segs|
  {
    hide SingleDot, DoubleDot;
    if segs != [] {
      var seg, last := segs[0], |segs| == 1;
      var kept := if DoubleDot(seg) then (if done == [] then [] else done[..|done| - 1])
                  else if SingleDot(seg) then done
                  else done + [seg];
      var next := if Dots(seg) && last then kept + [[]] else kept;
      if DoubleDot(seg) {
        assert (prefix + done)[..|prefix + done| - 1] == prefix + done[..|done| - 1];
      }
      assert prefix + done + [seg] == prefix + (done + [seg]);
      assert prefix + kept + [[]] == prefix + (kept + [[]]);
      if last {
        assert segs[1..] == [];
        assert Resolve(prefix + next, []) == prefix + next;
      } else {
        ResolveInside(prefix, next, segs[1..]);
      }
    }
  }

  /** Starting deeper by no more than k segments ends deeper by no more than k. */
  lemma {:induction false} ResolveShrinks(deep: seq<Bytes>, done: seq<Bytes>, segs: seq<Bytes>, k: nat)
    requires |done| <= |deep| <= |done| + k
    ensures |Resolve(done, segs)| <= |Resolve(deep, segs)| <= |Resolve(done, segs)| + k
    decreases |segs|
  {
    hide SingleDot, DoubleDot;
    if segs != [] {
      var seg, last := segs[0], |segs| == 1;
      var kept := if DoubleDot(seg) then (if done == [] then [] else done[..|done| - 1])
                  else if SingleDot(seg) then done
                  else done + [seg];
      var kept' := if DoubleDot(seg) then (if deep == [] then [] else deep[..|deep| - 1])
                   else if SingleDot(seg) then deep
                   else deep + [seg];
      ResolveShrinks(if Dots(seg) && last then kept' + [[]] else kept',
                     if Dots(seg) && last then kept + [[]] else kept, segs[1..], k);
    }
  }

  /** A path that climbs above its root loses one of the segments put before it. */
  lemma {:induction false} ResolveClimbs(deep: seq<Bytes>, done: seq<Bytes>, segs: seq<Bytes>)
    requires |deep| == |done| + 2 && !Inside(|done|, segs)
    ensures |Resolve(deep, segs)| < |Resolve(done, segs)| + 2
    decreases |segs|
  {
    hide SingleDot, DoubleDot;
    var seg, last := segs[0], |segs| == 1;
    var kept := if DoubleDot(seg) then (if done == [] then [] else done[..|done| - 1])
                else if SingleDot(seg) then done
                else done + [seg];
    var kept' := if DoubleDot(seg) then deep[..|deep| - 1]
                 else if SingleDot(seg) then deep
                 else deep + [seg];
    var next := if Dots(seg) && last then kept + [[]] else kept;
    var next' := if Dots(seg) && last then kept' + [[]] else kept';
    if DoubleDot(seg) && done == [] {
      ResolveShrinks(next', next, segs[1..], 1);
    } else {
      ResolveClimbs(next', next, segs[1..]);
    }
  }

  // ---------------------------------------------------------------- slashes

  /** No two slashes in a row. */
  predicate Single(s: Bytes) { forall i | 0 <= i < |s| - 1 :: !(s[i] == SLASH && s[i + 1] == SLASH) }

  lemma SplitSlash(s: Bytes)
    ensures Split([SLASH] + s) == [[]] + Split(s)
  {
    assert ([SLASH] + s)[1..] == s;
  }

  lemma {:induction false} CollapseSingle(s: Bytes)
    ensures Single(Collapse(s)) && (Single(s) ==> Collapse(s) == s)
    ensures s != [] ==> Collapse(s) != [] && Collapse(s)[0] == s[0] && Collapse(s)[|Collapse(s)| - 1] == s[|s| - 1]
    decreases |s|
  {
    if |s| >= 2 {
      CollapseSingle(s[1..]);
      var c := Collapse(s);
      if s[0] == SLASH && s[1] == SLASH {
        assert !Single(s);
      } else {
        assert c == [s[0]] + Collapse(s[1..]);
        forall i | 0 <= i < |c| - 1 ensures !(c[i] == SLASH && c[i + 1] == SLASH) {
          if i > 0 {
            assert c[i] == Collapse(s[1..])[i - 1] && c[i + 1] == Collapse(s[1..])[i];
          }
        }
        if Single(s) {
          forall i | 0 <= i < |s[1..]| - 1 ensures !(s[1..][i] == SLASH && s[1..][i + 1] == SLASH) {
            assert s[1..][i] == s[i + 1] && s[1..][i + 1] == s[i + 2];
          }
        }
      }
    }
  }

  lemma {:induction false} CollapseBytes(s: Bytes, b: byte)
    ensures b in Collapse(s) <==> b in s
    decreases |s|
  {
    if |s| >= 2 {
      CollapseBytes(s[1..], b);
      assert s == [s[0]] + s[1..];
    }
  }

  /** Collapsing slashes drops empty segments; it makes no new ones. */
  lemma {:induction false} CollapseSegments(s: Bytes)
    ensures s != [] ==> Split(Collapse(s))[0] == Split(s)[0]
    ensures forall x | x in Split(Collapse(s)) :: x in Split(s)
    decreases |s|
  {
    if |s| >= 2 {
      CollapseSegments(s[1..]);
      var r, r' := Split(s[1..]), Split(Collapse(s[1..]));
      if s[0] == SLASH {
        assert Split(s) == [[]] + r;
        forall x | x in Split(Collapse(s)) ensures x in Split(s) {
          if s[1] != SLASH {
            assert Collapse(s)[1..] == Collapse(s[1..]);
            assert Split(Collapse(s)) == [[]] + r';
          }
        }
        if s[1] == SLASH {
          CollapseSingle(s[1..]);
        }
      } else {
        assert Collapse(s)[1..] == Collapse(s[1..]);
        assert Split(Collapse(s)) == [[s[0]] + r'[0]] + r'[1..];
        assert Split(s) == [[s[0]] + r[0]] + r[1..];
        CollapseTails(s[1..]);
      }
    }
  }

  lemma {:induction false} CollapseTails(s: Bytes)
    requires s != []
    ensures forall x | x in Split(Collapse(s))[1..] :: x in Split(s)[1..]
    decreases |s|
  {
    if |s| >= 2 {
      CollapseTails(s[1..]);
      var r, r' := Split(s[1..]), Split(Collapse(s[1..]));
      if s[0] == SLASH && s[1] == SLASH {
        assert Split(s) == [[]] + r;
        assert Split(s)[1..] == r;
        forall x | x in r'[1..] ensures x in r { assert x in r[1..]; }
      } else {
        assert Collapse(s)[1..] == Collapse(s[1..]);
        if s[0] == SLASH {
          assert Split(s)[1..] == r;
          assert Split(Collapse(s))[1..] == r';
          CollapseSegments(s[1..]);
        } else {
          assert Split(Collapse(s)) == [[s[0]] + r'[0]] + r'[1..];
          assert Split(s) == [[s[0]] + r[0]] + r[1..];
          assert Split(Collapse(s))[1..] == r'[1..];
          assert Split(s)[1..] == r[1..];
        }
      }
    }
  }

  /** Only the last segment is empty. */
  predicate Tidy(segs: seq<Bytes>) { forall i | 0 <= i < |segs| - 1 :: segs[i] != [] }

  lemma {:induction false} TidySingle(segs: seq<Bytes>)
    requires segs != [] && AllSlashFree(segs)
    ensures Tidy(segs) <==> Single(Abs(segs))
  {
    var s := Abs(segs);
    if |segs| == 1 {
      forall i | 0 <= i < |s| - 1 ensures !(s[i] == SLASH && s[i + 1] == SLASH) {
        assert s[i + 1] == segs[0][i];
        assert segs[0][i] in segs[0];
      }
    } else {
      var rest := Abs(segs[1..]);
      var n := |segs[0]| + 1;
      TidySingle(segs[1..]);
      assert s == [SLASH] + segs[0] + rest;
      assert rest == s[n..];
      if segs[0] == [] {
        assert s[0] == SLASH && s[1] == SLASH;
      } else {
        assert Tidy(segs) <==> Tidy(segs[1..]) by {
          if Tidy(segs) {
            assert forall i | 0 <= i < |segs[1..]| - 1 :: segs[1..][i] == segs[i + 1];
          }
          if Tidy(segs[1..]) {
            assert forall i | 0 < i < |segs| - 1 :: segs[i] == segs[1..][i - 1];
          }
        }
        if Single(s) {
          forall i | 0 <= i < |rest| - 1 ensures !(rest[i] == SLASH && rest[i + 1] == SLASH) {
            assert rest[i] == s[n + i] && rest[i + 1] == s[n + i + 1];
          }
        }
        if Single(rest) {
          forall i | 0 <= i < |s| - 1 ensures !(s[i] == SLASH && s[i + 1] == SLASH) {
            if i + 1 < n {
              assert s[i + 1] == segs[0][i];
              assert segs[0][i] in segs[0];
            } else if i < n {
              assert s[i] == segs[0][n - 2];
              assert segs[0][n - 2] in segs[0];
            } else {
              assert rest[i - n] == s[i] && rest[i - n + 1] == s[i + 1];
            }
          }
        }
      }
    }
  }

  lemma {:induction false} LowerJoin(segs: seq<Bytes>)
    ensures Lower(Join(segs)) == Join(Each(Lower, segs))
  {
    if |segs| > 1 {
      LowerJoin(segs[1..]);
      assert Each(Lower, segs)[1..] == Each(Lower, segs[1..]);
      LowerConcat(segs[0] + [SLASH], Join(segs[1..]));
      LowerConcat(segs[0], [SLASH]);
      assert Lower([SLASH]) == [SLASH];
    }
  }

  lemma LowerAbs(segs: seq<Bytes>)
    ensures Lower(Abs(segs)) == Abs(Each(Lower, segs))
  {
    LowerJoin(segs);
    LowerConcat([SLASH], Join(segs));
    assert Lower([SLASH]) == [SLASH];
  }

  lemma {:induction false} JoinBytes(segs: seq<Bytes>, b: byte)
    ensures b in Join(segs) ==> b == SLASH || exists i | 0 <= i < |segs| :: b in segs[i]
    ensures forall i | 0 <= i < |segs| && b in segs[i] :: b in Join(segs)
  {
    if |segs| > 1 {
      JoinBytes(segs[1..], b);
      if exists i | 0 <= i < |segs[1..]| :: b in segs[1..][i] {
        var i :| 0 <= i < |segs[1..]| && b in segs[1..][i];
        assert b in segs[i + 1];
      }
      forall i | 0 <= i < |segs| && b in segs[i] ensures b in Join(segs) {
        if i > 0 {
          assert segs[i] == segs[1..][i - 1];
        }
      }
    }
  }

  /** Every character of a segment of s is one of s. */
  lemma SegmentBytes(s: Bytes, i: nat, b: byte)
    requires i < |Split(s)| && b in Split(s)[i]
    ensures b in s
  {
    JoinSplit(s);
    JoinBytes(Split(s), b);
  }

  // ---------------------------------------------------------------- what a URL parser leaves alone

  /** A path a URL parser reads as it stands. */
  predicate Upright(s: Bytes) {
    s != [] && s[0] == SLASH && s[|s| - 1] > SPACE && forall b | b in s :: !Splitting(b)
  }

  lemma {:induction false} BreaksKept(s: Bytes)
    requires forall b | b in s :: !Splitting(b)
    ensures RemoveBreaks(s) == s && PathPart(s) == s
  {
    if s != [] {
      assert s[0] in s;
      forall b | b in s[1..] ensures !Splitting(b) { assert b in s; }
      BreaksKept(s[1..]);
    }
  }

  lemma UprightKept(s: Bytes)
    requires Upright(s)
    ensures UrlPath(s) == s
  {
    BreaksKept(s);
  }

}

/** How a request path is read by the guards (api/src/proxy.ts canonicalPath) and by the hops after
    them: a URL parser, the gateway's decode, a second URL parser and the router's decode. Paths are
    byte strings. */
module Paths {
  import opened Wrappers
  import opened Words

  type Bytes = seq<byte>

  const SLASH: byte := 0x2f
  const DOT: byte := 0x2e
  const PCT: byte := 0x25
  const SPACE: byte := 0x20

  /** What the model leaves open: which byte strings are UTF-8, and which bytes a URL parser
      percent-encodes in a path. */
  datatype Env = Env(utf8: Bytes -> bool, special: byte -> bool)

  /** What is assumed of them. A parser encodes neither the percent sign nor a plain byte. UTF-8
      contains ASCII, ignores ASCII case, and is closed under cutting and joining at a slash. */
  ghost predicate Standard(env: Env) {
    && (forall b: byte :: PlainByte(b) || b == PCT ==> !env.special(b))
    && (forall s: Bytes :: (forall b | b in s :: PlainByte(b)) ==> env.utf8(s))
    && (forall s: Bytes :: env.utf8(Lower(s)) == env.utf8(s))
    && (forall a: Bytes, b: Bytes :: env.utf8(a + [SLASH] + b) <==> env.utf8(a) && env.utf8(b))
  }

  // ---------------------------------------------------------------- segments

  function Split(s: Bytes): (r: seq<Bytes>)
    ensures |r| >= 1
  {
    if s == [] then [[]]
    else
      var r := Split(s[1..]);
      if s[0] == SLASH then [[]] + r else [[s[0]] + r[0]] + r[1..]
  }

  function Join(segs: seq<Bytes>): Bytes {
    if segs == [] then []
    else if |segs| == 1 then segs[0]
    else segs[0] + [SLASH] + Join(segs[1..])
  }

  predicate SlashFree(seg: Bytes) { SLASH !in seg }

  predicate AllSlashFree(segs: seq<Bytes>) { forall i | 0 <= i < |segs| :: SlashFree(segs[i]) }

  lemma {:induction false} JoinSplit(s: Bytes)
    ensures Join(Split(s)) == s && AllSlashFree(Split(s))
  {
    if s != [] {
      var r := Split(s[1..]);
      JoinSplit(s[1..]);
      if s[0] == SLASH {
        assert ([[]] + r)[1..] == r;
      } else {
        var t := [[s[0]] + r[0]] + r[1..];
        assert t[1..] == r[1..];
        assert Join(t) == [s[0]] + Join(r);
      }
    }
  }

  lemma {:induction false} SplitSlashFree(seg: Bytes)
    requires SlashFree(seg)
    ensures Split(seg) == [seg]
  {
    if seg != [] {
      assert seg[0] in seg;
      forall x | x in seg[1..] ensures x in seg {}
      SplitSlashFree(seg[1..]);
      assert [seg[0]] + seg[1..] == seg;
    }
  }

  lemma {:induction false} SplitCons(seg: Bytes, rest: Bytes)
    requires SlashFree(seg)
    ensures Split(seg + [SLASH] + rest) == [seg] + Split(rest)
  {
    var s := seg + [SLASH] + rest;
    if seg == [] {
      assert s[1..] == rest;
    } else {
      assert seg[0] in seg;
      forall x | x in seg[1..] ensures x in seg {}
      assert s[1..] == seg[1..] + [SLASH] + rest;
      SplitCons(seg[1..], rest);
      assert [seg[0]] + seg[1..] == seg;
      assert ([seg[1..]] + Split(rest))[1..] == Split(rest);
    }
  }

  lemma {:induction false} SplitJoin(segs: seq<Bytes>)
    requires segs != [] && AllSlashFree(segs)
    ensures Split(Join(segs)) == segs
  {
    if |segs| == 1 {
      SplitSlashFree(segs[0]);
    } else {
      SplitJoin(segs[1..]);
      SplitCons(segs[0], Join(segs[1..]));
      assert [segs[0]] + segs[1..] == segs;
    }
  }

  /** A path with these segments. */
  function Abs(segs: seq<Bytes>): Bytes { [SLASH] + Join(segs) }

  function Each(f: Bytes -> Bytes, segs: seq<Bytes>): seq<Bytes> {
    seq(|segs|, i requires 0 <= i < |segs| => f(segs[i]))
  }

  // ---------------------------------------------------------------- percent encoding

  predicate IsHex(c: byte) { 0x30 <= c <= 0x39 || 0x41 <= c <= 0x46 || 0x61 <= c <= 0x66 }

  function HexValue(c: byte): (r: byte)
    ensures r < 16
  {
    if 0x30 <= c <= 0x39 then c - 0x30
    else if 0x41 <= c <= 0x46 then c - 0x37
    else if 0x61 <= c <= 0x66 then c - 0x57
    else 0
  }

  function HexDigit(v: byte): (c: byte)
    requires v < 16
    ensures IsHex(c) && HexValue(c) == v && c !in {PCT, SLASH, DOT}
  {
    if v < 10 then v + 0x30 else v + 0x37
  }

  predicate EscapeAt(s: Bytes, i: nat) {
    i + 2 < |s| && s[i] == PCT && IsHex(s[i + 1]) && IsHex(s[i + 2])
  }

  function EscapeValue(s: Bytes, i: nat): byte
    requires EscapeAt(s, i)
  {
    16 * HexValue(s[i + 1]) + HexValue(s[i + 2])
  }

  /** Every percent sign begins an escape. */
  predicate WellEscaped(s: Bytes) {
    forall i | 0 <= i < |s| && s[i] == PCT :: EscapeAt(s, i)
  }

  function Decode(s: Bytes): Bytes {
    if s == [] then []
    else if EscapeAt(s, 0) then [EscapeValue(s, 0)] + Decode(s[3..])
    else [s[0]] + Decode(s[1..])
  }

  function EncodeByte(b: byte, special: byte -> bool): Bytes {
    if special(b) then [PCT, HexDigit(b / 16), HexDigit(b % 16)] else [b]
  }

  function Encode(s: Bytes, special: byte -> bool): Bytes {
    if s == [] then [] else EncodeByte(s[0], special) + Encode(s[1..], special)
  }

  /** The percent-encoding of a URL parser, as a value. */
  function Encoder(special: byte -> bool): Bytes -> Bytes { s => Encode(s, special) }

  function LowerByte(c: byte): byte { if 0x41 <= c <= 0x5a then c + 0x20 else c }

  function Lower(s: Bytes): (r: Bytes)
    ensures |r| == |s| && forall i | 0 <= i < |s| :: r[i] == LowerByte(s[i])
  {
    seq(|s|, i requires 0 <= i < |s| => LowerByte(s[i]))
  }

  /** Characters and escapes a later hop would read differently. */
  predicate Structural(b: byte) {
    b in {0x2f, 0x5c, 0x3f, 0x23, 0x3b, 0x2e, 0x25, 0x7f} || b < 0x20
  }

  predicate HasStructuralEscape(s: Bytes) {
    exists i | 0 <= i < |s| :: EscapeAt(s, i) && Structural(EscapeValue(s, i))
  }

  predicate Splitting(b: byte) {
    b in {0x3f, 0x23, 0x3b, 0x5c, 0x7f} || b < 0x20
  }

  // ---------------------------------------------------------------- the URL parser's path

  predicate SingleDot(seg: Bytes) {
    seg == [DOT] || seg == [PCT, 0x32, 0x65] || seg == [PCT, 0x32, 0x45]
  }

  predicate DoubleDot(seg: Bytes) {
    exists i | 0 <= i <= |seg| :: SingleDot(seg[..i]) && SingleDot(seg[i..])
  }

  predicate Dots(seg: Bytes) { SingleDot(seg) || DoubleDot(seg) }

  /** Dot segments are resolved against the segments before them; at the end of the path they leave
      an empty segment. */
  function Resolve(done: seq<Bytes>, segs: seq<Bytes>): seq<Bytes>
    decreases |segs|
  {
    if segs == [] then done
    else
      var seg, last := segs[0], |segs| == 1;
      var kept := if DoubleDot(seg) then (if done == [] then [] else done[..|done| - 1])
                  else if SingleDot(seg) then done
                  else done + [seg];
      Resolve(if Dots(seg) && last then kept + [[]] else kept, segs[1..])
  }

  /** Control characters and spaces are stripped from the ends of a URL, */
  function StripStart(s: Bytes): Bytes { if s != [] && s[0] <= SPACE then StripStart(s[1..]) else s }
  function StripEnd(s: Bytes): Bytes { if s != [] && s[|s| - 1] <= SPACE then StripEnd(s[..|s| - 1]) else s }

  /** tabs and line ends are removed anywhere, */
  function RemoveBreaks(s: Bytes): Bytes {
    if s == [] then [] else (if s[0] in {0x09, 0x0a, 0x0d} then [] else [s[0]]) + RemoveBreaks(s[1..])
  }

  /** the path ends at the query or the fragment, and a backslash is a slash. */
  function PathPart(s: Bytes): Bytes {
    if s == [] || s[0] in {0x3f, 0x23} then []
    else [if s[0] == 0x5c then SLASH else s[0]] + PathPart(s[1..])
  }

  function UrlPath(s: Bytes): Bytes { PathPart(RemoveBreaks(StripEnd(StripStart(s)))) }

  /** `pathname` of `new URL(s, base)`. None when two slashes begin it: they name another host. */
  function Pathname(s: Bytes, env: Env): Option<Bytes> {
    var u := UrlPath(s);
    if |u| >= 2 && u[0] == SLASH && u[1] == SLASH then None
    else
      var body := if u != [] && u[0] == SLASH then u[1..] else u;
      Some(Abs(Each(Encoder(env.special), Resolve([], Split(body)))))
  }

  function Collapse(s: Bytes): (r: Bytes)
    ensures s != [] ==> r != []
  {
    if |s| < 2 then s
    else if s[0] == SLASH && s[1] == SLASH then Collapse(s[1..])
    else [s[0]] + Collapse(s[1..])
  }

  // ---------------------------------------------------------------- the guards' reading

  function TrimStart(s: Bytes): Bytes { if s != [] && s[0] == SPACE then TrimStart(s[1..]) else s }
  function TrimEnd(s: Bytes): Bytes { if s != [] && s[|s| - 1] == SPACE then TrimEnd(s[..|s| - 1]) else s }
  function Trim(s: Bytes): Bytes { TrimEnd(TrimStart(s)) }

  /** Dots with white space around them. */
  predicate PaddedDots(seg: Bytes) {
    seg != Trim(seg) && Trim(seg) != [] && forall i | 0 <= i < |Trim(seg)| :: Trim(seg)[i] == DOT
  }

  predicate AcceptsDecoded(p: Bytes) {
    && (forall i | 0 <= i < |p| :: !Splitting(p[i]))
    && !(p != [] && p[|p| - 1] == SPACE)
    && (forall i | 0 <= i < |Split(p)| :: !PaddedDots(Split(p)[i]))
  }

  predicate Accepts(path: Bytes, env: Env) {
    && !HasStructuralEscape(path)
    && WellEscaped(path) && env.utf8(Decode(path))
    && AcceptsDecoded(Decode(path))
  }

  function CanonicalPath(path: Bytes, env: Env): Option<Bytes> {
    if !Accepts(path, env) then None
    else
      var name := Pathname(Collapse([SLASH] + Decode(path)), env);
      if name.None? then None else Some(Lower(Collapse(name.value)))
  }

  predicate PlainByte(b: byte) {
    0x41 <= b <= 0x5a || 0x61 <= b <= 0x7a || 0x30 <= b <= 0x39 || b in {0x2f, 0x5f, 0x2e, 0x7e, 0x2d}
  }

  predicate IsPlainPath(path: Bytes) {
    (forall i | 0 <= i < |path| :: PlainByte(path[i]))
    && forall i | 0 <= i < |Split(path)| :: Split(path)[i] != [DOT] && Split(path)[i] != [DOT, DOT]
  }

  // ---------------------------------------------------------------- the hops

  /** `proxyRest` on what follows "/proxy/{id}". */
  function ProxyRest(after: Bytes): Bytes {
    var rest := Collapse(after);
    if rest != [] && rest[0] == SLASH then rest else [SLASH] + rest
  }

  const PROXY: Bytes := [0x70, 0x72, 0x6f, 0x78, 0x79]

  /** The gateway strips "/proxy/" and the session id off the path it has decoded. */
  function Downstream(path: Bytes): Option<(Bytes, Bytes)> {
    var segs := Split(path);
    if |segs| >= 4 && segs[0] == [] && segs[1] == PROXY then Some((segs[2], [SLASH] + Join(segs[3..]))) else None
  }

  /** No ".." in these segments is met at depth zero. */
  predicate Inside(depth: nat, segs: seq<Bytes>)
    decreases |segs|
  {
    segs == []
    || (if DoubleDot(segs[0]) then depth > 0 && Inside(depth - 1, segs[1..])
        else Inside(if SingleDot(segs[0]) then depth else depth + 1, segs[1..]))
  }

  /** The session and the path that reach opencode's router when the API forwards `rest` for session
      `id`: URL parse, decode, strip, URL parse, decode. */
  function Routed(id: Bytes, rest: Bytes, env: Env): Option<(Bytes, Bytes)> {
    var sent := Pathname(Abs([PROXY, id]) + rest, env);
    var d := if sent.None? then None else Downstream(Decode(sent.value));
    var name := if d.None? then None else Pathname(d.value.1, env);
    if name.None? then None else Some((d.value.0, Decode(name.value)))
  }
}

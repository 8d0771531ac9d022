/** The lexer of a command's arguments (api/src/command-arguments.ts) and what a command's template
    makes of them. */
module Arguments {

  // ---------------------------------------------------------------- characters

  predicate IsSpace(c: char) {
    var n := c as int;
    9 <= n <= 13 || n in {0x20, 0xa0, 0x1680, 0x2028, 0x2029, 0x202f, 0x205f, 0x3000, 0xfeff} || 0x2000 <= n <= 0x200a
  }

  predicate IsQuote(c: char) { c == '"' || c == '\'' }

  predicate IsDigit(c: char) { '0' <= c <= '9' }

  /** [^\s"'] */
  predicate IsPlain(c: char) { !IsSpace(c) && !IsQuote(c) }

  predicate Same(c: char, upper: char, lower: char) { c == upper || c == lower }

  // ---------------------------------------------------------------- one match

  function SpacesEnd(s: string, i: nat): (j: nat)
    requires i <= |s|
    ensures i <= j <= |s|
    decreases |s| - i
  {
    if i < |s| && IsSpace(s[i]) then SpacesEnd(s, i + 1) else i
  }

  function DigitsEnd(s: string, i: nat): (j: nat)
    requires i <= |s|
    ensures i <= j <= |s|
    decreases |s| - i
  {
    if i < |s| && IsDigit(s[i]) then DigitsEnd(s, i + 1) else i
  }

  /** [^\s"']+ takes the whole run. */
  function PlainEnd(s: string, i: nat): (j: nat)
    requires i <= |s|
    ensures i <= j <= |s|
    ensures j > i <==> i < |s| && IsPlain(s[i])
    ensures j < |s| ==> !IsPlain(s[j])
    ensures forall k | i <= k < j :: IsPlain(s[k])
    decreases |s| - i
  {
    if i < |s| && IsPlain(s[i]) then PlainEnd(s, i + 1) else i
  }

  /** The first place at or after i that holds c, or the end. */
  function Find(s: string, i: nat, c: char): (j: nat)
    requires i <= |s|
    ensures i <= j <= |s| && (j < |s| ==> s[j] == c)
    ensures forall k | i <= k < j :: s[k] != c
    decreases |s| - i
  {
    if i < |s| && s[i] != c then Find(s, i + 1, c) else i
  }

  /** "[Image 12]" at i, in any case: where it ends, or i. */
  function ImageEnd(s: string, i: nat): (j: nat)
    requires i <= |s|
    ensures i <= j <= |s|
    ensures j > i ==> s[i] == '[' && j >= i + 2 && s[j - 1] == ']'
  {
    if i + 6 <= |s| && s[i] == '[' && Same(s[i + 1], 'I', 'i') && Same(s[i + 2], 'M', 'm')
       && Same(s[i + 3], 'A', 'a') && Same(s[i + 4], 'G', 'g') && Same(s[i + 5], 'E', 'e')
    then
      var sp := SpacesEnd(s, i + 6);
      var dg := DigitsEnd(s, sp);
      if sp > i + 6 && dg > sp && dg < |s| && s[dg] == ']' then dg + 1 else i
    else i
  }

  /** Where the match of the arguments' pattern at i ends; i when there is none. The alternatives
      are tried in order: image, double quotes, single quotes, a run of other characters. */
  function MatchEnd(s: string, i: nat): (j: nat)
    requires i <= |s|
    ensures i <= j <= |s|
  {
    if i == |s| then i
    else if ImageEnd(s, i) > i then ImageEnd(s, i)
    else if IsQuote(s[i]) then
      var q := Find(s, i + 1, s[i]);
      if q < |s| then q + 1 else i
    else PlainEnd(s, i)
  }

  /** s[from..upto] */
  datatype Span = Span(from: nat, upto: nat)

  predicate In(span: Span, s: string) { span.from <= span.upto <= |s| }

  function Text(s: string, span: Span): string
    requires In(span, s)
  {
    s[span.from..span.upto]
  }

  /** All matches from i on, leftmost first. */
  function Matches(s: string, i: nat): (r: seq<Span>)
    requires i <= |s|
    ensures forall k | 0 <= k < |r| :: i <= r[k].from && In(r[k], s)
    decreases |s| - i
  {
    if i == |s| then []
    else
      var j := MatchEnd(s, i);
      if j > i then [Span(i, j)] + Matches(s, j) else Matches(s, i + 1)
  }

  /** One quote is dropped from each end. */
  function Trim(s: string, span: Span): (r: Span)
    requires In(span, s)
    ensures In(r, s) && span.from <= r.from && r.upto <= span.upto
  {
    var a := if span.from < span.upto && IsQuote(s[span.from]) then span.from + 1 else span.from;
    var b := if a < span.upto && IsQuote(s[span.upto - 1]) then span.upto - 1 else span.upto;
    Span(a, b)
  }

  function Tokens(s: string): (r: seq<Span>)
    ensures forall k | 0 <= k < |r| :: In(r[k], s)
  {
    var m := Matches(s, 0);
    seq(|m|, k requires 0 <= k < |m| => Trim(s, m[k]))
  }

  /** The strings that fill $1, $2, ... */
  function ArgumentTokens(s: string): (r: seq<string>)
    ensures |r| == |Tokens(s)|
  {
    seq(|Tokens(s)|, k requires 0 <= k < |Tokens(s)| => Text(s, Tokens(s)[k]))
  }

  // ---------------------------------------------------------------- what the lexer keeps

  predicate Covered(matches: seq<Span>, k: nat) { exists m | m in matches :: m.from <= k < m.upto }

  /** A quote after which the same quote never comes again. */
  predicate Unpaired(s: string, k: nat)
    requires k < |s|
  {
    IsQuote(s[k]) && forall l | k < l < |s| :: s[l] != s[k]
  }

  lemma NoMatchHere(s: string, i: nat)
    requires i < |s| && MatchEnd(s, i) == i
    ensures IsSpace(s[i]) || Unpaired(s, i)
  {}

  /** What no match covers is white space or an unpaired quote, and nothing else. */
  lemma {:induction false} NothingElseSkipped(s: string, i: nat, k: nat)
    requires i <= k < |s|
    ensures !Covered(Matches(s, i), k) ==> IsSpace(s[k]) || Unpaired(s, k)
    decreases |s| - i
  {
    hide MatchEnd, IsSpace, Unpaired;
    var j := MatchEnd(s, i);
    if j > i {
      assert Matches(s, i) == [Span(i, j)] + Matches(s, j);
      if k < j {
        assert Matches(s, i)[0] == Span(i, j);
      } else {
        NothingElseSkipped(s, j, k);
        assert forall m | m in Matches(s, j) :: m in Matches(s, i);
      }
    } else if k > i {
      NothingElseSkipped(s, i + 1, k);
    } else {
      NoMatchHere(s, i);
    }
  }

  /** Matches do not overlap and keep their order. */
  lemma {:induction false} MatchesInOrder(s: string, i: nat, k: nat, l: nat)
    requires i <= |s| && k < l < |Matches(s, i)|
    ensures Matches(s, i)[k].upto <= Matches(s, i)[l].from
    decreases |s| - i
  {
    hide MatchEnd;
    var j := MatchEnd(s, i);
    if j > i {
      assert Matches(s, i) == [Span(i, j)] + Matches(s, j);
      if k > 0 {
        MatchesInOrder(s, j, k - 1, l - 1);
      }
    } else {
      assert Matches(s, i) == Matches(s, i + 1);
      MatchesInOrder(s, i + 1, k, l);
    }
  }

  /** A place before which the arguments have nothing, white space, a quote or a bracket. */
  predicate Cut(s: string, i: nat)
    requires i <= |s|
  {
    i > 0 ==> IsSpace(s[i - 1]) || IsQuote(s[i - 1]) || s[i - 1] == ']'
  }

  /** Where the scan can stand. */
  predicate Boundary(s: string, i: nat)
    requires i <= |s|
  {
    Cut(s, i) || (i < |s| ==> !IsPlain(s[i]))
  }

  lemma {:induction false} MatchesCut(s: string, i: nat, k: nat)
    requires i <= |s| && Boundary(s, i) && k < |Matches(s, i)|
    ensures Cut(s, Trim(s, Matches(s, i)[k]).from)
    decreases |s| - i
  {
    var j := MatchEnd(s, i);
    if j > i {
      if k > 0 {
        MatchesCut(s, j, k - 1);
      }
    } else {
      MatchesCut(s, i + 1, k);
    }
  }

  /** No token begins in the middle of a word of the arguments. */
  lemma TokensCut(s: string, k: nat)
    requires k < |Tokens(s)|
    ensures Cut(s, Tokens(s)[k].from)
  {
    MatchesCut(s, 0, k);
  }

  // ---------------------------------------------------------------- templates

  /** A command's template: its own text, $ARGUMENTS, $i, and the last $i, which takes every token
      from there on. */
  datatype Part = Lit(text: string) | Whole | Token(i: nat) | Rest(i: nat)

  /** What a part becomes: text of the template, or a span of the arguments. */
  datatype Fragment = Given(text: string) | Taken(span: Span)

  function Joined(spans: seq<Span>): (r: seq<Fragment>)
  {
    if spans == [] then []
    else if |spans| == 1 then [Taken(spans[0])]
    else [Taken(spans[0]), Given(" ")] + Joined(spans[1..])
  }

  /** Every span once, in order, with one blank between neighbours. */
  lemma {:induction false} JoinedAlternates(spans: seq<Span>, k: nat)
    requires k < |spans|
    ensures |Joined(spans)| == 2 * |spans| - 1
    ensures Joined(spans)[2 * k] == Taken(spans[k]) && (k > 0 ==> Joined(spans)[2 * k - 1] == Given(" "))
  {
    if |spans| > 1 {
      JoinedAlternates(spans[1..], if k == 0 then 0 else k - 1);
    }
  }

  function Fragments(part: Part, args: string): seq<Fragment> {
    match part
    case Lit(t) => [Given(t)]
    case Whole => [Taken(Span(0, |args|))]
    case Token(i) => if i < |Tokens(args)| then [Taken(Tokens(args)[i])] else []
    case Rest(i) => if i < |Tokens(args)| then Joined(Tokens(args)[i..]) else []
  }

  function Filled(template: seq<Part>, args: string): seq<Fragment> {
    if template == [] then [] else Fragments(template[0], args) + Filled(template[1..], args)
  }

  /** A character of the expansion, and whether it came from the arguments. */
  datatype Mark = Mark(c: char, inserted: bool)

  function Marked(s: string, inserted: bool): (r: seq<Mark>)
    ensures |r| == |s| && forall k | 0 <= k < |s| :: r[k] == Mark(s[k], inserted)
  {
    seq(|s|, k requires 0 <= k < |s| => Mark(s[k], inserted))
  }

  predicate Within(f: Fragment, args: string) { f.Taken? ==> In(f.span, args) }

  function One(f: Fragment, args: string): seq<Mark>
    requires Within(f, args)
  {
    match f
    case Given(t) => Marked(t, false)
    case Taken(span) => Marked(Text(args, span), true)
  }

  function Spell(fs: seq<Fragment>, args: string): seq<Mark>
    requires forall f | f in fs :: Within(f, args)
  {
    if fs == [] then [] else One(fs[0], args) + Spell(fs[1..], args)
  }

  /** A fragment holds template text, the whole arguments, or one token. */
  predicate Proper(f: Fragment, args: string) {
    match f
    case Given(_) => true
    case Taken(span) => span == Span(0, |args|) || span in Tokens(args)
  }

  lemma {:induction false} JoinedProper(spans: seq<Span>, args: string)
    requires forall x | x in spans :: x in Tokens(args)
    ensures forall f | f in Joined(spans) :: Proper(f, args)
  {
    if |spans| > 1 {
      JoinedProper(spans[1..], args);
    }
  }

  lemma {:induction false} FilledProper(template: seq<Part>, args: string)
    ensures forall f | f in Filled(template, args) :: Proper(f, args) && Within(f, args)
  {
    if template != [] {
      FilledProper(template[1..], args);
      if template[0].Rest? && template[0].i < |Tokens(args)| {
        JoinedProper(Tokens(args)[template[0].i..], args);
      }
    }
  }

  /** The text of a command: its template with the arguments filled in. */
  function Expand(template: seq<Part>, args: string): seq<Mark> {
    FilledProper(template, args);
    Spell(Filled(template, args), args)
  }

  lemma ExpandOne(part: Part, span: Span, tail: string, args: string)
    requires In(span, args) && Fragments(part, args) == [Taken(span)]
    ensures Expand([part, Lit(tail)], args) == Marked(Text(args, span), true) + Marked(tail, false)
  {
    var t := [part, Lit(tail)];
    assert t[1..] == [Lit(tail)] && t[1..][1..] == [];
    assert Filled(t[1..], args) == [Given(tail)] + Filled([], args);
    assert Filled(t, args) == [Taken(span), Given(tail)];
    var fs := Filled(t, args);
    FilledProper(t, args);
    assert fs[1..] == [Given(tail)];
    assert [Given(tail)][1..] == [];
    assert Spell([Given(tail)], args) == Marked(tail, false) + Spell([], args);
    assert Spell(fs, args) == Marked(Text(args, span), true) + Spell(fs[1..], args);
  }
}

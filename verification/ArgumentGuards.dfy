/** The two guards on a command's arguments, against every template the arguments may fill:
    api/src/shell-guard.ts and api/src/download-guard.ts. */
module ArgumentGuards {
  import opened Arguments

  predicate EndsIn(s: string, c: char) { s != [] && s[|s| - 1] == c }

  /** The whole arguments or one token: what a placeholder can insert. */
  predicate Insertable(args: string, span: Span) { span == Span(0, |args|) || span in Tokens(args) }

  lemma InsertableIn(args: string, span: Span)
    requires Insertable(args, span)
    ensures In(span, args) && Cut(args, span.from)
  {
    if span in Tokens(args) {
      var k :| 0 <= k < |Tokens(args)| && Tokens(args)[k] == span;
      TokensCut(args, k);
    }
  }

  /** The part that inserts a span. */
  lemma Inserts(args: string, span: Span) returns (part: Part)
    requires Insertable(args, span)
    ensures Fragments(part, args) == [Taken(span)]
  {
    if span == Span(0, |args|) {
      part := Whole;
    } else {
      var k :| 0 <= k < |Tokens(args)| && Tokens(args)[k] == span;
      part := Token(k);
    }
  }

  // ---------------------------------------------------------------- shell commands

  /** Where a shell command of a command's text would begin. */
  predicate ShellMark(s: string, k: nat) { k + 1 < |s| && s[k] == '!' && s[k + 1] == '`' }

  predicate MayRunShell(args: string) {
    || (exists k | 0 <= k < |args| :: ShellMark(args, k))
    || EndsIn(args, '!')
    || (exists k | 0 <= k < |ArgumentTokens(args)| :: EndsIn(ArgumentTokens(args)[k], '!'))
  }

  /** A shell command begins at a character that came from the arguments. */
  predicate InsertedShell(text: seq<Mark>, k: nat) {
    k + 1 < |text| && text[k] == Mark('!', true) && text[k + 1].c == '`'
  }

  /** No "!" of the text can begin a shell command, whatever follows the text. */
  predicate Silent(t: string) {
    forall q | 0 <= q < |t| && t[q] == '!' :: q + 1 < |t| && t[q + 1] != '`'
  }

  lemma InsertableSilent(args: string, span: Span)
    requires !MayRunShell(args) && Insertable(args, span) && In(span, args)
    ensures Silent(Text(args, span))
  {
    var t := Text(args, span);
    forall q | 0 <= q < |t| && t[q] == '!' ensures q + 1 < |t| && t[q + 1] != '`' {
      assert !ShellMark(args, span.from + q);
      if span in Tokens(args) {
        var k :| 0 <= k < |Tokens(args)| && Tokens(args)[k] == span;
        assert ArgumentTokens(args)[k] == t;
      }
    }
  }

  lemma {:induction false} NoShellSpelled(fs: seq<Fragment>, args: string)
    requires forall f | f in fs :: Within(f, args) && (f.Taken? ==> Silent(Text(args, f.span)))
    ensures forall k: nat :: !InsertedShell(Spell(fs, args), k)
  {
    if fs != [] {
      var one, rest := One(fs[0], args), Spell(fs[1..], args);
      NoShellSpelled(fs[1..], args);
      forall k: nat | k + 1 < |one + rest| ensures !InsertedShell(one + rest, k) {
        if k >= |one| {
          assert !InsertedShell(rest, k - |one|);
        }
      }
    }
  }

  /** The guard is exact: it refuses the arguments that, in some template, begin a shell command
      in inserted text, and no others. */
  lemma ShellGuardIsExact(args: string)
    ensures MayRunShell(args) <==>
            exists template: seq<Part>, k: nat :: InsertedShell(Expand(template, args), k)
  {
    if MayRunShell(args) {
      var whole := Span(0, |args|);
      if k :| 0 <= k < |args| && ShellMark(args, k) {
        ShellShown(args, whole, k, "");
      } else if EndsIn(args, '!') {
        ShellShown(args, whole, |args| - 1, "`");
      } else {
        var k :| 0 <= k < |ArgumentTokens(args)| && EndsIn(ArgumentTokens(args)[k], '!');
        ShellShown(args, Tokens(args)[k], |ArgumentTokens(args)[k]| - 1, "`");
      }
    } else {
      forall template: seq<Part>, k: nat ensures !InsertedShell(Expand(template, args), k) {
        var fs := Filled(template, args);
        FilledProper(template, args);
        forall f | f in fs ensures f.Taken? ==> Silent(Text(args, f.span)) {
          if f.Taken? {
            InsertableSilent(args, f.span);
          }
        }
        NoShellSpelled(fs, args);
      }
    }
  }

  lemma ShellShown(args: string, span: Span, k: nat, tail: string)
    requires Insertable(args, span) && In(span, args) && k < |Text(args, span)|
    requires ShellMark(Text(args, span) + tail, k)
    ensures exists template: seq<Part>, k: nat :: InsertedShell(Expand(template, args), k)
  {
    var part := Inserts(args, span);
    ExpandOne(part, span, tail, args);
    var t := Text(args, span);
    assert (t + tail)[k] == t[k];
    assert InsertedShell(Expand([part, Lit(tail)], args), k);
  }

  // ---------------------------------------------------------------- file references

  predicate IsWord(c: char) { 'A' <= c <= 'Z' || 'a' <= c <= 'z' || '0' <= c <= '9' || c == '_' }

  /** The lookbehind: no word character and no backtick before k. */
  predicate Loose(s: string, k: nat)
    requires k <= |s|
  {
    k > 0 ==> !IsWord(s[k - 1]) && s[k - 1] != '`'
  }

  predicate AtSign(s: string, k: nat) { k < |s| && s[k] == '@' && Loose(s, k) }

  /** [^\s`,.] */
  predicate IsName(c: char) { !IsSpace(c) && c != '`' && c != ',' && c != '.' }

  function NameEnd(s: string, i: nat): (j: nat)
    requires i <= |s|
    ensures i <= j <= |s| && (j > i <==> i < |s| && IsName(s[i]))
    decreases |s| - i
  {
    if i < |s| && IsName(s[i]) then NameEnd(s, i + 1) else i
  }

  /** (?:\.[^\s`,.]+)* */
  function DottedEnd(s: string, i: nat): (j: nat)
    requires i <= |s|
    ensures i <= j <= |s|
    decreases |s| - i
  {
    if i < |s| && s[i] == '.' && NameEnd(s, i + 1) > i + 1 then DottedEnd(s, NameEnd(s, i + 1)) else i
  }

  /** Where the path after the "@" at k ends. */
  function PathEnd(s: string, k: nat): (j: nat)
    requires k < |s|
    ensures k < j <= |s|
    ensures j > k + 1 <==> k + 1 < |s| && (IsName(s[k + 1]) || s[k + 1] == '.')
  {
    var i := if k + 1 < |s| && s[k + 1] == '.' then k + 2 else k + 1;
    DottedEnd(s, NameEnd(s, i))
  }

  /** All matches of the file pattern from i on. They do not overlap. */
  function FileMatches(s: string, i: nat): (r: seq<Span>)
    requires i <= |s|
    ensures forall m | m in r :: i <= m.from && AtSign(s, m.from) && m.upto == PathEnd(s, m.from)
    decreases |s| - i
  {
    if i == |s| then []
    else if AtSign(s, i) then [Span(i, PathEnd(s, i))] + FileMatches(s, PathEnd(s, i))
    else FileMatches(s, i + 1)
  }

  /** A match that holds a path begins at k. */
  predicate ReferenceAt(s: string, k: nat) {
    k < |s| && Span(k, PathEnd(s, k)) in FileMatches(s, 0) && PathEnd(s, k) > k + 1
  }

  predicate HasFileReference(s: string) { exists k | 0 <= k < |s| :: ReferenceAt(s, k) }

  predicate MayReferenceFile(args: string) {
    || HasFileReference(args)
    || EndsIn(args, '@')
    || (exists k | 0 <= k < |ArgumentTokens(args)| :: EndsIn(ArgumentTokens(args)[k], '@'))
  }

  /** An "@" that would begin a path, were it not inside an earlier match. */
  predicate Candidate(s: string, k: nat) { AtSign(s, k) && PathEnd(s, k) > k + 1 }

  lemma {:induction false} ScanMeets(s: string, i: nat, k: nat) returns (m: nat)
    requires i <= k && Candidate(s, k)
    ensures i <= m <= k && Candidate(s, m) && Span(m, PathEnd(s, m)) in FileMatches(s, i)
    decreases |s| - i
  {
    if AtSign(s, i) {
      if PathEnd(s, i) > i + 1 || i == k {
        m := i;
      } else {
        m := ScanMeets(s, i + 1, k);
      }
    } else {
      m := ScanMeets(s, i + 1, k);
    }
  }

  /** Matches that do not overlap still leave no text with a candidate without a reference. */
  lemma ReferenceIffCandidate(s: string)
    ensures HasFileReference(s) <==> exists k: nat :: Candidate(s, k)
    ensures forall k: nat :: ReferenceAt(s, k) ==> Candidate(s, k)
  {
    if k: nat :| Candidate(s, k) {
      var m := ScanMeets(s, 0, k);
      assert ReferenceAt(s, m);
    }
    if k :| 0 <= k < |s| && ReferenceAt(s, k) {
      assert Candidate(s, k);
    }
  }

  function Chars(text: seq<Mark>): (s: string)
    ensures |s| == |text| && forall k | 0 <= k < |s| :: s[k] == text[k].c
  {
    seq(|text|, k requires 0 <= k < |text| => text[k].c)
  }

  /** A file reference of the expansion begins at a character that came from the arguments. */
  predicate InsertedReference(text: seq<Mark>, k: nat) {
    k < |text| && text[k].inserted && ReferenceAt(Chars(text), k)
  }

  /** Text whose last "@" a template could turn into a reference. */
  predicate Dangling(t: string) { t != [] && AtSign(t, |t| - 1) }

  /** No "@" of the text can begin a reference, whatever follows the text. */
  predicate Quiet(t: string) {
    forall q | 0 <= q < |t| && t[q] == '@' ::
      !Loose(t, q) || (q + 1 < |t| && !IsName(t[q + 1]) && t[q + 1] != '.')
  }

  lemma CutIsLoose(s: string, i: nat)
    requires i <= |s| && Cut(s, i)
    ensures Loose(s, i)
  {}

  lemma InsertableQuiet(args: string, span: Span)
    requires !HasFileReference(args) && Insertable(args, span) && In(span, args) && !Dangling(Text(args, span))
    ensures Quiet(Text(args, span))
  {
    hide IsSpace, IsName, Tokens, Cut, HasFileReference;
    var t := Text(args, span);
    InsertableIn(args, span);
    CutIsLoose(args, span.from);
    ReferenceIffCandidate(args);
    forall q | 0 <= q < |t| && t[q] == '@' && Loose(t, q)
      ensures q + 1 < |t| && !IsName(t[q + 1]) && t[q + 1] != '.'
    {
      assert !Candidate(args, span.from + q);
      assert Loose(args, span.from + q);
    }
  }

  lemma {:induction false} NoReferenceSpelled(fs: seq<Fragment>, args: string)
    requires forall f | f in fs :: Within(f, args) && (f.Taken? ==> Quiet(Text(args, f.span)))
    ensures forall k: nat | k < |Spell(fs, args)| && Spell(fs, args)[k].inserted ::
              !Candidate(Chars(Spell(fs, args)), k)
  {
    if fs != [] {
      var one, rest := One(fs[0], args), Spell(fs[1..], args);
      NoReferenceSpelled(fs[1..], args);
      var text: seq<Mark> := one + rest;
      var all := Chars(text);
      forall k: nat | k < |text| && text[k].inserted ensures !Candidate(all, k) {
        if k >= |one| {
          assert Chars(one) + Chars(rest) == all;
        } else {
          var t := Text(args, fs[0].span);
          assert forall q | 0 <= q < |t| :: all[q] == t[q];
          assert all[k] == t[k];
          assert Loose(all, k) == Loose(t, k);
        }
      }
    }
  }

  lemma ReferenceShown(args: string, span: Span, k: nat, tail: string)
    requires Insertable(args, span) && In(span, args) && '@' !in tail
    requires Candidate(Text(args, span) + tail, k)
    ensures exists template: seq<Part>, k: nat :: InsertedReference(Expand(template, args), k)
  {
    var t := Text(args, span);
    var part := Inserts(args, span);
    ExpandOne(part, span, tail, args);
    var text := Expand([part, Lit(tail)], args);
    assert Chars(text) == t + tail;
    forall i | |t| <= i < |t + tail| ensures (t + tail)[i] != '@' {
      assert tail[i - |t|] in tail;
    }
    var m := ScanMeets(t + tail, 0, k);
    assert ReferenceAt(Chars(text), m);
    assert InsertedReference(text, m);
  }

  lemma DanglingShown(args: string, span: Span)
    requires Insertable(args, span) && In(span, args) && Dangling(Text(args, span))
    ensures exists template: seq<Part>, k: nat :: InsertedReference(Expand(template, args), k)
  {
    var t := Text(args, span);
    var k := |t| - 1;
    assert (t + "x")[k] == t[k] && (t + "x")[k + 1] == 'x';
    assert k > 0 ==> (t + "x")[k - 1] == t[k - 1];
    assert IsName('x');
    ReferenceShown(args, span, k, "x");
  }

  /** Which arguments can begin a file reference: those that hold one, or end, as a whole or in a
      token, in an "@" no word character or backtick precedes. */
  lemma ReferencesReachable(args: string)
    ensures (exists template: seq<Part>, k: nat :: InsertedReference(Expand(template, args), k)) <==>
            HasFileReference(args)
            || exists span :: Insertable(args, span) && In(span, args) && Dangling(Text(args, span))
  {
    if HasFileReference(args) {
      ReferenceIffCandidate(args);
      var k: nat :| Candidate(args, k);
      assert Text(args, Span(0, |args|)) + "" == args;
      ReferenceShown(args, Span(0, |args|), k, "");
    } else if span :| Insertable(args, span) && In(span, args) && Dangling(Text(args, span)) {
      DanglingShown(args, span);
    } else {
      forall template: seq<Part>, k: nat ensures !InsertedReference(Expand(template, args), k) {
        var fs := Filled(template, args);
        FilledProper(template, args);
        forall f | f in fs ensures f.Taken? ==> Quiet(Text(args, f.span)) {
          if f.Taken? {
            InsertableQuiet(args, f.span);
          }
        }
        NoReferenceSpelled(fs, args);
        ReferenceIffCandidate(Chars(Expand(template, args)));
      }
    }
  }

  lemma DanglingRefused(args: string, span: Span)
    requires Insertable(args, span) && In(span, args) && Dangling(Text(args, span))
    ensures MayReferenceFile(args)
  {
    if span in Tokens(args) {
      var i :| 0 <= i < |Tokens(args)| && Tokens(args)[i] == span;
      assert ArgumentTokens(args)[i] == Text(args, span);
    }
  }

  /** Arguments the guard lets through begin no file reference in any template. */
  lemma FileGuardHolds(args: string, template: seq<Part>, k: nat)
    ensures InsertedReference(Expand(template, args), k) ==> MayReferenceFile(args)
  {
    ReferencesReachable(args);
    if span :| Insertable(args, span) && In(span, args) && Dangling(Text(args, span)) {
      DanglingRefused(args, span);
    }
  }

  /** Text that ends in an "@" no template can turn into a reference: a word character or a backtick is
      before it. */
  predicate TightEnd(t: string) { EndsIn(t, '@') && |t| >= 2 && (IsWord(t[|t| - 2]) || t[|t| - 2] == '`') }

  lemma AtEnds(args: string, span: Span)
    requires Insertable(args, span) && In(span, args) && EndsIn(Text(args, span), '@')
    ensures MayReferenceFile(args) && (Dangling(Text(args, span)) || TightEnd(Text(args, span)))
  {
    if span in Tokens(args) {
      var i :| 0 <= i < |Tokens(args)| && Tokens(args)[i] == span;
      assert ArgumentTokens(args)[i] == Text(args, span);
    }
  }

  /** What the guard refuses, exactly: arguments that can begin a reference in some template, and those
      that, as a whole or in a token, end in an "@" right after a word character or a backtick. */
  lemma RefusedExactly(args: string)
    ensures MayReferenceFile(args) <==>
            || (exists template: seq<Part>, k: nat :: InsertedReference(Expand(template, args), k))
            || (exists span :: Insertable(args, span) && In(span, args) && TightEnd(Text(args, span)))
  {
    hide Tokens, InsertedReference, HasFileReference, Dangling, TightEnd;
    ReferencesReachable(args);
    if exists template: seq<Part>, k: nat :: InsertedReference(Expand(template, args), k) {
      var template: seq<Part>, k: nat :| InsertedReference(Expand(template, args), k);
      FileGuardHolds(args, template, k);
    } else if MayReferenceFile(args) {
      var span := EndingSpan(args);
      AtEnds(args, span);
    }
    if span :| Insertable(args, span) && In(span, args) && TightEnd(Text(args, span)) {
      assert EndsIn(Text(args, span), '@') by { TightIsEnd(Text(args, span)); }
      AtEnds(args, span);
    }
  }

  lemma TightIsEnd(t: string)
    requires TightEnd(t)
    ensures EndsIn(t, '@')
  {}

  lemma EndingSpan(args: string) returns (span: Span)
    requires MayReferenceFile(args) && !HasFileReference(args)
    ensures Insertable(args, span) && In(span, args) && EndsIn(Text(args, span), '@')
  {
    if EndsIn(args, '@') {
      span := Span(0, |args|);
      assert Text(args, span) == args;
    } else {
      var k :| 0 <= k < |ArgumentTokens(args)| && EndsIn(ArgumentTokens(args)[k], '@');
      span := Tokens(args)[k];
    }
  }

  /** The guard refuses more than it must: "u@" begins no reference in any template. */
  lemma RefusedInVain(template: seq<Part>, k: nat)
    ensures MayReferenceFile("u@") && !InsertedReference(Expand(template, "u@"), k)
  {
    var args := "u@";
    assert EndsIn(args, '@');
    forall k: nat ensures !Candidate(args, k) {
      assert k == 1 ==> !Loose(args, k);
    }
    ReferenceIffCandidate(args);
    assert forall span | Insertable(args, span) && In(span, args) :: !Dangling(Text(args, span));
    ReferencesReachable(args);
  }
}

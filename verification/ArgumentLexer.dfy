/** What the matches of the arguments' pattern are, said without the lexer: leftmost, the alternatives
    in order, each as long as it can be. */
module ArgumentLexer {
  import opened Arguments

  // ---------------------------------------------------------------- the four alternatives

  predicate Blank(s: string, i: nat, j: nat) { i < j <= |s| && forall k | i <= k < j :: IsSpace(s[k]) }

  predicate Number(s: string, i: nat, j: nat) { i < j <= |s| && forall k | i <= k < j :: IsDigit(s[k]) }

  /** "[Image" in any case. */
  predicate ImageWord(s: string, i: nat) {
    && i + 6 <= |s| && s[i] == '[' && s[i + 1] in "Ii" && s[i + 2] in "Mm" && s[i + 3] in "Aa" && s[i + 4] in "Gg"
    && s[i + 5] in "Ee"
  }

  /** s[i..j] is "[Image", white space, digits and "]". */
  ghost predicate IsImage(s: string, i: nat, j: nat) { exists m: nat :: ImageParts(s, i, m, j) }

  predicate ImageParts(s: string, i: nat, m: nat, j: nat) {
    ImageWord(s, i) && Blank(s, i + 6, m) && m < j <= |s| && Number(s, m, j - 1) && s[j - 1] == ']'
  }

  /** s[i..j] is text in quotes q that holds no such quote. */
  predicate IsQuoted(s: string, i: nat, j: nat, q: char) {
    i + 2 <= j <= |s| && s[i] == q == s[j - 1] && forall k | i < k < j - 1 :: s[k] != q
  }

  /** s[i..j] is a run of other characters that cannot be extended. */
  predicate IsRun(s: string, i: nat, j: nat) {
    i < j <= |s| && (forall k | i <= k < j :: IsPlain(s[k])) && (j < |s| ==> !IsPlain(s[j]))
  }

  /** The pattern matches s[i..j] at i. */
  ghost predicate MatchesAt(s: string, i: nat, j: nat) {
    || IsImage(s, i, j)
    || ((forall k: nat :: !IsImage(s, i, k)) && (IsQuoted(s, i, j, '"') || IsQuoted(s, i, j, '\'') || IsRun(s, i, j)))
  }

  // ---------------------------------------------------------------- one match

  lemma {:induction false} SpacesEndIs(s: string, i: nat)
    requires i <= |s|
    ensures forall k | i <= k < SpacesEnd(s, i) :: IsSpace(s[k])
    ensures SpacesEnd(s, i) < |s| ==> !IsSpace(s[SpacesEnd(s, i)])
    decreases |s| - i
  {
    if i < |s| && IsSpace(s[i]) {
      SpacesEndIs(s, i + 1);
    }
  }

  lemma {:induction false} DigitsEndIs(s: string, i: nat)
    requires i <= |s|
    ensures forall k | i <= k < DigitsEnd(s, i) :: IsDigit(s[k])
    ensures DigitsEnd(s, i) < |s| ==> !IsDigit(s[DigitsEnd(s, i)])
    decreases |s| - i
  {
    if i < |s| && IsDigit(s[i]) {
      DigitsEndIs(s, i + 1);
    }
  }

  lemma ImageEndIs(s: string, i: nat, j: nat)
    requires i <= |s|
    ensures IsImage(s, i, j) <==> j > i && j == ImageEnd(s, i)
  {
    if ImageWord(s, i) {
      var sp := SpacesEnd(s, i + 6);
      var dg := DigitsEnd(s, sp);
      SpacesEndIs(s, i + 6);
      DigitsEndIs(s, sp);
      if IsImage(s, i, j) {
        var m: nat :| ImageParts(s, i, m, j);
        SpacesOnce(s, i + 6, m, sp);
        assert !IsDigit(s[j - 1]) && (forall k | sp <= k < j - 1 :: IsDigit(s[k]));
        assert dg == j - 1;
      }
      if j > i && j == ImageEnd(s, i) {
        assert ImageParts(s, i, sp, j);
      }
    }
  }

  /** White space that is followed by a digit ends there. */
  lemma SpacesOnce(s: string, i: nat, m: nat, sp: nat)
    requires Blank(s, i, m) && m < |s| && IsDigit(s[m]) && i <= sp <= |s|
    requires forall k | i <= k < sp :: IsSpace(s[k])
    requires sp < |s| ==> !IsSpace(s[sp])
    ensures sp == m
  {}

  /** The lexer's match is the pattern's, and there is no other. */
  lemma MatchEndIs(s: string, i: nat, j: nat)
    requires i <= |s|
    ensures MatchesAt(s, i, j) <==> j > i && j == MatchEnd(s, i)
  {
    hide IsImage, ImageEnd, IsSpace;
    ImageEndIs(s, i, j);
    ImageEndIs(s, i, ImageEnd(s, i));
    if ImageEnd(s, i) == i {
      forall k: nat ensures !IsImage(s, i, k) {
        ImageEndIs(s, i, k);
      }
      QuotesOrRun(s, i, j);
    }
  }

  lemma QuotesOrRun(s: string, i: nat, j: nat)
    requires i <= |s| && ImageEnd(s, i) == i
    ensures IsQuoted(s, i, j, '"') || IsQuoted(s, i, j, '\'') || IsRun(s, i, j) <==> j > i && j == MatchEnd(s, i)
  {
    hide ImageEnd, IsSpace;
    if i < |s| && IsQuote(s[i]) {
      var q := Find(s, i + 1, s[i]);
      if IsQuoted(s, i, j, s[i]) {
        assert q == j - 1;
      }
    }
  }

  // ---------------------------------------------------------------- all matches

  /** No match begins in s[i..j]. */
  ghost predicate NoneBetween(s: string, i: nat, j: nat) {
    forall k: nat, m: nat | i <= k < j :: !MatchesAt(s, k, m)
  }

  /** These are the matches from i on, each the leftmost after the one before. */
  ghost predicate Leftmost(s: string, i: nat, spans: seq<Span>)
    decreases |spans|
  {
    if spans == [] then NoneBetween(s, i, |s|)
    else
      && i <= spans[0].from && NoneBetween(s, i, spans[0].from) && MatchesAt(s, spans[0].from, spans[0].upto)
      && Leftmost(s, spans[0].upto, spans[1..])
  }

  lemma MatchesInside(s: string, i: nat, j: nat)
    requires MatchesAt(s, i, j)
    ensures i < j <= |s|
  {}

  /** The lexer finds exactly the leftmost matches. */
  lemma {:induction false} MatchesAreLeftmost(s: string, i: nat, spans: seq<Span>)
    requires i <= |s|
    ensures Leftmost(s, i, spans) <==> spans == Matches(s, i)
    decreases |s| - i
  {
    hide MatchesAt, MatchEnd;
    if i == |s| {
      if spans != [] && Leftmost(s, i, spans) {
        MatchesInside(s, spans[0].from, spans[0].upto);
      }
    } else {
      var j := MatchEnd(s, i);
      forall m: nat ensures MatchesAt(s, i, m) <==> m > i && m == j {
        MatchEndIs(s, i, m);
      }
      if j > i {
        assert MatchesAt(s, i, j);
        if spans != [] {
          MatchesAreLeftmost(s, j, spans[1..]);
        }
        assert spans == Matches(s, i) <==> spans != [] && spans[0] == Span(i, j) && spans[1..] == Matches(s, j);
        assert Leftmost(s, i, spans) ==> spans != [] && spans[0].from == i;
      } else {
        MatchesAreLeftmost(s, i + 1, spans);
        assert Leftmost(s, i, spans) <==> Leftmost(s, i + 1, spans);
      }
    }
  }

  /** What a match is worth: quotes lose their quotes, everything else is kept as it is. */
  lemma TrimIs(s: string, i: nat, j: nat)
    requires MatchesAt(s, i, j)
    ensures i < j <= |s|
    ensures Trim(s, Span(i, j)) == if IsQuote(s[i]) then Span(i + 1, j - 1) else Span(i, j)
  {
    hide IsSpace;
  }

  /** The arguments' tokens are the leftmost matches without their quotes. */
  lemma TokensAre(s: string, spans: seq<Span>)
    requires Leftmost(s, 0, spans)
    ensures |Tokens(s)| == |spans|
    ensures forall k | 0 <= k < |spans| ::
              var m := spans[k];
              && m.from < m.upto <= |s|
              && Tokens(s)[k] == if IsQuote(s[m.from]) then Span(m.from + 1, m.upto - 1) else m
  {
    hide MatchesAt, Trim;
    MatchesAreLeftmost(s, 0, spans);
    forall k | 0 <= k < |spans|
      ensures var m := spans[k];
              && m.from < m.upto <= |s|
              && Tokens(s)[k] == if IsQuote(s[m.from]) then Span(m.from + 1, m.upto - 1) else m
    {
      EachMatches(s, 0, spans, k);
      TrimIs(s, spans[k].from, spans[k].upto);
    }
  }

  lemma {:induction false} EachMatches(s: string, i: nat, spans: seq<Span>, k: nat)
    requires Leftmost(s, i, spans) && k < |spans|
    ensures MatchesAt(s, spans[k].from, spans[k].upto)
    decreases |spans|
  {
    hide MatchesAt;
    if k > 0 {
      EachMatches(s, spans[0].upto, spans[1..], k - 1);
    }
  }

  // ---------------------------------------------------------------- a round trip

  /** A word as it can be written so that it comes back. */
  datatype Word = Quoted(text: string) | Apostrophed(text: string) | Bare(text: string) | Image(text: string)

  function Written(w: Word): string {
    match w
    case Quoted(text) => "\"" + text + "\""
    case Apostrophed(text) => "'" + text + "'"
    case Bare(text) => text
    case Image(text) => text
  }

  ghost predicate Writable(w: Word) {
    match w
    case Quoted(text) => '"' !in text
    case Apostrophed(text) => '\'' !in text
    case Bare(text) => text != "" && text[0] != '[' && forall k | 0 <= k < |text| :: IsPlain(text[k])
    case Image(text) => IsImage(text, 0, |text|)
  }

  function Line(ws: seq<Word>): string {
    if ws == [] then "" else if |ws| == 1 then Written(ws[0]) else Written(ws[0]) + " " + Line(ws[1..])
  }

  lemma ImageMoved(s: string, i: nat, text: string)
    requires IsImage(text, 0, |text|) && i + |text| <= |s| && s[i..i + |text|] == text
    ensures IsImage(s, i, i + |text|)
  {
    hide IsSpace, IsDigit;
    var m: nat :| ImageParts(text, 0, m, |text|);
    forall k: nat | k < |text| ensures s[i + k] == text[k] {
      assert s[i..i + |text|][k] == text[k];
    }
    Moved(s, i, text, m);
    assert ImageParts(s, i, i + m, i + |text|);
  }

  lemma Moved(s: string, i: nat, text: string, m: nat)
    requires i + |text| <= |s| && forall k: nat | k < |text| :: s[i + k] == text[k]
    requires Blank(text, 6, m) && m < |text| && Number(text, m, |text| - 1)
    ensures Blank(s, i + 6, i + m) && Number(s, i + m, i + |text| - 1)
  {
    hide IsSpace, IsDigit;
    forall k | i + 6 <= k < i + m ensures IsSpace(s[k]) {
      assert s[i + (k - i)] == text[k - i];
    }
    forall k | i + m <= k < i + |text| - 1 ensures IsDigit(s[k]) {
      assert s[i + (k - i)] == text[k - i];
    }
  }

  /** The written word stands at i, before a blank or at the end. */
  predicate StandsAt(s: string, i: nat, w: Word) {
    var j := i + |Written(w)|;
    j <= |s| && s[i..j] == Written(w) && (j < |s| ==> s[j] == ' ')
  }

  /** It is one match, and its worth is its text. */
  lemma WordIsMatch(s: string, i: nat, w: Word)
    requires Writable(w) && StandsAt(s, i, w)
    ensures var j := i + |Written(w)|;
            && MatchesAt(s, i, j) && i < j
            && (if IsQuote(s[i]) then i + 2 <= j && s[i + 1..j - 1] == w.text else s[i..j] == w.text)
  {
    var j := i + |Written(w)|;
    forall k | i <= k < j ensures s[k] == Written(w)[k - i] {
      assert s[i..j][k - i] == s[k];
    }
    match w
    case Quoted(text) =>
      assert IsQuoted(s, i, j, '"');
      assert s[i + 1..j - 1] == text;
    case Apostrophed(text) =>
      assert IsQuoted(s, i, j, '\'');
      assert s[i + 1..j - 1] == text;
    case Bare(text) =>
      assert IsRun(s, i, j);
    case Image(text) =>
      var m: nat :| ImageParts(text, 0, m, |text|);
      ImageMoved(s, i, text);
  }

  lemma CutAt(s: string, i: nat, w: string, rest: string)
    requires i <= |s| && s[i..] == w + rest
    ensures var j := i + |w|; j <= |s| && s[i..j] == w && s[j..] == rest
  {
    var j := i + |w|;
    assert s[i..j] == s[i..][..|w|];
    assert s[j..] == s[i..][|w|..];
  }

  lemma FirstStands(s: string, i: nat, ws: seq<Word>)
    requires i <= |s| && ws != [] && s[i..] == Line(ws)
    ensures StandsAt(s, i, ws[0])
    ensures var j := i + |Written(ws[0])|;
            if |ws| == 1 then j == |s| else j < |s| && s[j] == ' ' && s[j + 1..] == Line(ws[1..])
  {
    hide Written;
    var w, j := Written(ws[0]), i + |Written(ws[0])|;
    if |ws| == 1 {
      CutAt(s, i, w, "");
      assert w + "" == w;
    } else {
      CutAt(s, i, w, " " + Line(ws[1..]));
      assert w + " " + Line(ws[1..]) == w + (" " + Line(ws[1..]));
      CutAt(s, j, " ", Line(ws[1..]));
      assert s[j..][0] == ' ';
    }
  }

  /** The first word of a line is its first match; after it the line is empty, or goes on behind a blank. */
  lemma FirstWord(s: string, i: nat, ws: seq<Word>)
    requires i <= |s| && ws != [] && s[i..] == Line(ws) && Writable(ws[0])
    ensures var j := i + |Written(ws[0])|;
            && i < j <= |s| && MatchEnd(s, i) == j && Text(s, Trim(s, Span(i, j))) == ws[0].text
            && (if |ws| == 1 then j == |s| else j < |s| && s[j] == ' ' && s[j + 1..] == Line(ws[1..]))
  {
    hide Writable, MatchesAt, MatchEnd, Trim, StandsAt, Line, Written, IsSpace;
    var j := i + |Written(ws[0])|;
    FirstStands(s, i, ws);
    WordIsMatch(s, i, ws[0]);
    MatchEndIs(s, i, j);
    TrimIs(s, i, j);
  }

  lemma {:induction false} LineMatches(s: string, i: nat, ws: seq<Word>)
    requires i <= |s| && s[i..] == Line(ws) && forall k | 0 <= k < |ws| :: Writable(ws[k])
    ensures |Matches(s, i)| == |ws|
    ensures forall k | 0 <= k < |ws| :: Text(s, Trim(s, Matches(s, i)[k])) == ws[k].text
    decreases |ws|
  {
    hide Writable, MatchEnd, Trim, Text, Written, Line;
    if ws == [] {
      assert i == |s| by { NoLine(); }
    } else {
      var j := MatchEnd(s, i);
      FirstWord(s, i, ws);
      if |ws| > 1 {
        BlankIsSkipped(s, j);
        LineMatches(s, j + 1, ws[1..]);
      }
      assert Matches(s, i) == [Span(i, j)] + Matches(s, j);
    }
  }

  lemma NoLine()
    ensures Line([]) == ""
  {}

  lemma BlankIsSkipped(s: string, j: nat)
    requires j < |s| && s[j] == ' '
    ensures Matches(s, j) == Matches(s, j + 1)
  {}

  /** Any words, written in quotes of either kind, bare, or as images, and with blanks between them, come
      back as they were. */
  lemma WordsComeBack(ws: seq<Word>)
    requires forall k | 0 <= k < |ws| :: Writable(ws[k])
    ensures ArgumentTokens(Line(ws)) == seq(|ws|, k requires 0 <= k < |ws| => ws[k].text)
  {
    hide Writable, Matches, Trim;
    assert Line(ws)[0..] == Line(ws);
    LineMatches(Line(ws), 0, ws);
  }
}

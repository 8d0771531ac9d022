/** What the matches of the file pattern are, said without the scan: leftmost, each path as long as it
    can be. */
module FileReferences {
  import opened Arguments
  import opened ArgumentGuards

  /** s[a..j] is a path: names with single dots between them, one dot before them if it likes, and no dot
      at the end but that one. */
  predicate IsPath(s: string, a: nat, j: nat) {
    a <= j <= |s| && forall p: nat | a <= p < j :: IsName(s[p]) || (s[p] == '.' && (p == a || NameAfter(s, p, j)))
  }

  predicate PathAfter(s: string, k: nat, j: nat) { IsPath(s, k + 1, j) }

  predicate NameAfter(s: string, p: nat, j: nat) { p + 1 < j <= |s| && IsName(s[p + 1]) }

  /** Every name character from i to j, and none at j. */
  lemma {:induction false} NameEndIs(s: string, i: nat)
    requires i <= |s|
    ensures forall p | i <= p < NameEnd(s, i) :: IsName(s[p])
    ensures NameEnd(s, i) < |s| ==> !IsName(s[NameEnd(s, i)])
    decreases |s| - i
  {
    if i < |s| && IsName(s[i]) {
      NameEndIs(s, i + 1);
    }
  }

  /** A dot is not part of a name. */
  lemma DotIsNoName()
    ensures !IsName('.')
  {}

  lemma Stops(s: string, a: nat, i: nat, j: nat)
    requires a <= i <= |s|
    requires i < |s| ==> !IsName(s[i]) && (s[i] == '.' ==> i != a && (i + 1 >= |s| || !IsName(s[i + 1])))
    ensures IsPath(s, a, j) ==> j <= i
  {
    hide IsName;
  }

  /** From i on come more dots each followed by a name, and no path from an earlier a goes further. */
  lemma {:induction false} DottedEndIs(s: string, a: nat, i: nat)
    requires a <= i <= |s| && IsPath(s, a, i) && (i < |s| ==> !IsName(s[i])) && (i == a ==> i < |s| ==> s[i] != '.')
    ensures IsPath(s, a, DottedEnd(s, i)) && forall j: nat :: IsPath(s, a, j) ==> j <= DottedEnd(s, i)
    decreases |s| - i
  {
    hide IsName;
    DotIsNoName();
    if i < |s| && s[i] == '.' && NameEnd(s, i + 1) > i + 1 {
      var m := NameEnd(s, i + 1);
      NameEndIs(s, i + 1);
      forall p: nat | a <= p < m ensures IsName(s[p]) || (s[p] == '.' && (p == a || NameAfter(s, p, m))) {
        if p < i {
          assert IsName(s[p]) || (s[p] == '.' && (p == a || NameAfter(s, p, i)));
        }
      }
      DottedEndIs(s, a, m);
    } else {
      forall j: nat | IsPath(s, a, j) ensures j <= i {
        Stops(s, a, i, j);
      }
    }
  }

  /** The path of a reference is the longest there is. */
  lemma PathEndIs(s: string, k: nat, j: nat)
    requires k < |s|
    ensures IsPath(s, k + 1, PathEnd(s, k)) && (IsPath(s, k + 1, j) ==> j <= PathEnd(s, k))
  {
    hide IsName;
    DotIsNoName();
    var a := k + 1;
    var i := if a < |s| && s[a] == '.' then a + 1 else a;
    NameEndIs(s, i);
    DottedEndIs(s, a, NameEnd(s, i));
  }

  /** The pattern matches s[k..j]: an "@" with no word character or backtick before it, and the longest
      path, perhaps empty, after it. */
  ghost predicate FileMatch(s: string, k: nat, j: nat) {
    && k < |s| && s[k] == '@' && (k > 0 ==> !IsWord(s[k - 1]) && s[k - 1] != '`')
    && PathAfter(s, k, j) && forall m: nat :: PathAfter(s, k, m) ==> m <= j
  }

  ghost predicate NoFileBetween(s: string, i: nat, j: nat) { forall k: nat, m: nat | i <= k < j :: !FileMatch(s, k, m) }

  /** These are the matches from i on, each the leftmost after the one before. */
  ghost predicate LeftmostFiles(s: string, i: nat, spans: seq<Span>)
    decreases |spans|
  {
    if spans == [] then NoFileBetween(s, i, |s|)
    else
      && i <= spans[0].from && NoFileBetween(s, i, spans[0].from) && FileMatch(s, spans[0].from, spans[0].upto)
      && LeftmostFiles(s, spans[0].upto, spans[1..])
  }

  lemma FileMatchIs(s: string, k: nat, j: nat)
    ensures FileMatch(s, k, j) <==> AtSign(s, k) && j == PathEnd(s, k)
  {
    hide IsPath;
    if k < |s| {
      PathEndIs(s, k, j);
      assert PathAfter(s, k, PathEnd(s, k));
      forall m: nat ensures PathAfter(s, k, m) ==> m <= PathEnd(s, k) {
        PathEndIs(s, k, m);
      }
    }
  }

  /** The scan finds exactly the leftmost matches. */
  lemma {:induction false} FilesAreLeftmost(s: string, i: nat, spans: seq<Span>)
    requires i <= |s|
    ensures LeftmostFiles(s, i, spans) <==> spans == FileMatches(s, i)
    decreases |s| - i
  {
    hide FileMatch, PathEnd, AtSign;
    if i == |s| {
      NoFileAtEnd(s);
    } else {
      forall m: nat ensures FileMatch(s, i, m) <==> AtSign(s, i) && m == PathEnd(s, i) {
        FileMatchIs(s, i, m);
      }
      if AtSign(s, i) {
        assert FileMatch(s, i, PathEnd(s, i));
        if spans != [] {
          FilesAreLeftmost(s, PathEnd(s, i), spans[1..]);
        }
        assert LeftmostFiles(s, i, spans) ==> spans != [] && spans[0].from == i;
        assert spans == FileMatches(s, i) <==>
               spans != [] && spans[0] == Span(i, PathEnd(s, i)) && spans[1..] == FileMatches(s, PathEnd(s, i));
      } else {
        FilesAreLeftmost(s, i + 1, spans);
        assert LeftmostFiles(s, i, spans) <==> LeftmostFiles(s, i + 1, spans);
      }
    }
  }

  lemma NoFileAtEnd(s: string)
    ensures forall k: nat, m: nat | k >= |s| :: !FileMatch(s, k, m)
  {}
}

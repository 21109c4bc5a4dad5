/** The paragraph split the text and PDF adapters share:
    `text.split(/\n\s*\n/).map(p => p.replace(/\n/g, ' ').trim()).filter(p => p.length > 0)`. */
module ParagraphSplit {
  import opened Wrappers
  import opened Strings

  /** `/\n\s*\n/` matches at `p`: a newline followed by a whitespace run
      that holds another newline. */
  predicate BlankLineAt(s: string, p: nat) {
    p < |s| && s[p] == '\n' && '\n' in s[p + 1..SkipSpace(s, p + 1)]
  }

  /** The last newline of `s[i..j]`. */
  function LastNewline(s: string, i: nat, j: nat): (k: nat)
    requires i <= j <= |s| && '\n' in s[i..j]
    ensures i <= k < j && s[k] == '\n' && '\n' !in s[k + 1..j]
    decreases j
  {
    if s[j - 1] == '\n' then j - 1
    else
      assert s[i..j] == s[i..j - 1] + [s[j - 1]];
      var k := LastNewline(s, i, j - 1);
      assert s[k + 1..j] == s[k + 1..j - 1] + [s[j - 1]];
      k
  }

  /** Where the match that starts at `p` ends: the greedy `\s*` backs off
      to the last newline of the whitespace run. */
  function BlankLineEnd(s: string, p: nat): (e: nat)
    requires BlankLineAt(s, p)
    ensures p + 2 <= e <= |s| && AllSpace(s[p..e])
  {
    var e := LastNewline(s, p + 1, SkipSpace(s, p + 1)) + 1;
    assert forall k :: p <= k < e ==> IsSpace(s[k]);
    e
  }

  /** The leftmost match at or after `from`. */
  function FirstBlankLine(s: string, from: nat): (r: Option<nat>)
    requires from <= |s|
    ensures r.None? ==> forall p: nat :: from <= p ==> !BlankLineAt(s, p)
    ensures r.Some? ==> from <= r.value && BlankLineAt(s, r.value)
    ensures r.Some? ==> forall p: nat :: from <= p < r.value ==> !BlankLineAt(s, p)
    decreases |s| - from
  {
    if from == |s| then None
    else if BlankLineAt(s, from) then Some(from)
    else FirstBlankLine(s, from + 1)
  }

  /** `s.split(/\n\s*\n/)`: no piece holds a blank line, a text without
      one is a single piece, and only the whitespace separators are lost:
      the pieces hold the text's non-space characters in order. */
  function SplitBlankLines(s: string): (r: seq<string>)
    ensures |r| >= 1
    ensures forall i: nat, p: nat :: i < |r| ==> !BlankLineAt(r[i], p)
    ensures FirstBlankLine(s, 0).None? ==> r == [s]
    ensures NonSpaceOf(r) == NonSpace(s)
    decreases |s|
  {
    match FirstBlankLine(s, 0)
    case None =>
      assert [s][1..] == [];
      [s]
    case Some(p) =>
      var e := BlankLineEnd(s, p);
      var rest := SplitBlankLines(s[e..]);
      NoBlankLineBefore(s, p);
      SeparatorLosesNoText(s, p, e);
      assert ([s[..p]] + rest)[1..] == rest;
      [s[..p]] + rest
  }

  /** Cutting a whitespace separator out of `s` keeps its non-space text. */
  lemma SeparatorLosesNoText(s: string, p: nat, e: nat)
    requires p <= e <= |s| && AllSpace(s[p..e])
    ensures NonSpace(s) == NonSpace(s[..p]) + NonSpace(s[e..])
  {
    ThreeSlices(s, p, e);
    NonSpaceSplice(s[..p], s[p..e], s[e..]);
  }

  /** The text before the first match holds no match. */
  lemma NoBlankLineBefore(s: string, n: nat)
    requires n <= |s| && forall p: nat :: p < n ==> !BlankLineAt(s, p)
    ensures forall k: nat :: !BlankLineAt(s[..n], k)
  {
    forall k: nat | BlankLineAt(s[..n], k) ensures false {
      BlankLinePrefix(s, n, k);
    }
  }

  /** A match inside a prefix is a match in the whole text. */
  lemma BlankLinePrefix(s: string, n: nat, k: nat)
    requires n <= |s| && BlankLineAt(s[..n], k)
    ensures BlankLineAt(s, k)
  {
    var t := s[..n];
    var j := SkipSpace(t, k + 1);
    SkipSpaceAtLeast(s, k + 1, j);
    var c := SkipSpace(s, k + 1);
    assert t[k + 1..j] == s[k + 1..j];
    assert s[k + 1..c] == s[k + 1..j] + s[j..c];
  }

  lemma {:induction false} SkipSpaceAtLeast(s: string, i: nat, j: nat)
    requires i <= j <= |s| && AllSpace(s[i..j])
    ensures SkipSpace(s, i) >= j
    decreases j - i
  {
    if i < j {
      assert IsSpace(s[i..j][0]);
      assert s[i + 1..j] == s[i..j][1..];
      SkipSpaceAtLeast(s, i + 1, j);
    }
  }

  /** One piece made into a paragraph: newlines become spaces, then trim. */
  function Clean(p: string): (r: string)
    ensures IsTrimmed(r) && '\n' !in r
    ensures r == [] <==> AllSpace(p)
    ensures NonSpace(r) == NonSpace(p)
  {
    CleanFacts(p);
    NonSpaceReplaceSpace(p, '\n', ' ');
    TrimKeepsNonSpace(ReplaceChar(p, '\n', ' '));
    Trim(ReplaceChar(p, '\n', ' '))
  }

  lemma CleanFacts(p: string)
    ensures '\n' !in Trim(ReplaceChar(p, '\n', ' '))
    ensures AllSpace(ReplaceChar(p, '\n', ' ')) <==> AllSpace(p)
  {
    var x := ReplaceChar(p, '\n', ' ');
    var r := Trim(x);
    var k := TrimSlice(x);
    SliceChars(x, k, k + |r|, '\n');
  }

  function CleanAll(xs: seq<string>): (r: seq<string>)
    ensures |r| == |xs| && forall i :: 0 <= i < |xs| ==> r[i] == Clean(xs[i])
  {
    seq(|xs|, i requires 0 <= i < |xs| => Clean(xs[i]))
  }

  /** The paragraphs of `s`: trimmed, non-empty, without newlines, and
      together holding the text's non-space characters in order. */
  function Paragraphs(s: string): (r: seq<string>)
    ensures forall i :: 0 <= i < |r| ==> r[i] != [] && IsTrimmed(r[i]) && '\n' !in r[i]
    ensures NonSpaceOf(r) == NonSpace(s)
  {
    var pieces := SplitBlankLines(s);
    var r := NonEmpty(CleanAll(pieces));
    assert forall i :: 0 <= i < |r| ==> r[i] in CleanAll(pieces);
    NonSpaceOfNonEmpty(CleanAll(pieces));
    CleanAllKeepsText(pieces);
    r
  }

  lemma {:induction false} CleanAllKeepsText(xs: seq<string>)
    ensures NonSpaceOf(CleanAll(xs)) == NonSpaceOf(xs)
    decreases |xs|
  {
    if xs != [] {
      assert CleanAll(xs)[1..] == CleanAll(xs[1..]);
      CleanAllKeepsText(xs[1..]);
    }
  }

  /** A text has no paragraphs exactly when it is all whitespace. */
  lemma ParagraphsEmptyIff(s: string)
    ensures Paragraphs(s) == [] <==> AllSpace(s)
  {
    var pieces := SplitBlankLines(s);
    var cleaned := CleanAll(pieces);
    if AllSpace(s) {
      AllSpacePieces(s);
      NonEmptyOfEmpties(cleaned);
    } else {
      var i :| 0 <= i < |s| && !IsSpace(s[i]);
      var j := NonSpaceInPiece(s, i);
      assert cleaned[j] in cleaned;
      NonEmptyKeeps(cleaned, cleaned[j]);
    }
  }

  /** The pieces of an all-whitespace text are all whitespace. */
  lemma {:induction false} AllSpacePieces(s: string)
    requires AllSpace(s)
    ensures forall j :: 0 <= j < |SplitBlankLines(s)| ==> AllSpace(SplitBlankLines(s)[j])
    decreases |s|
  {
    match FirstBlankLine(s, 0)
    case None =>
    case Some(p) =>
      var e := BlankLineEnd(s, p);
      AllSpacePieces(s[e..]);
      assert SplitBlankLines(s) == [s[..p]] + SplitBlankLines(s[e..]);
  }

  /** A non-whitespace character lies outside every whitespace run. */
  lemma OutsideSpaceRun(s: string, p: nat, e: nat, i: nat)
    requires p <= e <= |s| && AllSpace(s[p..e])
    requires i < |s| && !IsSpace(s[i])
    ensures i < p || e <= i
  {
  }

  /** A non-whitespace character of the text ends up in some piece, the
      `j`th: the separators are whitespace. */
  lemma {:induction false} NonSpaceInPiece(s: string, i: nat) returns (j: nat)
    requires i < |s| && !IsSpace(s[i])
    ensures j < |SplitBlankLines(s)| && !AllSpace(SplitBlankLines(s)[j])
    decreases |s|, 1
  {
    var r := SplitBlankLines(s);
    match FirstBlankLine(s, 0)
    case None =>
      assert r[0][i] == s[i];
      j := 0;
    case Some(p) =>
      if i < p {
        assert r == [s[..p]] + SplitBlankLines(s[BlankLineEnd(s, p)..]);
        assert r[0][i] == s[i];
        j := 0;
      } else {
        j := NonSpaceInLaterPiece(s, p, i);
      }
  }

  /** `NonSpaceInPiece` for a character after the first blank line. */
  lemma {:induction false} NonSpaceInLaterPiece(s: string, p: nat, i: nat) returns (j: nat)
    requires FirstBlankLine(s, 0) == Some(p) && p <= i < |s| && !IsSpace(s[i])
    ensures j < |SplitBlankLines(s)| && !AllSpace(SplitBlankLines(s)[j])
    decreases |s|, 0
  {
    var e := BlankLineEnd(s, p);
    OutsideSpaceRun(s, p, e, i);
    NonSpaceInSuffix(s, e, i);
    var j' := NonSpaceInPiece(s[e..], i - e);
    LaterPiece(s, p, j');
    j := j' + 1;
  }

  lemma NonSpaceInSuffix(s: string, e: nat, i: nat)
    requires e <= i < |s| && !IsSpace(s[i])
    ensures i - e < |s[e..]| && !IsSpace(s[e..][i - e])
  {
  }

  /** Piece `j` after the first separator is piece `j + 1` of the text. */
  lemma LaterPiece(s: string, p: nat, j: nat)
    requires FirstBlankLine(s, 0) == Some(p)
    requires j < |SplitBlankLines(s[BlankLineEnd(s, p)..])|
    ensures j + 1 < |SplitBlankLines(s)|
    ensures SplitBlankLines(s)[j + 1] == SplitBlankLines(s[BlankLineEnd(s, p)..])[j]
  {
    var rest := SplitBlankLines(s[BlankLineEnd(s, p)..]);
    assert SplitBlankLines(s) == [s[..p]] + rest;
  }
}

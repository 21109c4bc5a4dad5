/** The JavaScript string operations the services rely on, over `string`
    (a sequence of characters): `trim`, `\s`-based whitespace handling,
    `join`, `split` on one character, global literal `replace`,
    ASCII lower-casing, and integer-to-text conversion with `padStart`. */
module Strings {

  /** ECMAScript's WhiteSpace and LineTerminator characters: the set that
      `\s` matches in a regular expression and that `trim()` removes. */
  predicate IsSpace(c: char) {
    c == ' ' || c == '\t' || c == '\n' || c == '\U{B}' || c == '\U{C}' || c == '\r'
    || c == '\U{A0}' || c == '\U{1680}' || ('\U{2000}' <= c <= '\U{200A}')
    || c == '\U{2028}' || c == '\U{2029}' || c == '\U{202F}' || c == '\U{205F}'
    || c == '\U{3000}' || c == '\U{FEFF}'
  }

  predicate AllSpace(s: string) {
    forall i :: 0 <= i < |s| ==> IsSpace(s[i])
  }

  /** The first position at or after `i` that is not whitespace (or the end). */
  function SkipSpace(s: string, i: nat): (j: nat)
    requires i <= |s|
    ensures i <= j <= |s|
    ensures forall k :: i <= k < j ==> IsSpace(s[k])
    ensures j == |s| || !IsSpace(s[j])
    decreases |s| - i
  {
    if i < |s| && IsSpace(s[i]) then SkipSpace(s, i + 1) else i
  }

  /** Neither end of `s` is whitespace. */
  predicate IsTrimmed(s: string) {
    s == [] || (!IsSpace(s[0]) && !IsSpace(s[|s| - 1]))
  }

  /** Every whitespace character is a plain space and no two are adjacent:
      the shape `replace(/\s+/g, ' ')` leaves behind. */
  predicate SingleSpaced(s: string) {
    forall i :: 0 <= i < |s| ==> SpaceOk(s, i)
  }

  /** Position `i` of `s` is not whitespace, or is a plain space followed
      by something other than whitespace. */
  predicate SpaceOk(s: string, i: nat)
    requires i < |s|
  {
    IsSpace(s[i]) ==> s[i] == ' ' && (i + 1 < |s| ==> !IsSpace(s[i + 1]))
  }

  /** The number of whitespace characters `s` starts with. */
  function LeadingSpaces(s: string): (k: nat)
    ensures k <= |s| && AllSpace(s[..k]) && (k < |s| ==> !IsSpace(s[k]))
    decreases |s|
  {
    if s != [] && IsSpace(s[0]) then
      var k := LeadingSpaces(s[1..]);
      SpaceThenSpaces(s, k);
      assert k < |s| - 1 ==> s[1..][k] == s[k + 1];
      k + 1
    else
      assert s[..0] == [];
      0
  }

  lemma SpaceThenSpaces(s: string, k: nat)
    requires s != [] && IsSpace(s[0]) && k <= |s| - 1 && AllSpace(s[1..][..k])
    ensures AllSpace(s[..k + 1])
  {
    var p := s[..k + 1];
    forall i | 0 <= i < |p| ensures IsSpace(p[i]) {
      if i > 0 {
        assert p[i] == s[1..][..k][i - 1];
      }
    }
  }

  /** `s.trimStart()`. */
  function TrimStart(s: string): (r: string)
    ensures |r| <= |s| && r == s[|s| - |r|..]
    ensures AllSpace(s[..|s| - |r|])
    ensures r == [] || !IsSpace(r[0])
  {
    s[LeadingSpaces(s)..]
  }

  /** `s.trim()`: the slice of `s` left after its leading and trailing
      whitespace is cut off. */
  function Trim(s: string): (r: string)
    ensures IsTrimmed(r) && |r| <= |s|
    ensures r == [] <==> AllSpace(s)
    decreases |s|
  {
    if s == [] then []
    else if IsSpace(s[0]) then
      assert AllSpace(s) <==> AllSpace(s[1..]) by {
        assert s == [s[0]] + s[1..];
      }
      Trim(s[1..])
    else if IsSpace(s[|s| - 1]) then
      assert s[..|s| - 1][0] == s[0];
      Trim(s[..|s| - 1])
    else s
  }

  /** Where the trimmed slice sits: `k` spaces are cut off the front and
      only spaces follow it. */
  lemma {:induction false} TrimSlice(s: string) returns (k: nat)
    ensures k + |Trim(s)| <= |s| && Trim(s) == s[k..k + |Trim(s)|]
    ensures AllSpace(s[..k]) && AllSpace(s[k + |Trim(s)|..])
    decreases |s|, 1
  {
    if s == [] {
      k := 0;
    } else if IsSpace(s[0]) {
      k := TrimSliceFront(s);
    } else if IsSpace(s[|s| - 1]) {
      k := TrimSliceBack(s);
    } else {
      k := 0;
      assert s[..0] == [] && s[|s|..] == [];
    }
  }

  /** `TrimSlice` when `s` starts with whitespace. */
  lemma {:induction false} TrimSliceFront(s: string) returns (k: nat)
    requires s != [] && IsSpace(s[0])
    ensures k + |Trim(s)| <= |s| && Trim(s) == s[k..k + |Trim(s)|]
    ensures AllSpace(s[..k]) && AllSpace(s[k + |Trim(s)|..])
    decreases |s|, 0
  {
    assert Trim(s) == Trim(s[1..]);
    var k' := TrimSlice(s[1..]);
    k := k' + 1;
    SliceAfterSpace(s, k', Trim(s));
  }

  /** `TrimSlice` when `s` starts with a non-space and ends with whitespace. */
  lemma {:induction false} TrimSliceBack(s: string) returns (k: nat)
    requires s != [] && !IsSpace(s[0]) && IsSpace(s[|s| - 1])
    ensures k + |Trim(s)| <= |s| && Trim(s) == s[k..k + |Trim(s)|]
    ensures AllSpace(s[..k]) && AllSpace(s[k + |Trim(s)|..])
    decreases |s|, 0
  {
    assert Trim(s) == Trim(s[..|s| - 1]);
    k := TrimSlice(s[..|s| - 1]);
    SliceBeforeSpace(s, k, Trim(s));
  }

  lemma SliceAfterSpace(s: string, k: nat, r: string)
    requires s != [] && IsSpace(s[0])
    requires k + |r| <= |s| - 1 && r == s[1..][k..k + |r|]
    requires AllSpace(s[1..][..k]) && AllSpace(s[1..][k + |r|..])
    ensures r == s[k + 1..k + 1 + |r|]
    ensures AllSpace(s[..k + 1]) && AllSpace(s[k + 1 + |r|..])
  {
    assert s[..k + 1] == [s[0]] + s[1..][..k];
    assert s[k + 1 + |r|..] == s[1..][k + |r|..];
  }

  lemma SliceBeforeSpace(s: string, k: nat, r: string)
    requires s != [] && IsSpace(s[|s| - 1])
    requires k + |r| <= |s| - 1 && r == s[..|s| - 1][k..k + |r|]
    requires AllSpace(s[..|s| - 1][..k]) && AllSpace(s[..|s| - 1][k + |r|..])
    ensures r == s[k..k + |r|]
    ensures AllSpace(s[..k]) && AllSpace(s[k + |r|..])
  {
    assert s[..k] == s[..|s| - 1][..k];
    assert s[k + |r|..] == s[..|s| - 1][k + |r|..] + [s[|s| - 1]];
  }

  /** A trimmed string is its own trim. */
  lemma TrimOfTrimmed(s: string)
    requires IsTrimmed(s)
    ensures Trim(s) == s
  {
  }

  /** Trimming adds no character. */
  lemma TrimKeepsAbsent(s: string, c: char)
    requires c !in s
    ensures c !in Trim(s)
  {
  }

  /** Every character of a slice occurs in the whole. */
  lemma SliceChars(s: string, k: nat, m: nat, c: char)
    requires k <= m <= |s|
    requires c !in s
    ensures c !in s[k..m]
  {
    forall i | 0 <= i < m - k
      ensures s[k..m][i] != c
    {
      assert s[k..m][i] == s[k + i];
    }
  }

  /** `replace(/\s+/g, ' ')`: each maximal run of whitespace becomes one space. */
  function Collapse(s: string): (r: string)
    ensures SingleSpaced(r)
    ensures s != [] ==> r != [] && r[0] == (if IsSpace(s[0]) then ' ' else s[0])
    ensures AllSpace(s) <==> AllSpace(r)
    ensures NonSpace(r) == NonSpace(s)
    decreases |s|
  {
    if s == [] then []
    else if IsSpace(s[0]) then
      var t := TrimStart(s);
      assert s == s[..|s| - |t|] + t;
      assert AllSpace(s) <==> AllSpace(t);
      NonSpaceConcat(s[..|s| - |t|], t);
      NonSpaceCons(' ', Collapse(t));
      SingleSpacedCons(' ', Collapse(t));
      [' '] + Collapse(t)
    else
      assert !AllSpace(s);
      assert s == [s[0]] + s[1..];
      NonSpaceCons(s[0], s[1..]);
      NonSpaceCons(s[0], Collapse(s[1..]));
      SingleSpacedCons(s[0], Collapse(s[1..]));
      [s[0]] + Collapse(s[1..])
  }

  /** One step of `NonSpace`. */
  lemma NonSpaceCons(c: char, x: string)
    ensures NonSpace([c] + x) == (if IsSpace(c) then [] else [c]) + NonSpace(x)
  {
    assert ([c] + x)[1..] == x;
  }

  lemma SingleSpacedCons(c: char, t: string)
    requires SingleSpaced(t)
    requires IsSpace(c) ==> c == ' ' && (t == [] || !IsSpace(t[0]))
    ensures SingleSpaced([c] + t)
  {
    var r := [c] + t;
    forall i | 0 <= i < |r|
      ensures SpaceOk(r, i)
    {
      if i > 0 {
        assert r[i] == t[i - 1];
        assert i + 1 < |r| ==> r[i + 1] == t[i];
        assert SpaceOk(t, i - 1);
      }
    }
  }

  /** Replacing one whitespace character by another keeps the non-space
      text. */
  lemma {:induction false} NonSpaceReplaceSpace(s: string, x: char, y: char)
    requires IsSpace(x) && IsSpace(y)
    ensures NonSpace(ReplaceChar(s, x, y)) == NonSpace(s)
    decreases |s|
  {
    if s != [] {
      var r := ReplaceChar(s, x, y);
      assert r == [r[0]] + ReplaceChar(s[1..], x, y);
      assert s == [s[0]] + s[1..];
      NonSpaceCons(r[0], ReplaceChar(s[1..], x, y));
      NonSpaceCons(s[0], s[1..]);
      NonSpaceReplaceSpace(s[1..], x, y);
    }
  }

  /** Every character of `s` that is not whitespace survives `Collapse`. */
  lemma {:induction false} CollapseKeepsText(s: string, i: nat)
    requires i < |s| && !IsSpace(s[i])
    ensures s[i] in Collapse(s)
    decreases |s|
  {
    if IsSpace(s[0]) {
      var t := TrimStart(s);
      var k := |s| - |t|;
      assert i >= k;
      assert t[i - k] == s[i];
      CollapseKeepsText(t, i - k);
      assert Collapse(s) == [' '] + Collapse(t);
    } else if i > 0 {
      CollapseKeepsText(s[1..], i - 1);
      assert Collapse(s) == [s[0]] + Collapse(s[1..]);
    }
  }

  /** No character of `s` is whitespace. */
  predicate AllNonSpace(s: string) {
    forall k :: 0 <= k < |s| ==> !IsSpace(s[k])
  }

  /** The characters of `s` that are not whitespace, in order: the text
      that whitespace handling must neither lose nor reorder. */
  function NonSpace(s: string): (r: string)
    ensures |r| <= |s| && AllNonSpace(r)
    ensures r == [] <==> AllSpace(s)
    decreases |s|
  {
    if s == [] then []
    else
      var rest := NonSpace(s[1..]);
      assert forall i :: 1 <= i < |s| ==> s[i] == s[1..][i - 1];
      if IsSpace(s[0]) then rest else [s[0]] + rest
  }

  lemma {:induction false} NonSpaceConcat(s: string, t: string)
    ensures NonSpace(s + t) == NonSpace(s) + NonSpace(t)
    decreases |s|
  {
    if s != [] {
      assert (s + t)[1..] == s[1..] + t;
      NonSpaceConcat(s[1..], t);
    } else {
      assert s + t == t;
    }
  }

  /** Text without whitespace is its own non-space text. */
  lemma {:induction false} NonSpaceOfWord(s: string)
    requires AllNonSpace(s)
    ensures NonSpace(s) == s
    decreases |s|
  {
    if s != [] {
      assert AllNonSpace(s[1..]) by {
        forall k | 0 <= k < |s| - 1 ensures !IsSpace(s[1..][k]) {
          assert s[1..][k] == s[k + 1];
        }
      }
      NonSpaceOfWord(s[1..]);
    }
  }

  /** The non-space text of a list of strings, one after the other. */
  function NonSpaceOf(xs: seq<string>): string {
    if xs == [] then [] else NonSpace(xs[0]) + NonSpaceOf(xs[1..])
  }

  lemma {:induction false} NonSpaceOfConcat(xs: seq<string>, ys: seq<string>)
    ensures NonSpaceOf(xs + ys) == NonSpaceOf(xs) + NonSpaceOf(ys)
    decreases |xs|
  {
    if xs != [] {
      assert (xs + ys)[1..] == xs[1..] + ys;
      NonSpaceOfConcat(xs[1..], ys);
    } else {
      assert xs + ys == ys;
    }
  }

  /** Dropping the empty strings loses no text. */
  lemma {:induction false} NonSpaceOfNonEmpty(xs: seq<string>)
    ensures NonSpaceOf(NonEmpty(xs)) == NonSpaceOf(xs)
    decreases |xs|
  {
    if xs != [] {
      NonSpaceOfNonEmpty(xs[1..]);
      if xs[0] != [] {
        assert ([xs[0]] + NonEmpty(xs[1..]))[1..] == NonEmpty(xs[1..]);
      }
    }
  }

  /** `trimStart` of a whitespace run followed by text that does not start
      with whitespace is that text. */
  lemma TrimStartAfterRun(w: string, b: string)
    requires AllSpace(w) && (b == [] || !IsSpace(b[0]))
    ensures TrimStart(w + b) == b
  {
    LeadingSpacesAfterRun(w, b);
    assert (w + b)[|w|..] == b;
  }

  lemma {:induction false} LeadingSpacesAfterRun(w: string, b: string)
    requires AllSpace(w) && (b == [] || !IsSpace(b[0]))
    ensures LeadingSpaces(w + b) == |w|
    decreases |w|
  {
    if w != [] {
      assert (w + b)[0] == w[0];
      assert (w + b)[1..] == w[1..] + b;
      assert AllSpace(w[1..]) by {
        forall k | 0 <= k < |w| - 1 ensures IsSpace(w[1..][k]) {
          assert w[1..][k] == w[k + 1];
        }
      }
      LeadingSpacesAfterRun(w[1..], b);
    } else {
      assert w + b == b;
    }
  }

  /** A stretch without whitespace passes through `Collapse` unchanged. */
  lemma {:induction false} CollapseWord(a: string, b: string)
    requires AllNonSpace(a)
    ensures Collapse(a + b) == a + Collapse(b)
    decreases |a|
  {
    if a != [] {
      var c, tail := a[0], a[1..];
      AllNonSpaceTail(a);
      assert a == [c] + tail;
      calc {
        Collapse(a + b);
        { ConcatAssoc([c], tail, b); }
        Collapse([c] + (tail + b));
        { CollapseCons(c, tail + b); }
        [c] + Collapse(tail + b);
        { CollapseWord(tail, b); }
        [c] + (tail + Collapse(b));
        { ConcatAssoc([c], tail, Collapse(b)); }
        a + Collapse(b);
      }
    } else {
      assert a + b == b;
    }
  }

  lemma AllNonSpaceTail(a: string)
    requires a != [] && AllNonSpace(a)
    ensures !IsSpace(a[0]) && AllNonSpace(a[1..])
  {
  }

  /** One step of `Collapse` on a character that is not whitespace. */
  lemma CollapseCons(c: char, x: string)
    requires !IsSpace(c)
    ensures Collapse([c] + x) == [c] + Collapse(x)
  {
    assert ([c] + x)[0] == c;
    assert ([c] + x)[1..] == x;
  }

  /** A whole whitespace run becomes one space. With `CollapseWord` and
      `Collapse([]) == []` this fixes `Collapse` on every input. */
  lemma CollapseRun(w: string, b: string)
    requires w != [] && AllSpace(w) && (b == [] || !IsSpace(b[0]))
    ensures Collapse(w + b) == [' '] + Collapse(b)
  {
    assert (w + b)[0] == w[0];
    TrimStartAfterRun(w, b);
  }

  /** A word, then a whitespace run, then text that does not start with
      whitespace: the run becomes one space after the word. */
  lemma CollapseWordRun(word: string, run: string, after: string)
    requires AllNonSpace(word) && run != [] && AllSpace(run)
    requires after == [] || !IsSpace(after[0])
    ensures Collapse(word + (run + after)) == word + " " + Collapse(after)
  {
    CollapseWord(word, run + after);
    CollapseRun(run, after);
    ConcatAssoc(word, " ", Collapse(after));
  }

  lemma ConcatAssoc(a: string, b: string, c: string)
    ensures a + (b + c) == a + b + c
  {
  }

  /** A text is the concatenation of its slices at two cut points. */
  lemma ThreeSlices(s: string, p: nat, e: nat)
    requires p <= e <= |s|
    ensures s == s[..p] + s[p..e] + s[e..]
  {
  }

  /** Cutting a whitespace run out of a text keeps its non-space text. */
  lemma NonSpaceSplice(a: string, w: string, b: string)
    requires AllSpace(w)
    ensures NonSpace(a + w + b) == NonSpace(a) + NonSpace(b)
  {
    NonSpaceConcat(a + w, b);
    NonSpaceConcat(a, w);
    assert NonSpace(a) + [] == NonSpace(a);
  }

  /** Trimming cuts only whitespace, so it keeps the non-space text. */
  lemma TrimKeepsNonSpace(s: string)
    ensures NonSpace(Trim(s)) == NonSpace(s)
  {
    var r := Trim(s);
    var k := TrimSlice(s);
    assert s == s[..k] + r + s[k + |r|..];
    NonSpaceConcat(s[..k] + r, s[k + |r|..]);
    NonSpaceConcat(s[..k], r);
  }

  /** A slice of a single-spaced string is single-spaced. */
  lemma SingleSpacedSlice(s: string, k: nat, m: nat)
    requires SingleSpaced(s) && k <= m <= |s|
    ensures SingleSpaced(s[k..m])
  {
    var t := s[k..m];
    forall i | 0 <= i < |t|
      ensures SpaceOk(t, i)
    {
      assert t[i] == s[k + i];
      assert i + 1 < |t| ==> t[i + 1] == s[k + i + 1];
      assert SpaceOk(s, k + i);
    }
  }

  /** The text `text.replace(/\s+/g, ' ').trim()`. */
  function CleanText(s: string): (r: string)
    ensures SingleSpaced(r) && IsTrimmed(r)
    ensures r == [] <==> AllSpace(s)
    ensures NonSpace(r) == NonSpace(s)
  {
    CleanTextFacts(s);
    TrimKeepsNonSpace(Collapse(s));
    Trim(Collapse(s))
  }

  lemma CleanTextFacts(s: string)
    ensures SingleSpaced(Trim(Collapse(s))) && IsTrimmed(Trim(Collapse(s)))
    ensures Trim(Collapse(s)) == [] <==> AllSpace(s)
  {
    var c := Collapse(s);
    TrimSingleSpaced(c);
  }

  /** Trimming keeps a string single-spaced. */
  lemma TrimSingleSpaced(c: string)
    requires SingleSpaced(c)
    ensures SingleSpaced(Trim(c))
  {
    var r := Trim(c);
    var k := TrimSlice(c);
    SingleSpacedSlice(c, k, k + |r|);
  }

  /** `xs.join(sep)`. */
  function Join(xs: seq<string>, sep: string): string
  {
    if |xs| == 0 then ""
    else if |xs| == 1 then xs[0]
    else xs[0] + sep + Join(xs[1..], sep)
  }

  lemma {:induction false} JoinSnoc(xs: seq<string>, y: string, sep: string)
    ensures Join(xs + [y], sep) == if xs == [] then y else Join(xs, sep) + sep + y
    decreases |xs|
  {
    if |xs| >= 2 {
      assert (xs + [y])[1..] == xs[1..] + [y];
      JoinSnoc(xs[1..], y, sep);
    } else if |xs| == 1 {
      assert (xs + [y])[1..] == [y];
    }
  }

  lemma {:induction false} JoinConcat(xs: seq<string>, ys: seq<string>, sep: string)
    requires xs != [] && ys != []
    ensures Join(xs + ys, sep) == Join(xs, sep) + sep + Join(ys, sep)
    decreases |xs|
  {
    if |xs| == 1 {
      assert (xs + ys)[1..] == ys;
    } else {
      assert (xs + ys)[1..] == xs[1..] + ys;
      JoinConcat(xs[1..], ys, sep);
    }
  }

  /** The elements of `xs` that are not empty, in order. */
  function NonEmpty(xs: seq<string>): (r: seq<string>)
    ensures |r| <= |xs|
    ensures forall i :: 0 <= i < |r| ==> r[i] != []
    ensures forall x :: x in r ==> x in xs
  {
    if xs == [] then []
    else if xs[0] == [] then NonEmpty(xs[1..])
    else [xs[0]] + NonEmpty(xs[1..])
  }

  lemma {:induction false} NonEmptyConcat(xs: seq<string>, ys: seq<string>)
    ensures NonEmpty(xs + ys) == NonEmpty(xs) + NonEmpty(ys)
    decreases |xs|
  {
    if xs != [] {
      assert (xs + ys)[1..] == xs[1..] + ys;
      NonEmptyConcat(xs[1..], ys);
    } else {
      assert xs + ys == ys;
    }
  }

  /** Filtering keeps every non-empty element. */
  lemma {:induction false} NonEmptyKeeps(xs: seq<string>, x: string)
    requires x in xs && x != []
    ensures x in NonEmpty(xs)
    decreases |xs|
  {
    if xs[0] != x {
      assert x in xs[1..];
      NonEmptyKeeps(xs[1..], x);
    }
  }

  /** Filtering a list of empty strings leaves nothing. */
  lemma NonEmptyOfEmpties(xs: seq<string>)
    requires forall i :: 0 <= i < |xs| ==> xs[i] == []
    ensures NonEmpty(xs) == []
  {
  }

  lemma {:induction false} NonEmptyOfNonEmpty(xs: seq<string>)
    requires forall i :: 0 <= i < |xs| ==> xs[i] != []
    ensures NonEmpty(xs) == xs
    decreases |xs|
  {
    if xs != [] {
      NonEmptyOfNonEmpty(xs[1..]);
    }
  }

  function LowerChar(c: char): char {
    if 'A' <= c <= 'Z' then (c as int + 32) as char else c
  }

  /** `toLowerCase()` on the ASCII letters. */
  function Lower(s: string): (r: string)
    ensures |r| == |s|
    ensures forall i :: 0 <= i < |s| ==> r[i] == LowerChar(s[i])
  {
    seq(|s|, i requires 0 <= i < |s| => LowerChar(s[i]))
  }

  /** Lowering twice is lowering once. */
  lemma LowerIdempotent(s: string)
    ensures Lower(Lower(s)) == Lower(s)
  {
  }

  /** Lowering works character by character, so it distributes over `+`. */
  lemma LowerConcat(s: string, t: string)
    ensures Lower(s + t) == Lower(s) + Lower(t)
  {
  }

  /** `s.replace(/x/g, y)` for a single character `x`. */
  function ReplaceChar(s: string, x: char, y: char): (r: string)
    ensures |r| == |s|
    ensures forall i :: 0 <= i < |s| ==> r[i] == if s[i] == x then y else s[i]
  {
    seq(|s|, i requires 0 <= i < |s| => if s[i] == x then y else s[i])
  }

  /** `s.replace(/pat/g, rep)` for a literal pattern: the leftmost
      occurrences, without overlap, are replaced from left to right. */
  function ReplaceAll(s: string, pat: string, rep: string): (r: string)
    requires pat != []
    ensures |rep| <= |pat| ==> |r| <= |s|
    decreases |s|
  {
    if |s| < |pat| then s
    else if s[..|pat|] == pat then rep + ReplaceAll(s[|pat|..], pat, rep)
    else [s[0]] + ReplaceAll(s[1..], pat, rep)
  }

  /** `pat` occurs in `s` at position `k`. */
  predicate OccursAt(s: string, pat: string, k: nat) {
    k + |pat| <= |s| && s[k..k + |pat|] == pat
  }

  /** Text without the pattern comes through `ReplaceAll` unchanged. */
  lemma {:induction false} ReplaceAllAbsent(s: string, pat: string, rep: string)
    requires pat != []
    requires forall k: nat :: !OccursAt(s, pat, k)
    ensures ReplaceAll(s, pat, rep) == s
    decreases |s|
  {
    if |s| >= |pat| {
      assert !OccursAt(s, pat, 0);
      forall k: nat
        ensures !OccursAt(s[1..], pat, k)
      {
        if k + |pat| <= |s[1..]| {
          assert s[1..][k..k + |pat|] == s[k + 1..k + 1 + |pat|];
          assert !OccursAt(s, pat, k + 1);
        }
      }
      ReplaceAllAbsent(s[1..], pat, rep);
    }
  }

  /** Position of the first `c` in `s`. */
  function IndexOf(s: string, c: char): (k: nat)
    requires c in s
    ensures k < |s| && s[k] == c && c !in s[..k]
  {
    if s[0] == c then 0 else IndexOf(s[1..], c) + 1
  }

  /** `s.split(c)` for a one-character separator. */
  function SplitOn(s: string, c: char): (r: seq<string>)
    ensures |r| >= 1
    ensures forall i :: 0 <= i < |r| ==> c !in r[i]
    ensures Join(r, [c]) == s
    decreases |s|
  {
    if c !in s then [s]
    else
      var k := IndexOf(s, c);
      var rest := SplitOn(s[k + 1..], c);
      assert s == s[..k] + [c] + s[k + 1..];
      assert Join([s[..k]] + rest, [c]) == s by {
        JoinConcat([s[..k]], rest, [c]);
      }
      [s[..k]] + rest
  }

  /** Number of occurrences of `c` in `s`. */
  function Count(s: string, c: char): nat {
    if s == [] then 0 else (if s[0] == c then 1 else 0) + Count(s[1..], c)
  }

  lemma {:induction false} CountConcat(s: string, t: string, c: char)
    ensures Count(s + t, c) == Count(s, c) + Count(t, c)
    decreases |s|
  {
    if s != [] {
      assert (s + t)[1..] == s[1..] + t;
      CountConcat(s[1..], t, c);
    } else {
      assert s + t == t;
    }
  }

  lemma {:induction false} CountAbsent(s: string, c: char)
    requires c !in s
    ensures Count(s, c) == 0
    decreases |s|
  {
    if s != [] {
      CountAbsent(s[1..], c);
    }
  }

  /** `s.split(c)` has one more piece than `s` has occurrences of `c`. */
  lemma {:induction false} SplitOnCount(s: string, c: char)
    ensures |SplitOn(s, c)| == Count(s, c) + 1
    decreases |s|
  {
    if c !in s {
      CountAbsent(s, c);
    } else {
      var k := IndexOf(s, c);
      assert s == s[..k] + ([c] + s[k + 1..]);
      CountConcat(s[..k], [c] + s[k + 1..], c);
      CountConcat([c], s[k + 1..], c);
      CountAbsent(s[..k], c);
      SplitOnCount(s[k + 1..], c);
    }
  }

  predicate IsDigit(c: char) {
    '0' <= c <= '9'
  }

  function DigitChar(d: nat): (c: char)
    requires d < 10
    ensures IsDigit(c)
  {
    ('0' as int + d) as char
  }

  function DigitValue(c: char): (d: nat)
    requires IsDigit(c)
    ensures d < 10 && DigitChar(d) == c
  {
    c as int - '0' as int
  }

  predicate AllDigits(s: string) {
    forall i :: 0 <= i < |s| ==> IsDigit(s[i])
  }

  /** Decimal text of a non-negative integer, as `n.toString()` writes it. */
  function NatToString(n: nat): (r: string)
    ensures |r| >= 1 && AllDigits(r)
    ensures n < 10 <==> |r| == 1
  {
    if n < 10 then [DigitChar(n)] else NatToString(n / 10) + [DigitChar(n % 10)]
  }

  /** Reads a decimal numeral back; the partner of `NatToString`. */
  function ParseNat(s: string): nat
    requires |s| >= 1 && AllDigits(s)
  {
    if |s| == 1 then DigitValue(s[0])
    else ParseNat(s[..|s| - 1]) * 10 + DigitValue(s[|s| - 1])
  }

  lemma {:induction false} ParseNatToString(n: nat)
    ensures ParseNat(NatToString(n)) == n
  {
    if n >= 10 {
      var s := NatToString(n);
      assert s[..|s| - 1] == NatToString(n / 10);
      ParseNatToString(n / 10);
    }
  }

  /** `i.toString()` for an integer `i`. */
  function IntToString(i: int): (r: string)
    ensures |r| >= 1
    ensures i >= 0 ==> r == NatToString(i)
  {
    if i < 0 then "-" + NatToString(-i) else NatToString(i)
  }

  /** `s.padStart(2, '0')`. */
  function PadStart2(s: string): (r: string)
    ensures |r| == if |s| >= 2 then |s| else 2
    ensures r[|r| - |s|..] == s
    ensures forall i :: 0 <= i < |r| - |s| ==> r[i] == '0'
  {
    if |s| >= 2 then s else seq(2 - |s|, _ => '0') + s
  }

  /** A padded numeral reads back as the number it was padded from. */
  lemma PadStart2Nat(n: nat)
    ensures AllDigits(PadStart2(NatToString(n)))
    ensures ParseNat(PadStart2(NatToString(n))) == n
  {
    var s := NatToString(n);
    ParseNatToString(n);
    if |s| == 1 {
      assert PadStart2(s) == ['0'] + s;
      assert PadStart2(s)[..1] == ['0'];
    }
  }
}

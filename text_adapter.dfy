/** The plain-text adapter: paragraphs (or sentences grouped into blocks
    of about 500 characters), metadata drawn from the text, and a
    word-list guess at its language. */
module TextAdapter {
  import opened Wrappers
  import opened Strings
  import opened Models
  import opened ParagraphSplit

  /* ---------- sentences ---------- */

  predicate IsStop(c: char) {
    c == '.' || c == '!' || c == '?'
  }

  /** `/(?<=[.!?])\s+/` matches at `i`: whitespace right after a stop. */
  predicate SentenceBreakAt(s: string, i: nat) {
    1 <= i < |s| && IsSpace(s[i]) && IsStop(s[i - 1])
  }

  function FirstBreak(s: string, from: nat): (r: Option<nat>)
    requires from <= |s|
    ensures r.None? ==> forall i: nat :: from <= i ==> !SentenceBreakAt(s, i)
    ensures r.Some? ==> from <= r.value && SentenceBreakAt(s, r.value)
    ensures r.Some? ==> forall i: nat :: from <= i < r.value ==> !SentenceBreakAt(s, i)
    decreases |s| - from
  {
    if from == |s| then None
    else if SentenceBreakAt(s, from) then Some(from)
    else FirstBreak(s, from + 1)
  }

  /** `s.split(/(?<=[.!?])\s+/)`: the greedy `\s+` takes the whole
      whitespace run, and the next search starts after it. */
  function SplitSentences(s: string): (r: seq<string>)
    ensures |r| >= 1
    decreases |s|
  {
    match FirstBreak(s, 0)
    case None => [s]
    case Some(i) => [s[..i]] + SplitSentences(s[SkipSpace(s, i)..])
  }

  /** `cleanedText.split(...).filter(s => s.length > 0)`. */
  function Sentences(cleaned: string): seq<string> {
    NonEmpty(SplitSentences(cleaned))
  }

  /** On collapsed, trimmed text no sentence is split or lost: the
      sentences joined with single spaces give back the text. */
  lemma {:induction false} SentencesRejoin(c: string)
    requires SingleSpaced(c) && IsTrimmed(c)
    ensures Join(Sentences(c), " ") == c
  {
    if c != [] {
      SplitSentencesRejoin(c);
      NonEmptyOfNonEmpty(SplitSentences(c));
    }
  }

  lemma {:induction false} SplitSentencesRejoin(c: string)
    requires SingleSpaced(c) && IsTrimmed(c) && c != []
    ensures forall i :: 0 <= i < |SplitSentences(c)| ==> SplitSentences(c)[i] != []
    ensures Join(SplitSentences(c), " ") == c
    decreases |c|
  {
    match FirstBreak(c, 0)
    case None =>
    case Some(i) =>
      var rest := BreakSplits(c, i);
      SplitSentencesRejoin(rest);
      assert SplitSentences(c) == [c[..i]] + SplitSentences(rest);
      JoinConcat([c[..i]], SplitSentences(rest), " ");
  }

  /** On collapsed, trimmed text a sentence break is a single space between
      a non-empty sentence and a non-empty, still collapsed and trimmed,
      rest. */
  lemma BreakSplits(c: string, i: nat) returns (rest: string)
    requires SingleSpaced(c) && IsTrimmed(c) && SentenceBreakAt(c, i)
    ensures SkipSpace(c, i) == i + 1 && rest == c[i + 1..]
    ensures c == c[..i] + " " + rest && c[..i] != []
    ensures SingleSpaced(rest) && IsTrimmed(rest) && rest != []
  {
    assert SpaceOk(c, i);
    assert i + 1 < |c|;
    assert SkipSpace(c, i + 1) == i + 1;
    rest := c[i + 1..];
    SingleSpacedSlice(c, i + 1, |c|);
    assert c[i + 1..|c|] == rest;
    assert rest[0] == c[i + 1] && rest[|rest| - 1] == c[|c| - 1];
    assert c == c[..i] + [c[i]] + rest;
  }

  /* ---------- grouping ---------- */

  /** What the grouping loop promises about `blocks` built from
      `sentences`: nothing is lost or reordered; only the first block can be
      empty, and it is exactly when the first sentence alone is over 500
      characters; no two neighbouring blocks would fit in 500 together;
      a block of several sentences is at most 501 characters long (the
      length test leaves out the joining space). */
  predicate Grouped(blocks: seq<string>, sentences: seq<string>) {
    Join(NonEmpty(blocks), " ") == Join(sentences, " ")
    && (blocks == [] <==> sentences == [])
    && (blocks != [] ==> (blocks[0] == [] <==> |sentences[0]| > 500))
    && (forall i :: 0 < i < |blocks| ==> blocks[i] != [])
    && (forall i :: 0 <= i < |blocks| - 1 ==> |blocks[i]| + |blocks[i + 1]| > 500)
    && (forall i :: 0 <= i < |blocks| ==> |blocks[i]| <= 501 || blocks[i] in sentences)
  }

  /** The state of the grouping loop after `k` sentences: `blocks` pushed
      so far and the `current` block. */
  predicate GroupInv(blocks: seq<string>, current: string, sentences: seq<string>, k: nat)
    requires k <= |sentences|
  {
    Join(NonEmpty(blocks + [current]), " ") == Join(sentences[..k], " ")
    && (k == 0 ==> blocks == [] && current == [])
    && (k > 0 ==> current != [] && (|sentences[0]| > 500 <==> blocks != [] && blocks[0] == []))
    && (forall i :: 0 < i < |blocks| ==> blocks[i] != [])
    && (forall i :: 0 <= i < |blocks| - 1 ==> |blocks[i]| + |blocks[i + 1]| > 500)
    && (blocks != [] ==> |blocks[|blocks| - 1]| + |current| > 500)
    && (forall i :: 0 <= i < |blocks| ==> |blocks[i]| <= 501 || blocks[i] in sentences)
    && (|current| <= 501 || current in sentences)
  }

  /** The grouping, one sentence at a time, from the pushed `blocks` and
      the `current` block: a sentence that would take the current block
      over 500 characters pushes it (even when empty) and starts the next
      one; otherwise it joins the current block after a space. A non-empty
      last block is pushed at the end. */
  function GroupFrom(blocks: seq<string>, current: string, rest: seq<string>): seq<string>
    decreases |rest|
  {
    if rest == [] then (if current != [] then blocks + [current] else blocks)
    else if |current| + |rest[0]| > 500 then GroupFrom(blocks + [current], rest[0], rest[1..])
    else GroupFrom(blocks, if current != [] then current + " " + rest[0] else rest[0], rest[1..])
  }

  /** The blocks the grouping makes of `sentences`. */
  function GroupRef(sentences: seq<string>): seq<string> {
    GroupFrom([], "", sentences)
  }

  /** The `for (const sentence of sentences)` loop with its
      `currentParagraph` accumulator, and the final push. */
  method GroupSentences(sentences: seq<string>) returns (blocks: seq<string>)
    requires forall i :: 0 <= i < |sentences| ==> sentences[i] != []
    ensures blocks == GroupRef(sentences)
    ensures Grouped(blocks, sentences)
  {
    blocks := [];
    var current: string := "";
    for k := 0 to |sentences|
      invariant GroupInv(blocks, current, sentences, k)
      invariant GroupFrom(blocks, current, sentences[k..]) == GroupRef(sentences)
    {
      var sentence := sentences[k];
      assert sentences[k..][0] == sentence && sentences[k..][1..] == sentences[k + 1..];
      if |current| + |sentence| > 500 {
        GroupFlush(blocks, current, sentences, k);
        blocks := blocks + [current];
        current := sentence;
      } else if current != [] {
        GroupExtend(blocks, current, sentences, k);
        current := current + " " + sentence;
      } else {
        GroupStart(blocks, current, sentences, k);
        current := current + sentence;
      }
    }
    GroupFinish(blocks, current, sentences);
    assert sentences[|sentences|..] == [];
    if current != [] {
      blocks := blocks + [current];
    }
  }

  /** The blocks of `GroupRef` keep the promises of `Grouped`. */
  lemma GroupRefGrouped(sentences: seq<string>)
    requires forall i :: 0 <= i < |sentences| ==> sentences[i] != []
    ensures Grouped(GroupRef(sentences), sentences)
  {
    GroupFromGrouped([], "", sentences, 0);
  }

  lemma {:induction false} GroupFromGrouped(blocks: seq<string>, current: string, sentences: seq<string>, k: nat)
    requires k <= |sentences| && forall i :: 0 <= i < |sentences| ==> sentences[i] != []
    requires GroupInv(blocks, current, sentences, k)
    ensures Grouped(GroupFrom(blocks, current, sentences[k..]), sentences)
    decreases |sentences| - k
  {
    if k == |sentences| {
      assert sentences[k..] == [];
      GroupFinish(blocks, current, sentences);
    } else {
      var s := sentences[k];
      assert sentences[k..][0] == s && sentences[k..][1..] == sentences[k + 1..];
      if |current| + |s| > 500 {
        GroupFlush(blocks, current, sentences, k);
        GroupFromGrouped(blocks + [current], s, sentences, k + 1);
      } else if current != [] {
        GroupExtend(blocks, current, sentences, k);
        GroupFromGrouped(blocks, current + " " + s, sentences, k + 1);
      } else {
        GroupStart(blocks, current, sentences, k);
        assert current + s == s;
        GroupFromGrouped(blocks, s, sentences, k + 1);
      }
    }
  }

  lemma GroupFlush(blocks: seq<string>, current: string, sentences: seq<string>, k: nat)
    requires k < |sentences| && sentences[k] != [] && GroupInv(blocks, current, sentences, k)
    requires |current| + |sentences[k]| > 500
    ensures GroupInv(blocks + [current], sentences[k], sentences, k + 1)
  {
    var all := blocks + [current];
    FlushJoin(blocks, current, sentences, k);
    PushKeepsNeighbours(blocks, current);
    if k > 0 {
      assert all[0] == if blocks == [] then current else blocks[0];
    }
    assert forall i :: 0 <= i < |all| ==> |all[i]| <= 501 || all[i] in sentences by {
      assert forall i :: 0 <= i < |blocks| ==> all[i] == blocks[i];
    }
  }

  /** Flushing keeps the text: the new current block is the next sentence. */
  lemma FlushJoin(blocks: seq<string>, current: string, sentences: seq<string>, k: nat)
    requires k < |sentences| && sentences[k] != [] && GroupInv(blocks, current, sentences, k)
    ensures Join(NonEmpty(blocks + [current] + [sentences[k]]), " ") == Join(sentences[..k + 1], " ")
  {
    var s := sentences[k];
    assert sentences[..k + 1] == sentences[..k] + [s];
    JoinSnoc(sentences[..k], s, " ");
    FlushStep(blocks, current, s);
    if k > 0 {
      NonEmptyConcat(blocks, [current]);
      assert NonEmpty([current]) == [current] by { assert [current][1..] == []; }
    }
  }

  lemma GroupExtend(blocks: seq<string>, current: string, sentences: seq<string>, k: nat)
    requires k < |sentences| && current != [] && GroupInv(blocks, current, sentences, k)
    requires |current| + |sentences[k]| <= 500
    ensures GroupInv(blocks, current + " " + sentences[k], sentences, k + 1)
  {
    var s := sentences[k];
    assert sentences[..k + 1] == sentences[..k] + [s];
    JoinSnoc(sentences[..k], s, " ");
    ExtendStep(blocks, current, s);
  }

  lemma GroupStart(blocks: seq<string>, current: string, sentences: seq<string>, k: nat)
    requires k < |sentences| && sentences[k] != [] && current == [] && GroupInv(blocks, current, sentences, k)
    requires |current| + |sentences[k]| <= 500
    ensures GroupInv(blocks, current + sentences[k], sentences, k + 1)
  {
    var s := sentences[k];
    assert k == 0;
    assert sentences[..1] == [s];
    assert NonEmpty([s]) == [s] by { assert [s][1..] == []; }
    assert current + s == s;
    assert blocks + [current + s] == [s];
  }

  lemma GroupFinish(blocks: seq<string>, current: string, sentences: seq<string>)
    requires forall i :: 0 <= i < |sentences| ==> sentences[i] != []
    requires GroupInv(blocks, current, sentences, |sentences|)
    ensures Grouped(if current != [] then blocks + [current] else blocks, sentences)
  {
    if current != [] {
      FinishPush(blocks, current, sentences);
    }
  }

  /** The final push of a non-empty current block. */
  lemma FinishPush(blocks: seq<string>, current: string, sentences: seq<string>)
    requires current != [] && GroupInv(blocks, current, sentences, |sentences|)
    ensures Grouped(blocks + [current], sentences)
  {
    var all := blocks + [current];
    assert sentences[..|sentences|] == sentences;
    assert Join(NonEmpty(all), " ") == Join(sentences, " ");
    assert all[0] == if blocks == [] then current else blocks[0];
    PushKeepsNeighbours(blocks, current);
    assert forall i :: 0 <= i < |all| ==> |all[i]| <= 501 || all[i] in sentences by {
      assert forall i :: 0 <= i < |blocks| ==> all[i] == blocks[i];
    }
  }

  /** Pushing the current block and starting a new one with `s`. */
  lemma FlushStep(blocks: seq<string>, current: string, s: string)
    requires s != []
    ensures Join(NonEmpty(blocks + [current] + [s]), " ")
         == if NonEmpty(blocks + [current]) == [] then s else Join(NonEmpty(blocks + [current]), " ") + " " + s
  {
    assert NonEmpty([s]) == [s] by { assert [s][1..] == []; }
    NonEmptyConcat(blocks + [current], [s]);
    JoinSnoc(NonEmpty(blocks + [current]), s, " ");
  }

  /** Pushing a block that does not fit with the last one keeps every
      neighbouring pair over 500. */
  lemma PushKeepsNeighbours(blocks: seq<string>, current: string)
    requires forall i :: 0 <= i < |blocks| - 1 ==> |blocks[i]| + |blocks[i + 1]| > 500
    requires blocks != [] ==> |blocks[|blocks| - 1]| + |current| > 500
    ensures forall i :: 0 <= i < |blocks + [current]| - 1 ==>
      |(blocks + [current])[i]| + |(blocks + [current])[i + 1]| > 500
  {
  }

  /** Adding `s` to a non-empty current block. */
  lemma ExtendStep(blocks: seq<string>, current: string, s: string)
    requires current != []
    ensures Join(NonEmpty(blocks + [current + " " + s]), " ")
         == Join(NonEmpty(blocks + [current]), " ") + " " + s
  {
    var c2 := current + " " + s;
    assert NonEmpty([c2]) == [c2] by { assert [c2][1..] == []; }
    assert NonEmpty([current]) == [current] by { assert [current][1..] == []; }
    NonEmptyConcat(blocks, [c2]);
    NonEmptyConcat(blocks, [current]);
    JoinSnoc(NonEmpty(blocks), c2, " ");
    JoinSnoc(NonEmpty(blocks), current, " ");
  }

  /* ---------- extractContent ---------- */

  /** `extractContent`: the paragraphs when there are several, otherwise
      the sentences of the collapsed text in blocks, otherwise the
      collapsed text itself. */
  method ExtractContent(text: string) returns (content: seq<string>)
    ensures content != []
    ensures |Paragraphs(text)| > 1 ==> content == Paragraphs(text)
    ensures |Paragraphs(text)| <= 1 && Sentences(CleanText(text)) != [] ==>
      content == GroupRef(Sentences(CleanText(text))) && Grouped(content, Sentences(CleanText(text)))
    ensures |Paragraphs(text)| <= 1 && Sentences(CleanText(text)) == [] ==>
      content == [CleanText(text)]
    ensures |Paragraphs(text)| <= 1 ==> Join(NonEmpty(content), " ") == CleanText(text)
  {
    var cleanedText := CleanText(text);
    var paragraphs := Paragraphs(text);
    if |paragraphs| > 1 {
      return paragraphs;
    }
    var sentences := Sentences(cleanedText);
    var result := GroupSentences(sentences);
    SentencesRejoin(cleanedText);
    if |result| > 0 {
      content := result;
    } else {
      content := [cleanedText];
      assert cleanedText == [];
    }
  }

  /** A text with no blank line whose first sentence is over 500
      characters long starts with an empty block. */
  lemma LongFirstSentence(text: string, content: seq<string>)
    requires |Paragraphs(text)| <= 1 && Sentences(CleanText(text)) != []
    requires |Sentences(CleanText(text))[0]| > 500
    requires Grouped(content, Sentences(CleanText(text)))
    ensures |content| >= 2 && content[0] == []
  {
    var s := Sentences(CleanText(text));
    SentencesRejoin(CleanText(text));
    assert Join(NonEmpty(content), " ") != [];
  }

  /* ---------- extractMetadata ---------- */

  /** `lines[0].trim()`, replaced by 'Untitled Text' when over 100
      characters. */
  function Title(text: string): (t: string)
    ensures '\n' !in t && |t| <= 100
    ensures t == "Untitled Text" || (t == Trim(FirstLine(text)) && IsTrimmed(t))
    ensures |Trim(FirstLine(text))| <= 100 ==> t == Trim(FirstLine(text))
    ensures |Trim(FirstLine(text))| > 100 ==> t == "Untitled Text"
  {
    var first := SplitOn(text, '\n')[0];
    FirstLineIsFirstPiece(text);
    var t := Trim(first);
    TrimKeepsAbsent(first, '\n');
    if |t| > 100 then "Untitled Text" else t
  }

  /** The text before the first newline. */
  function FirstLine(text: string): (l: string)
    ensures |l| <= |text| && l == text[..|l|] && '\n' !in l
    ensures |l| == |text| || text[|l|] == '\n'
  {
    if '\n' in text then text[..IndexOf(text, '\n')] else text
  }

  lemma FirstLineIsFirstPiece(text: string)
    ensures SplitOn(text, '\n')[0] == FirstLine(text)
  {
  }

  /** `text.split(/\s+/)`: pieces between maximal whitespace runs. */
  function SplitOnSpaceRuns(s: string): (r: seq<string>)
    ensures |r| >= 1
    ensures forall i :: 0 <= i < |r| ==> !(exists k :: 0 <= k < |r[i]| && IsSpace(r[i][k]))
    decreases |s|
  {
    if AllNonSpace(s) then [s]
    else
      var i := FirstSpace(s);
      [s[..i]] + SplitOnSpaceRuns(s[SkipSpace(s, i)..])
  }

  /** The pieces joined with single spaces give `replace(/\s+/g, ' ')` of
      the text: the split loses only whitespace, one run per cut. */
  lemma {:induction false} SplitOnSpaceRunsRejoin(s: string)
    ensures Join(SplitOnSpaceRuns(s), " ") == Collapse(s)
    decreases |s|
  {
    if AllNonSpace(s) {
      CollapseWord(s, []);
      assert s + [] == s;
    } else {
      var i := FirstSpace(s);
      var e := SkipSpace(s, i);
      SplitStep(s);
      SplitOnSpaceRunsRejoin(s[e..]);
      FirstRun(s);
      CollapseWordRun(s[..i], s[i..e], s[e..]);
    }
  }

  /** The text up to its first whitespace run, the run, and the rest. */
  lemma FirstRun(s: string)
    requires !AllNonSpace(s)
    ensures var i := FirstSpace(s); var e := SkipSpace(s, i);
      s == s[..i] + (s[i..e] + s[e..])
      && AllNonSpace(s[..i]) && s[i..e] != [] && AllSpace(s[i..e])
      && (s[e..] == [] || !IsSpace(s[e..][0]))
  {
    var i := FirstSpace(s);
    var e := SkipSpace(s, i);
    assert s == s[..i] + (s[i..e] + s[e..]);
    assert s[i..e][0] == s[i];
  }

  /** One cut of the split: the word before the first whitespace run,
      then the pieces of the text after that run. */
  lemma SplitStep(s: string)
    requires !AllNonSpace(s)
    ensures var i := FirstSpace(s);
      Join(SplitOnSpaceRuns(s), " ") == s[..i] + " " + Join(SplitOnSpaceRuns(s[SkipSpace(s, i)..]), " ")
  {
    var rest := SplitOnSpaceRuns(s[SkipSpace(s, FirstSpace(s))..]);
    assert ([s[..FirstSpace(s)]] + rest)[1..] == rest;
  }

  function FirstSpace(s: string): (i: nat)
    requires !AllNonSpace(s)
    ensures i < |s| && IsSpace(s[i]) && AllNonSpace(s[..i])
  {
    if IsSpace(s[0]) then 0
    else
      var i := FirstSpace(s[1..]) + 1;
      assert s[..i] == [s[0]] + s[1..][..i - 1];
      i
  }

  /** `text.split(/\s+/).filter(w => w.length > 0).length`. */
  function WordCount(text: string): nat {
    |NonEmpty(SplitOnSpaceRuns(text))|
  }

  /** A text has no words exactly when it is all whitespace. */
  lemma WordCountZeroIff(text: string)
    ensures WordCount(text) == 0 <==> AllSpace(text)
  {
    var pieces := SplitOnSpaceRuns(text);
    if AllSpace(text) {
      AllSpaceWords(text);
      NonEmptyOfEmpties(pieces);
    } else {
      var i :| 0 <= i < |text| && !IsSpace(text[i]);
      var j := NonSpaceInWord(text, i);
      NonEmptyKeeps(pieces, pieces[j]);
    }
  }

  lemma {:induction false} AllSpaceWords(s: string)
    requires AllSpace(s)
    ensures forall j :: 0 <= j < |SplitOnSpaceRuns(s)| ==> SplitOnSpaceRuns(s)[j] == []
    decreases |s|
  {
    if s != [] {
      assert IsSpace(s[0]);
      assert !AllNonSpace(s);
      var i := FirstSpace(s);
      assert i == 0;
      AllSpaceWords(s[SkipSpace(s, i)..]);
      assert SplitOnSpaceRuns(s) == [s[..i]] + SplitOnSpaceRuns(s[SkipSpace(s, i)..]);
    }
  }

  /** A non-whitespace character lands in a non-empty piece. */
  lemma {:induction false} NonSpaceInWord(s: string, i: nat) returns (j: nat)
    requires i < |s| && !IsSpace(s[i])
    ensures j < |SplitOnSpaceRuns(s)| && SplitOnSpaceRuns(s)[j] != []
    decreases |s|
  {
    var r := SplitOnSpaceRuns(s);
    if AllNonSpace(s) {
      j := 0;
    } else {
      var f := FirstSpace(s);
      var e := SkipSpace(s, f);
      assert r == [s[..f]] + SplitOnSpaceRuns(s[e..]);
      if i < f {
        j := 0;
        assert r[0][i] == s[i];
      } else {
        var j' := NonSpaceInWord(s[e..], i - e);
        j := j' + 1;
      }
    }
  }

  /** `extractMetadata`; the language is `detectLanguage`'s answer and
      the timestamp is a parameter. */
  function ExtractMetadata(text: string, language: string, timestamp: string): (m: Metadata)
    ensures m.Keys == {"title", "characterCount", "wordCount", "lineCount", "language", "timestamp"}
    ensures m["title"] == VStr(Title(text))
    ensures m["characterCount"] == VNum(|text| as real)
    ensures m["wordCount"] == VNum(WordCount(text) as real)
    ensures m["lineCount"] == VNum((Count(text, '\n') + 1) as real)
    ensures m["language"] == VStr(language)
    ensures m["timestamp"] == VStr(timestamp)
  {
    var title := Title(text);
    var words := WordCount(text);
    var lines := |SplitOn(text, '\n')|;
    SplitOnCount(text, '\n');
    assert lines == Count(text, '\n') + 1;
    MetadataRecord(title, |text|, words, lines, language, timestamp)
  }

  function MetadataRecord(title: string, characters: nat, words: nat, lines: nat,
                          language: string, timestamp: string): (m: Metadata)
    ensures m.Keys == {"title", "characterCount", "wordCount", "lineCount", "language", "timestamp"}
    ensures m["title"] == VStr(title) && m["characterCount"] == VNum(characters as real)
    ensures m["wordCount"] == VNum(words as real) && m["lineCount"] == VNum(lines as real)
    ensures m["language"] == VStr(language) && m["timestamp"] == VStr(timestamp)
  {
    map["title" := VStr(title),
        "characterCount" := VNum(characters as real),
        "wordCount" := VNum(words as real),
        "lineCount" := VNum(lines as real),
        "language" := VStr(language),
        "timestamp" := VStr(timestamp)]
  }

  /* ---------- detectLanguage ---------- */

  /** The candidate languages, in the order their entries are visited. */
  const Languages: seq<string> := ["en", "es", "fr", "de"]

  /** The seven `\b<word>\b` patterns of each language. */
  const LanguageWords: seq<seq<string>> := [
    ["the", "and", "of", "to", "a", "in", "that"],
    ["el", "la", "de", "y", "en", "que", "un"],
    ["le", "la", "de", "et", "en", "un", "une"],
    ["der", "die", "das", "und", "in", "ist", "zu"]
  ]

  /** `\w`: ASCII letters, digits and underscore. */
  predicate IsWordChar(c: char) {
    ('a' <= c <= 'z') || ('A' <= c <= 'Z') || ('0' <= c <= '9') || c == '_'
  }

  /** `\bw\b` matches at `k`. */
  predicate WordAt(s: string, w: string, k: nat) {
    k + |w| <= |s| && s[k..k + |w|] == w
    && (k == 0 || !IsWordChar(s[k - 1]))
    && (k + |w| == |s| || !IsWordChar(s[k + |w|]))
  }

  /** `/\bw\b/.test(s)`. */
  predicate HasWord(s: string, w: string) {
    exists k: nat :: k <= |s| && WordAt(s, w, k)
  }

  /** `patterns.reduce((score, p) => score + (p.test(sample) ? 1 : 0), 0)`. */
  function Score(sample: string, words: seq<string>): (n: nat)
    ensures n <= |words|
  {
    if words == [] then 0
    else Score(sample, words[..|words| - 1]) + (if HasWord(sample, words[|words| - 1]) then 1 else 0)
  }

  /** `text.toLowerCase().substring(0, 1000)`. */
  function Sample(text: string): (s: string)
    ensures |s| == if |text| < 1000 then |text| else 1000
  {
    var lower := Lower(text);
    if |lower| < 1000 then lower else lower[..1000]
  }

  /** The four scores, in language order. */
  function Scores(sample: string): (scores: seq<nat>)
    ensures |scores| == |Languages|
    ensures forall i :: 0 <= i < |scores| ==> scores[i] == Score(sample, LanguageWords[i]) <= 7
  {
    seq(|Languages|, i requires 0 <= i < |Languages| => Score(sample, LanguageWords[i]))
  }

  /** Language `k` wins: it beats every earlier language strictly, no later
      one beats it, and it scores above 0 unless it is the default 'en'. */
  predicate Winner(scores: seq<nat>, k: nat) {
    k < |scores|
    && (k == 0 || scores[k] > 0)
    && (forall j :: 0 <= j < k ==> scores[j] < scores[k])
    && (forall j :: k < j < |scores| ==> scores[j] <= scores[k])
  }

  /** `detectLanguage`: the running maximum over the scores. */
  method DetectLanguage(text: string) returns (lang: string)
    ensures exists k: nat :: k < |Languages| && lang == Languages[k] && Winner(Scores(Sample(text)), k)
  {
    var scores := Scores(Sample(text));
    var maxScore: nat := 0;
    var detected: nat := 0;
    for i := 0 to |Languages|
      invariant detected < |Languages| && (detected == 0 || detected < i)
      invariant maxScore == (if detected == 0 && (i == 0 || scores[0] == 0) then 0 else scores[detected])
      invariant detected == 0 || scores[detected] > 0
      invariant forall j :: 0 <= j < detected ==> scores[j] < scores[detected]
      invariant forall j :: detected < j < i ==> scores[j] <= maxScore
      invariant forall j :: 0 <= j < i ==> scores[j] <= maxScore
    {
      if scores[i] > maxScore {
        maxScore := scores[i];
        detected := i;
      }
    }
    lang := Languages[detected];
  }

  /** There is only one winner, so the result is determined by the
      scores. */
  lemma WinnerUnique(scores: seq<nat>, k1: nat, k2: nat)
    requires Winner(scores, k1) && Winner(scores, k2)
    ensures k1 == k2
  {
  }

  /** With no pattern found the answer is 'en'. */
  lemma NoMatchIsEnglish(scores: seq<nat>, k: nat)
    requires Winner(scores, k)
    requires forall j :: 0 <= j < |scores| ==> scores[j] == 0
    ensures k == 0
  {
  }

  /* ---------- processText ---------- */

  /** `processText`: the package of content blocks and metadata. The id
      and the timestamp are parameters. */
  method ProcessText(text: string, id: string, timestamp: string) returns (pkg: ContentPackage)
    ensures pkg.id == id && pkg.sourceType == Text && pkg.citations == Some([]) && pkg.sourceUrl.None?
    ensures pkg.content != []
    ensures |Paragraphs(text)| > 1 ==> pkg.content == Paragraphs(text)
    ensures |Paragraphs(text)| <= 1 && Sentences(CleanText(text)) != [] ==>
      pkg.content == GroupRef(Sentences(CleanText(text)))
    ensures |Paragraphs(text)| <= 1 && Sentences(CleanText(text)) == [] ==> pkg.content == [CleanText(text)]
    ensures |Paragraphs(text)| <= 1 ==> Join(NonEmpty(pkg.content), " ") == CleanText(text)
    ensures exists k: nat :: k < |Languages| && pkg.metadata == ExtractMetadata(text, Languages[k], timestamp)
                             && Winner(Scores(Sample(text)), k)
  {
    var content := ExtractContent(text);
    var language := DetectLanguage(text);
    var metadata := ExtractMetadata(text, language, timestamp);
    pkg := ContentPackage(id, content, metadata, Some([]), Text, None);
  }
}

/** The PDF adapter: the parsed text of a PDF becomes paragraph blocks, with
    a sentence split as fallback, and the document information becomes
    metadata. Reading the file and parsing the PDF are outside the model:
    their outcome is an input. */
module PdfAdapter {
  import opened Wrappers
  import opened Strings
  import opened Models
  import opened ParagraphSplit

  /* ---------- extractContent ---------- */

  /** `/\.(?=\s)/` matches at `i`: a full stop with whitespace after it.
      The lookahead leaves the whitespace in the next piece. */
  predicate SentenceEnd(s: string, i: nat) {
    i + 1 < |s| && s[i] == '.' && IsSpace(s[i + 1])
  }

  /** The first sentence end at or after `i`, or `|s|` when there is none. */
  function NextSentenceEnd(s: string, i: nat): (k: nat)
    requires i <= |s|
    ensures i <= k <= |s|
    ensures k < |s| ==> SentenceEnd(s, k)
    ensures forall j: nat :: i <= j < k ==> !SentenceEnd(s, j)
    decreases |s| - i
  {
    if i == |s| || SentenceEnd(s, i) then i else NextSentenceEnd(s, i + 1)
  }

  /** `s.split(/\.(?=\s)/)`: joining the pieces with the full stops the
      split removed gives `s` back. */
  function SplitSentences(s: string): (r: seq<string>)
    ensures |r| >= 1
    ensures Join(r, ".") == s
    ensures (forall j: nat :: !SentenceEnd(s, j)) ==> r == [s]
    decreases |s|
  {
    var k := NextSentenceEnd(s, 0);
    if k == |s| then [s]
    else
      var rest := SplitSentences(s[k + 1..]);
      assert s == s[..k] + "." + s[k + 1..];
      JoinConcat([s[..k]], rest, ".");
      [s[..k]] + rest
  }

  /** `.map(s => s.trim() + '.').filter(s => s.length > 10)`. */
  function LongSentences(pieces: seq<string>): (r: seq<string>)
    ensures |r| <= |pieces|
    ensures forall i :: 0 <= i < |r| ==> |r[i]| > 10 && r[i][|r[i]| - 1] == '.'
    ensures forall i :: 0 <= i < |r| ==> exists p :: p in pieces && r[i] == Trim(p) + "."
  {
    if pieces == [] then []
    else
      var s := Trim(pieces[0]) + ".";
      var rest := LongSentences(pieces[1..]);
      assert forall p :: p in pieces[1..] ==> p in pieces;
      assert pieces[0] in pieces && s == Trim(pieces[0]) + ".";
      if |s| > 10 then [s] + rest else rest
  }

  /** The sentence fallback: newlines to spaces, whitespace runs to one
      space, then the sentence split. */
  function SentenceFallback(text: string): (r: seq<string>)
    ensures forall i :: 0 <= i < |r| ==> |r[i]| > 10 && r[i][|r[i]| - 1] == '.'
  {
    LongSentences(SplitSentences(Collapse(ReplaceChar(text, '\n', ' '))))
  }

  /** `extractContent`: the paragraphs of the text, or the sentence
      fallback when there are none. */
  function ExtractContent(text: string): (r: seq<string>)
    ensures Paragraphs(text) != [] ==> r == Paragraphs(text)
    ensures Paragraphs(text) == [] ==> r == SentenceFallback(text)
    ensures forall i :: 0 <= i < |r| ==> r[i] != [] && IsTrimmed(r[i])
  {
    var paragraphs := Paragraphs(text);
    if paragraphs == [] then
      FallbackOnBlank(text);
      SentenceFallback(text)
    else paragraphs
  }

  /** The fallback runs only on a text that is all whitespace, and there
      it yields no block: the adapter's content is always its paragraphs. */
  lemma FallbackOnBlank(text: string)
    requires Paragraphs(text) == []
    ensures AllSpace(text)
    ensures SentenceFallback(text) == []
  {
    ParagraphsEmptyIff(text);
    CleanFacts(text);
    var c := Collapse(ReplaceChar(text, '\n', ' '));
    ShortBlank(c);
    assert forall j: nat :: !SentenceEnd(c, j);
    assert SplitSentences(c) == [c];
    assert |Trim(c) + "."| == 1;
  }

  /** A single-spaced string of whitespace has at most one character. */
  lemma ShortBlank(c: string)
    requires SingleSpaced(c) && AllSpace(c)
    ensures |c| <= 1
  {
    if |c| >= 2 {
      SpaceThenText(c);
      assert false;
    }
  }

  /** In a single-spaced string, a space is followed by something else. */
  lemma SpaceThenText(c: string)
    requires SingleSpaced(c) && |c| >= 2 && IsSpace(c[0])
    ensures !IsSpace(c[1])
  {
    assert SpaceOk(c, 0);
  }

  /** The content is the paragraphs, whatever the text. */
  lemma ContentIsParagraphs(text: string)
    ensures ExtractContent(text) == Paragraphs(text)
    ensures ExtractContent(text) == [] <==> AllSpace(text)
  {
    ParagraphsEmptyIff(text);
    if Paragraphs(text) == [] {
      FallbackOnBlank(text);
    }
  }

  /* ---------- extractMetadata ---------- */

  /** The document information pdf-parse reports; each entry may be absent. */
  datatype PdfInfo = PdfInfo(
    title: Option<string>,
    author: Option<string>,
    creator: Option<string>,
    producer: Option<string>,
    creationDate: Option<string>,
    modDate: Option<string>)

  /** What the PDF parser returns. An absent `info` is the record with
      every entry absent (`info?.X` is then undefined for each X), an absent
      `metadata` the empty map. */
  datatype PdfData = PdfData(text: string, info: PdfInfo, metadata: Metadata, numPages: nat)

  const NoInfo := PdfInfo(None, None, None, None, None, None)

  /** The fields of the uploaded file the adapter reads. */
  datatype PdfFile = PdfFile(name: string, size: nat, fileType: string)

  /** `x || null`: a present, non-empty string, else `null`. */
  function OrNull(x: Option<string>): (v: Value)
    ensures v == VNull <==> x.None? || x.value == ""
    ensures v != VNull ==> v == VStr(x.value)
  {
    if x.Some? && x.value != "" then VStr(x.value) else VNull
  }

  /** The ten keys the adapter fills before the metadata spread. */
  const BaseKeys: set<string> := {"title", "author", "creator", "producer", "creationDate",
                                  "modificationDate", "pageCount", "fileSize", "fileName", "fileType"}

  /** The object literal before `...metadata`. */
  function BaseMetadata(data: PdfData, file: PdfFile): (m: Metadata)
    ensures m.Keys == BaseKeys
    ensures m["title"] == VStr(OrDefault(data.info.title, file.name))
    ensures m["author"] == VStr(OrDefault(data.info.author, "Unknown"))
    ensures m["creator"] == VStr(OrDefault(data.info.creator, "Unknown"))
    ensures m["producer"] == VStr(OrDefault(data.info.producer, "Unknown"))
    ensures m["creationDate"] == OrNull(data.info.creationDate)
    ensures m["modificationDate"] == OrNull(data.info.modDate)
    ensures m["pageCount"] == VNum(data.numPages as real)
    ensures m["fileSize"] == VNum(file.size as real)
    ensures m["fileName"] == VStr(file.name) && m["fileType"] == VStr(file.fileType)
  {
    map["title" := VStr(OrDefault(data.info.title, file.name)),
        "author" := VStr(OrDefault(data.info.author, "Unknown")),
        "creator" := VStr(OrDefault(data.info.creator, "Unknown")),
        "producer" := VStr(OrDefault(data.info.producer, "Unknown")),
        "creationDate" := OrNull(data.info.creationDate),
        "modificationDate" := OrNull(data.info.modDate),
        "pageCount" := VNum(data.numPages as real),
        "fileSize" := VNum(file.size as real),
        "fileName" := VStr(file.name),
        "fileType" := VStr(file.fileType)]
  }

  /** `extractMetadata`: the defaults, with every key of the parser's
      metadata spread over them. */
  function ExtractMetadata(data: PdfData, file: PdfFile): (m: Metadata)
    ensures m.Keys == BaseKeys + data.metadata.Keys
    ensures forall k :: k in data.metadata ==> m[k] == data.metadata[k]
    ensures forall k :: k in BaseKeys && k !in data.metadata ==> m[k] == BaseMetadata(data, file)[k]
  {
    BaseMetadata(data, file) + data.metadata
  }

  /** Without parser metadata, a PDF with no document information gets the
      file name as title and the placeholder values. */
  lemma MetadataDefaults(data: PdfData, file: PdfFile)
    requires data.info == NoInfo && data.metadata == map[]
    ensures ExtractMetadata(data, file)["title"] == VStr(file.name)
    ensures ExtractMetadata(data, file)["author"] == VStr("Unknown")
    ensures ExtractMetadata(data, file)["creator"] == VStr("Unknown")
    ensures ExtractMetadata(data, file)["producer"] == VStr("Unknown")
    ensures ExtractMetadata(data, file)["creationDate"] == VNull
    ensures ExtractMetadata(data, file)["modificationDate"] == VNull
  {
  }

  /* ---------- processPdf ---------- */

  /** `processPdf`. `parsed` is the outcome of reading and parsing the
      file (or the error message), `id` the generated id. */
  function ProcessPdf(file: PdfFile, parsed: Result<PdfData, string>, id: string)
    : (r: Result<ContentPackage, string>)
    ensures parsed.Failure? ==> r == Failure("Failed to process PDF: " + parsed.error)
    ensures r.Success? <==> parsed.Success?
    ensures r.Success? ==>
      var p := r.value;
      p.id == id && p.sourceType == Pdf && p.citations == Some([file.name]) && p.sourceUrl.None?
      && p.content == Paragraphs(parsed.value.text)
      && p.metadata == ExtractMetadata(parsed.value, file)
  {
    if parsed.Failure? then Failure("Failed to process PDF: " + parsed.error)
    else
      var data := parsed.value;
      ContentIsParagraphs(data.text);
      Success(ContentPackage(id, ExtractContent(data.text), ExtractMetadata(data, file),
                             Some([file.name]), Pdf, None))
  }
}

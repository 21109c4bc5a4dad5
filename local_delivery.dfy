/** The local delivery service: the formats on offer, file names made safe,
    the `[MM:SS] speaker: text` transcript, and the podcast package with its
    metadata. Writing files is outside the model: the outcome of the writes
    (the audio file's size, or the error) is an input, and a path is the
    output directory and a file name joined by `/`. */
module LocalDelivery {
  import opened Wrappers
  import opened Strings
  import opened Models

  /* ---------- getAvailableFormats ---------- */

  /** `getAvailableFormats`: MP3, WAV and OGG Vorbis, each named by its
      extension. */
  function AvailableFormats(): (r: seq<DeliveryFormat>)
    ensures |r| == 3
    ensures r[0].id == "mp3" && r[1].id == "wav" && r[2].id == "ogg"
    ensures forall i :: 0 <= i < |r| ==> r[i].extension == r[i].id
    ensures r[0].mimeType == "audio/mpeg" && r[1].mimeType == "audio/wav" && r[2].mimeType == "audio/ogg"
  {
    [Mp3, Wav, Ogg]
  }

  const Mp3 := DeliveryFormat("mp3", "MP3", "mp3", "audio/mpeg",
                              "Standard audio format with good compression and wide compatibility")
  const Wav := DeliveryFormat("wav", "WAV", "wav", "audio/wav", "Uncompressed audio format with high quality")
  const Ogg := DeliveryFormat("ogg", "OGG Vorbis", "ogg", "audio/ogg", "Open source audio format with good compression")

  /* ---------- sanitizeFilename ---------- */

  /** An ASCII letter of either case or a digit: what `[a-z0-9]` with the
      `i` flag matches. */
  predicate IsAlnum(c: char) {
    'a' <= c <= 'z' || 'A' <= c <= 'Z' || '0' <= c <= '9'
  }

  /** A character a sanitized name may hold: `[a-z0-9_]`. */
  predicate IsSafe(c: char) {
    'a' <= c <= 'z' || '0' <= c <= '9' || c == '_'
  }

  predicate AllSafe(s: string) {
    forall i :: 0 <= i < |s| ==> IsSafe(s[i])
  }

  /** No two underscores side by side. */
  predicate NoDoubleUnderscore(s: string) {
    forall i :: 0 <= i < |s| - 1 ==> !(s[i] == '_' && s[i + 1] == '_')
  }

  /** `replace(/[^a-z0-9]/gi, '_')`. */
  function Underscore(s: string): (r: string)
    ensures |r| == |s|
    ensures forall i :: 0 <= i < |s| ==> r[i] == if IsAlnum(s[i]) then s[i] else '_'
  {
    seq(|s|, i requires 0 <= i < |s| => if IsAlnum(s[i]) then s[i] else '_')
  }

  /** `replace(/_+/g, '_')`: each run of underscores becomes one. */
  function Squeeze(s: string): (r: string)
    ensures |r| <= |s|
    ensures NoDoubleUnderscore(r)
    ensures s != [] ==> r != [] && r[0] == s[0]
    ensures forall i :: 0 <= i < |r| ==> r[i] in s
    decreases |s|
  {
    if |s| <= 1 then s
    else if s[0] == '_' && s[1] == '_' then
      var r := Squeeze(s[1..]);
      assert forall i :: 0 <= i < |r| ==> r[i] in s by {
        assert forall c :: c in s[1..] ==> c in s;
      }
      r
    else
      var t := Squeeze(s[1..]);
      var r := [s[0]] + t;
      assert forall i :: 0 < i < |r| ==> r[i] == t[i - 1];
      assert forall c :: c in s[1..] ==> c in s;
      r
  }

  /** `sanitizeFilename`. */
  function Sanitize(name: string): (r: string)
    ensures |r| <= |name|
    ensures AllSafe(r) && NoDoubleUnderscore(r)
  {
    var u := Underscore(name);
    var q := Squeeze(u);
    assert forall i :: 0 <= i < |q| ==> IsAlnum(q[i]) || q[i] == '_' by {
      forall i | 0 <= i < |q| ensures IsAlnum(q[i]) || q[i] == '_' {
        var j :| 0 <= j < |u| && u[j] == q[i];
      }
    }
    Lower(q)
  }

  /** A string with no run of underscores comes through `Squeeze`
      unchanged. */
  lemma {:induction false} SqueezeNoRun(s: string)
    requires NoDoubleUnderscore(s)
    ensures Squeeze(s) == s
    decreases |s|
  {
    if |s| > 1 {
      assert NoDoubleUnderscore(s[1..]) by {
        forall i | 0 <= i < |s[1..]| - 1 ensures !(s[1..][i] == '_' && s[1..][i + 1] == '_') {
          assert s[1..][i] == s[i + 1] && s[1..][i + 1] == s[i + 2];
        }
      }
      SqueezeNoRun(s[1..]);
      assert s == [s[0]] + s[1..];
    }
  }

  /** A name is left as it is exactly when it is already safe and has no
      run of underscores; so sanitizing twice is sanitizing once. */
  lemma SanitizeFixedPoints(s: string)
    ensures Sanitize(s) == s <==> AllSafe(s) && NoDoubleUnderscore(s)
    ensures Sanitize(Sanitize(s)) == Sanitize(s)
  {
    if AllSafe(s) && NoDoubleUnderscore(s) {
      SanitizeSafe(s);
    }
    SanitizeSafe(Sanitize(s));
  }

  lemma SanitizeSafe(s: string)
    requires AllSafe(s) && NoDoubleUnderscore(s)
    ensures Sanitize(s) == s
  {
    assert Underscore(s) == s;
    SqueezeNoRun(s);
    assert Lower(s) == s;
  }

  /* ---------- generateTranscript ---------- */

  /** `Math.floor(t / 60)`. */
  function Minutes(t: real): int {
    (t / 60.0).Floor
  }

  /** JavaScript's `t % 60` on a number: the remainder takes the sign of `t`. */
  function Mod60(t: real): real {
    var q := if t >= 0.0 then (t / 60.0).Floor else -((-t / 60.0).Floor);
    t - 60.0 * q as real
  }

  /** `Math.floor(t % 60)`. */
  function Seconds(t: real): int {
    Mod60(t).Floor
  }

  /** `MM:SS`: both numbers padded to at least two digits. */
  function Timestamp(t: real): string {
    PadStart2(IntToString(Minutes(t))) + ":" + PadStart2(IntToString(Seconds(t)))
  }

  /** A start time that is not negative gives `MM:SS` with a seconds field
      of exactly two digits below 60; read back, the two fields give the
      whole seconds of the start time. */
  lemma TimestampReadsBack(t: real)
    requires t >= 0.0
    ensures ReadsBackAs(Timestamp(t), Minutes(t), Seconds(t))
    ensures 0 <= Seconds(t) < 60 && Minutes(t) * 60 + Seconds(t) == t.Floor
  {
    SecondsBelow60(t);
    FieldsReadBack(Minutes(t), Seconds(t));
  }

  /** `ts` is `MM:SS`: digits, a colon, two digits, reading as `m` and `s`. */
  predicate ReadsBackAs(ts: string, m: nat, s: nat) {
    |ts| >= 5 && ts[|ts| - 3] == ':'
    && AllDigits(ts[..|ts| - 3]) && AllDigits(ts[|ts| - 2..])
    && ParseNat(ts[..|ts| - 3]) == m && ParseNat(ts[|ts| - 2..]) == s
  }

  /** The `MM:SS` text of whole minutes and seconds below 60 reads back as
      those two numbers. */
  lemma FieldsReadBack(m: nat, s: nat)
    requires s < 60
    ensures ReadsBackAs(PadStart2(NatToString(m)) + ":" + PadStart2(NatToString(s)), m, s)
  {
    PadStart2Nat(m);
    PadStart2Nat(s);
    TwoDigits(s);
    FieldsSplit(PadStart2(NatToString(m)), PadStart2(NatToString(s)), m, s);
  }

  /** A number below 100, padded, has two characters. */
  lemma TwoDigits(n: nat)
    requires n < 100
    ensures |PadStart2(NatToString(n))| == 2
  {
    if n >= 10 {
      assert NatToString(n) == NatToString(n / 10) + [DigitChar(n % 10)];
    }
  }

  /** Two numerals joined by a colon, the second of two characters, split
      back at the third-last character. */
  lemma FieldsSplit(a: string, b: string, m: nat, s: nat)
    requires |a| >= 2 && AllDigits(a) && ParseNat(a) == m
    requires |b| == 2 && AllDigits(b) && ParseNat(b) == s
    ensures ReadsBackAs(a + ":" + b, m, s)
  {
    var ts := a + ":" + b;
    assert ts[..|ts| - 3] == a;
    assert ts[|ts| - 2..] == b;
  }

  /** For a start time that is not negative, both fields are whole
      non-negative numbers, the seconds below 60, adding up to its floor. */
  lemma SecondsBelow60(t: real)
    requires t >= 0.0
    ensures Minutes(t) >= 0 && 0 <= Seconds(t) < 60
    ensures Minutes(t) * 60 + Seconds(t) == t.Floor
  {
    var m := (t / 60.0).Floor;
    assert m as real <= t / 60.0 < m as real + 1.0;
    var r := t - 60.0 * m as real;
    assert 0.0 <= r < 60.0;
    assert Mod60(t) == r;
    var s := r.Floor;
    assert t == r + (60 * m) as real;
    assert (s + 60 * m) as real <= t < (s + 60 * m) as real + 1.0;
  }

  /** How a speaker is named: `Narrator` for the narrator, otherwise the
      raw speaker id. */
  function Label(speakerId: string): string {
    if speakerId == "narrator" then "Narrator" else speakerId
  }

  /** One `[MM:SS] label: text` entry, with its blank line. */
  function Entry(seg: AudioSegment): (e: string)
    ensures |e| >= 2 && e[0] == '[' && e[|e| - 2..] == "\n\n"
  {
    "[" + Timestamp(seg.startTime) + "] " + Label(seg.speakerId) + ": " + seg.text + "\n\n"
  }

  /** The strings of `xs` one after the other. */
  function Concat(xs: seq<string>): string {
    if xs == [] then "" else Concat(xs[..|xs| - 1]) + xs[|xs| - 1]
  }

  lemma {:induction false} ConcatAppend(xs: seq<string>, ys: seq<string>)
    ensures Concat(xs + ys) == Concat(xs) + Concat(ys)
    decreases |ys|
  {
    if ys == [] {
      assert xs + ys == xs;
    } else {
      var init, last := ys[..|ys| - 1], ys[|ys| - 1];
      assert (xs + ys)[..|xs + ys| - 1] == xs + init;
      assert Concat(xs + ys) == Concat(xs + init) + last;
      ConcatAppend(xs, init);
      assert Concat(ys) == Concat(init) + last;
    }
  }

  /** The entry lines: one per segment, in segment order. */
  function Entries(segs: seq<AudioSegment>): (r: seq<string>)
    ensures |r| == |segs| && forall k :: 0 <= k < |segs| ==> r[k] == Entry(segs[k])
  {
    seq(|segs|, k requires 0 <= k < |segs| => Entry(segs[k]))
  }

  /** Segment `k`'s entry stands right after the entries of the segments
      before it and right before those of the segments after it. */
  lemma EntryAt(segs: seq<AudioSegment>, k: nat)
    requires k < |segs|
    ensures var e := Entries(segs);
      Concat(e) == Concat(e[..k]) + Entry(segs[k]) + Concat(e[k + 1..])
  {
    ConcatAt(Entries(segs), k);
  }

  lemma ConcatAt(xs: seq<string>, k: nat)
    requires k < |xs|
    ensures Concat(xs) == Concat(xs[..k]) + xs[k] + Concat(xs[k + 1..])
  {
    assert xs == xs[..k + 1] + xs[k + 1..];
    ConcatAppend(xs[..k + 1], xs[k + 1..]);
    ConcatSnoc(xs, k);
  }

  lemma ConcatPush(xs: seq<string>, x: string)
    ensures Concat(xs + [x]) == Concat(xs) + x
  {
    assert (xs + [x])[..|xs|] == xs;
  }

  /** `audio.metadata.title` when it is a non-empty string. */
  function TitleOf(metadata: Metadata): Option<string> {
    if "title" in metadata && metadata["title"].VStr? && metadata["title"].s != ""
    then Some(metadata["title"].s) else None
  }

  /** `audio.metadata.description` when it is a non-empty string. */
  function DescriptionOf(metadata: Metadata): Option<string> {
    if "description" in metadata && metadata["description"].VStr? && metadata["description"].s != ""
    then Some(metadata["description"].s) else None
  }

  /** `# title` and a blank line. */
  function Header(audio: PodcastAudio): string {
    "# " + OrDefault(TitleOf(audio.metadata), "Untitled Podcast") + "\n\n"
  }

  /** The transcript: the header, then one entry per segment. */
  function Transcript(audio: PodcastAudio): string {
    Header(audio) + Concat(Entries(audio.segments))
  }

  /** `generateTranscript`. */
  method GenerateTranscript(audio: PodcastAudio) returns (transcript: string)
    ensures transcript == Transcript(audio)
  {
    ghost var lines := Entries(audio.segments);
    transcript := Header(audio);
    var i := 0;
    while i < |audio.segments|
      invariant 0 <= i <= |audio.segments|
      invariant transcript == Header(audio) + Concat(lines[..i])
    {
      var entry := FormatEntry(audio.segments[i]);
      AppendLine(Header(audio), lines, i, transcript, entry);
      transcript := transcript + entry;
      i := i + 1;
    }
    assert lines[..i] == lines;
  }

  /** Appending line `i` to the text built from the first `i` lines. */
  lemma AppendLine(header: string, xs: seq<string>, i: nat, text: string, line: string)
    requires i < |xs| && text == header + Concat(xs[..i]) && line == xs[i]
    ensures text + line == header + Concat(xs[..i + 1])
  {
    ConcatSnoc(xs, i);
  }

  /** The body of the loop: one segment's timestamped, labelled line. */
  method FormatEntry(segment: AudioSegment) returns (entry: string)
    ensures entry == Entry(segment)
  {
    var minutes := Minutes(segment.startTime);
    var seconds := Seconds(segment.startTime);
    var timestamp := PadStart2(IntToString(minutes)) + ":" + PadStart2(IntToString(seconds));
    if segment.speakerId == "narrator" {
      entry := "[" + timestamp + "] Narrator: " + segment.text + "\n\n";
    } else {
      entry := "[" + timestamp + "] " + segment.speakerId + ": " + segment.text + "\n\n";
    }
  }

  lemma ConcatSnoc(xs: seq<string>, i: nat)
    requires i < |xs|
    ensures Concat(xs[..i + 1]) == Concat(xs[..i]) + xs[i]
  {
    assert xs[..i + 1] == xs[..i] + [xs[i]];
    ConcatPush(xs[..i], xs[i]);
  }

  /* ---------- packagePodcast ---------- */

  /** `path.join` for a directory and a plain file name. */
  function PathJoin(directory: string, fileName: string): string {
    directory + "/" + fileName
  }

  /** The five keys packaging adds to the audio's metadata. */
  const PackagingKeys: set<string> := {"format", "includedTranscript", "includedSpeakerLabels",
                                       "includedChapters", "packagedAt"}

  /** The packaging record spread over the audio's metadata. */
  function PackagingRecord(options: DeliveryOptions, packagedAt: string): (m: Metadata)
    ensures m.Keys == PackagingKeys
  {
    map["format" := VStr(options.format.id),
        "includedTranscript" := VBool(options.includeTranscript),
        "includedSpeakerLabels" := VBool(options.includeSpeakerLabels),
        "includedChapters" := VBool(options.includeChapters),
        "packagedAt" := VStr(packagedAt)]
  }

  /** The package metadata: with `includeMetadata`, the audio's metadata
      with the packaging record over it; without it, the audio's metadata
      less the five packaging keys. */
  function PackageMetadata(audioMetadata: Metadata, options: DeliveryOptions, packagedAt: string): Metadata {
    if options.includeMetadata then audioMetadata + PackagingRecord(options, packagedAt)
    else audioMetadata - PackagingKeys
  }

  /** Without `includeMetadata` exactly the five packaging keys are gone
      and every other key keeps its value; with it, the five keys hold the
      options. */
  lemma PackageMetadataKeys(audioMetadata: Metadata, options: DeliveryOptions, packagedAt: string)
    ensures var m := PackageMetadata(audioMetadata, options, packagedAt);
      forall k :: k !in PackagingKeys ==> (k in m <==> k in audioMetadata) && (k in m ==> m[k] == audioMetadata[k])
    ensures var m := PackageMetadata(audioMetadata, options, packagedAt);
      !options.includeMetadata ==> forall k :: k in PackagingKeys ==> k !in m
    ensures var m := PackageMetadata(audioMetadata, options, packagedAt);
      options.includeMetadata ==>
        PackagingKeys <= m.Keys && m["format"] == VStr(options.format.id)
        && m["includedTranscript"] == VBool(options.includeTranscript)
        && m["packagedAt"] == VStr(packagedAt)
  {
  }

  /** The name the audio and transcript files share: the sanitized title,
      or the package id when there is no title. */
  function BaseName(audio: PodcastAudio, packageId: string): string {
    match TitleOf(audio.metadata)
    case Some(title) => Sanitize(title)
    case None => packageId
  }

  /** `packagePodcast`. `packageId`, `createdAt` and `packagedAt` are the
      generated id and clock readings; `written` is the outcome of writing
      the files: the audio file's size, or the error. */
  function PackageError(e: string): string {
    "Failed to package podcast: " + e
  }

  /** The package's metadata: the audio's metadata and the packaging
      record, whose five keys are deleted again one by one unless metadata
      was asked for. */
  method BuildMetadata(audioMetadata: Metadata, options: DeliveryOptions, packagedAt: string)
    returns (metadata: Metadata)
    ensures metadata == PackageMetadata(audioMetadata, options, packagedAt)
  {
    metadata := audioMetadata + PackagingRecord(options, packagedAt);
    if !options.includeMetadata {
      metadata := metadata - {"format"};
      metadata := metadata - {"includedTranscript"};
      metadata := metadata - {"includedSpeakerLabels"};
      metadata := metadata - {"includedChapters"};
      metadata := metadata - {"packagedAt"};
      assert metadata == audioMetadata - PackagingKeys;
    }
  }

  method PackagePodcast(outputDirectory: string, audio: PodcastAudio, options: DeliveryOptions,
                        packageId: string, written: Result<nat, string>,
                        createdAt: string, packagedAt: string)
    returns (r: Result<PodcastPackage, string>)
    ensures written.Failure? ==> r == Failure(PackageError(written.error))
    ensures r.Success? <==> written.Success?
    ensures r.Success? ==>
      var p := r.value;
      var base := BaseName(audio, packageId);
      p.id == packageId
      && p.title == OrDefault(TitleOf(audio.metadata), "Untitled Podcast")
      && p.description == OrDefault(DescriptionOf(audio.metadata), "")
      && p.audioUrl == PathJoin(outputDirectory, base + "." + options.format.extension)
      && (p.transcriptUrl.Some? <==> options.includeTranscript)
      && (options.includeTranscript ==> p.transcriptUrl == Some(PathJoin(outputDirectory, base + ".txt")))
      && p.duration == audio.totalDuration && p.format == options.format.id
      && p.size == written.value && p.createdAt == createdAt && p.imageUrl.None?
      && p.metadata == PackageMetadata(audio.metadata, options, packagedAt)
  {
    var sanitizedTitle := BaseName(audio, packageId);
    var audioPath := PathJoin(outputDirectory, sanitizedTitle + "." + options.format.extension);
    if written.Failure? {
      return Failure(PackageError(written.error));
    }
    var fileSize := written.value;
    var transcriptUrl: Option<string> := None;
    if options.includeTranscript {
      var transcript := GenerateTranscript(audio);
      transcriptUrl := Some(PathJoin(outputDirectory, sanitizedTitle + ".txt"));
    }
    var metadata := BuildMetadata(audio.metadata, options, packagedAt);
    var title := OrDefault(TitleOf(audio.metadata), "Untitled Podcast");
    var description := OrDefault(DescriptionOf(audio.metadata), "");
    r := Success(PodcastPackage(packageId, title, description, audioPath, transcriptUrl, None,
                                audio.totalDuration, options.format.id, fileSize, createdAt, metadata));
  }

  /** The audio file of a titled podcast is named by safe characters only. */
  lemma TitledFileNames(audio: PodcastAudio, packageId: string)
    requires TitleOf(audio.metadata).Some?
    ensures AllSafe(BaseName(audio, packageId)) && NoDoubleUnderscore(BaseName(audio, packageId))
    ensures |BaseName(audio, packageId)| <= |TitleOf(audio.metadata).value|
  {
  }

  /* ---------- savePodcast and generateShareableLink ---------- */

  /** The metadata file written next to the audio: a safe stem, taken
      from the title and no longer than it, then `-metadata.json`. */
  function MetadataFileName(title: string): (f: string)
    ensures 14 <= |f| <= |title| + 14 && f[|f| - 14..] == "-metadata.json"
    ensures AllSafe(f[..|f| - 14]) && NoDoubleUnderscore(f[..|f| - 14])
    ensures Sanitize(f[..|f| - 14]) == f[..|f| - 14] && f[..|f| - 14] == Sanitize(title)
  {
    var stem := Sanitize(title);
    SanitizeFixedPoints(title);
    var f := stem + "-metadata.json";
    assert f[..|f| - 14] == stem && f[|f| - 14..] == "-metadata.json";
    f
  }

  /** `savePodcast`: the audio path, once the metadata file is written;
      `writeError` is the write's failure, if any. */
  function SavePodcast(pkg: PodcastPackage, writeError: Option<string>): (r: Result<string, string>)
    ensures writeError.None? <==> r == Success(pkg.audioUrl)
    ensures writeError.Some? ==> r == Failure("Failed to save podcast: " + writeError.value)
  {
    if writeError.Some? then Failure("Failed to save podcast: " + writeError.value)
    else Success(pkg.audioUrl)
  }

  /** `generateShareableLink`: a `file://` URL of the audio path. */
  function ShareableLink(pkg: PodcastPackage): (link: string)
    ensures |link| >= 7 && link[..7] == "file://" && link[7..] == pkg.audioUrl
  {
    "file://" + pkg.audioUrl
  }
}

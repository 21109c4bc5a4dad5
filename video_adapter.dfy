/** The video adapter: caption XML decoded and regrouped into sentences,
    the content blocks of a video (title, description paragraphs,
    captions, placeholders), and `m:ss` / `h:mm:ss` durations. The video
    details and the caption XML are inputs; fetching them is not part of
    this model. */
module VideoAdapter {
  import opened Wrappers
  import opened Strings
  import opened Models
  import opened ParagraphSplit

  /* ---------- parseCaptions ---------- */

  /** The characters `.` does not match without the `s` flag. */
  predicate IsLineTerminator(c: char) {
    c == '\n' || c == '\r' || c == '\U{2028}' || c == '\U{2029}'
  }

  predicate NoLineTerminator(s: string) {
    forall i :: 0 <= i < |s| ==> !IsLineTerminator(s[i])
  }

  /** The lazy `(.*?)<\/text>` from `q`: the first `</text>` reached
      without crossing a line terminator. */
  function CloseFrom(xml: string, q: nat): (r: Option<nat>)
    requires q <= |xml|
    ensures r.Some? ==> q <= r.value && OccursAt(xml, "</text>", r.value)
    decreases |xml| - q
  {
    if OccursAt(xml, "</text>", q) then Some(q)
    else if q < |xml| && !IsLineTerminator(xml[q]) then CloseFrom(xml, q + 1)
    else None
  }

  /** `<text[^>]*>(.*?)<\/text>` matched at `p`: the span of the captured
      group. `[^>]*` runs to the first `>`. */
  function MatchAt(xml: string, p: nat): (r: Option<(nat, nat)>)
    ensures r.Some? ==> p + 6 <= r.value.0 <= r.value.1 && r.value.1 + 7 <= |xml|
  {
    if OccursAt(xml, "<text", p) && '>' in xml[p + 5..] then
      var q := p + 5 + IndexOf(xml[p + 5..], '>') + 1;
      match CloseFrom(xml, q)
      case None => None
      case Some(k) => Some((q, k))
    else None
  }

  /** The next match at or after `from`, as `regex.exec` finds it. */
  function NextMatch(xml: string, from: nat): (r: Option<(nat, nat)>)
    requires from <= |xml|
    ensures r.Some? ==> from + 6 <= r.value.0 <= r.value.1 && r.value.1 + 7 <= |xml|
    decreases |xml| - from
  {
    if from == |xml| then None
    else if MatchAt(xml, from).Some? then MatchAt(xml, from)
    else NextMatch(xml, from + 1)
  }

  /** The lazy group stops at a line terminator. */
  lemma {:induction false} CloseOnOneLine(xml: string, q: nat)
    requires q <= |xml| && CloseFrom(xml, q).Some?
    ensures forall i :: q <= i < CloseFrom(xml, q).value ==> !IsLineTerminator(xml[i])
    decreases |xml| - q
  {
    if !OccursAt(xml, "</text>", q) {
      CloseOnOneLine(xml, q + 1);
    }
  }

  /** The group of the next match lies on one line. */
  lemma {:induction false} MatchOnOneLine(xml: string, from: nat)
    requires from <= |xml| && NextMatch(xml, from).Some?
    ensures var m := NextMatch(xml, from).value;
      forall i :: m.0 <= i < m.1 ==> !IsLineTerminator(xml[i])
    decreases |xml| - from
  {
    if MatchAt(xml, from).Some? {
      var p := from;
      var q := p + 5 + IndexOf(xml[p + 5..], '>') + 1;
      CloseOnOneLine(xml, q);
    } else {
      MatchOnOneLine(xml, from + 1);
    }
  }

  /** The captured groups of all matches from `from` on, in order. */
  function Captures(xml: string, from: nat): (r: seq<string>)
    requires from <= |xml|
    decreases |xml| - from
  {
    match NextMatch(xml, from)
    case None => []
    case Some((q, k)) =>
      [xml[q..k]] + Captures(xml, k + 7)
  }

  /** `.` does not match a line terminator, so no capture spans a line. */
  lemma {:induction false} CapturesOnOneLine(xml: string, from: nat)
    requires from <= |xml|
    ensures AllOnOneLine(Captures(xml, from))
    decreases |xml| - from
  {
    var m := NextMatch(xml, from);
    if m.Some? {
      CapturesOnOneLine(xml, m.value.1 + 7);
      CaptureThenRest(xml, from, m.value.0, m.value.1);
    }
  }

  /** The first capture is on one line, so the rest decides. */
  lemma CaptureThenRest(xml: string, from: nat, q: nat, k: nat)
    requires from <= |xml| && NextMatch(xml, from) == Some((q, k))
    requires AllOnOneLine(Captures(xml, k + 7))
    ensures AllOnOneLine(Captures(xml, from))
  {
    CaptureOnOneLine(xml, from);
    ConsOneLine(xml[q..k], Captures(xml, k + 7));
  }

  /** The first capture from `from` on lies on one line. */
  lemma CaptureOnOneLine(xml: string, from: nat)
    requires from <= |xml| && NextMatch(xml, from).Some?
    ensures var (q, k) := NextMatch(xml, from).value;
      Captures(xml, from) == [xml[q..k]] + Captures(xml, k + 7) && NoLineTerminator(xml[q..k])
  {
    var (q, k) := NextMatch(xml, from).value;
    MatchOnOneLine(xml, from);
    OneLineSlice(xml, q, k);
  }

  predicate AllOnOneLine(xs: seq<string>) {
    forall i :: 0 <= i < |xs| ==> NoLineTerminator(xs[i])
  }

  lemma ConsOneLine(x: string, rest: seq<string>)
    requires NoLineTerminator(x)
    requires AllOnOneLine(rest)
    ensures AllOnOneLine([x] + rest)
  {
    forall i | 0 <= i < |[x] + rest|
      ensures NoLineTerminator(([x] + rest)[i])
    {
      if i > 0 {
        assert ([x] + rest)[i] == rest[i - 1];
      }
    }
  }

  lemma OneLineSlice(xml: string, q: nat, k: nat)
    requires q <= k <= |xml|
    requires forall i :: q <= i < k ==> !IsLineTerminator(xml[i])
    ensures NoLineTerminator(xml[q..k])
  {
    forall j | 0 <= j < k - q
      ensures !IsLineTerminator(xml[q..k][j])
    {
      assert xml[q..k][j] == xml[q + j];
    }
  }

  /** The five entity replacements, `&amp;` first. */
  function DecodeEntities(s: string): (r: string)
    ensures |r| <= |s|
  {
    var a := ReplaceAll(s, "&amp;", "&");
    var b := ReplaceAll(a, "&lt;", "<");
    var c := ReplaceAll(b, "&gt;", ">");
    var d := ReplaceAll(c, "&quot;", "\"");
    ReplaceAll(d, "&#39;", "'")
  }

  /** `&amp;` is decoded first, so an escaped entity is decoded twice. */
  lemma DoubleDecoding()
    ensures DecodeEntities("&amp;lt;") == "<"
  {
    assert "&amp;lt;"[..5] == "&amp;" && "&amp;lt;"[5..] == "lt;";
    assert ReplaceAll("&amp;lt;", "&amp;", "&") == "&lt;";
    assert "&lt;"[..4] == "&lt;" && "&lt;"[4..] == "";
    assert ReplaceAll("&lt;", "&lt;", "<") == "<";
  }

  /** Text without `&` is left as it is. */
  lemma DecodePlain(s: string)
    requires '&' !in s
    ensures DecodeEntities(s) == s
  {
    NoAmpersandNoEntity(s, "&amp;");
    ReplaceAllAbsent(s, "&amp;", "&");
    NoAmpersandNoEntity(s, "&lt;");
    ReplaceAllAbsent(s, "&lt;", "<");
    NoAmpersandNoEntity(s, "&gt;");
    ReplaceAllAbsent(s, "&gt;", ">");
    NoAmpersandNoEntity(s, "&quot;");
    ReplaceAllAbsent(s, "&quot;", "\"");
    NoAmpersandNoEntity(s, "&#39;");
    ReplaceAllAbsent(s, "&#39;", "'");
  }

  lemma NoAmpersandNoEntity(s: string, pat: string)
    requires '&' !in s && pat != [] && pat[0] == '&'
    ensures forall k: nat :: !OccursAt(s, pat, k)
  {
    forall k: nat | OccursAt(s, pat, k) ensures false {
    }
  }

  /** The decoded, trimmed, non-empty captions, in order. */
  function CleanCaptions(raws: seq<string>): (r: seq<string>)
    ensures forall i :: 0 <= i < |r| ==> r[i] != [] && IsTrimmed(r[i])
  {
    if raws == [] then []
    else
      var t := Trim(DecodeEntities(raws[|raws| - 1]));
      CleanCaptions(raws[..|raws| - 1]) + (if t != [] then [t] else [])
  }

  /** The captions of `xml`, before they are combined. */
  function Captions(xml: string): seq<string> {
    CleanCaptions(Captures(xml, 0))
  }

  /** The `regex.exec` loop of `parseCaptions`. */
  method ExtractCaptions(xml: string) returns (captions: seq<string>)
    ensures captions == Captions(xml)
  {
    captions := [];
    var pos: nat := 0;
    var next := NextMatch(xml, pos);
    ghost var raws := Captures(xml, 0);
    ghost var done: seq<string> := [];
    assert raws == done + raws;
    while next.Some?
      invariant pos <= |xml| && next == NextMatch(xml, pos)
      invariant raws == done + Captures(xml, pos)
      invariant captions == CleanCaptions(done)
      decreases |xml| - pos
    {
      var q := next.value.0;
      var k := next.value.1;
      captions := PushCaption(captions, xml[q..k], done);
      ghost var before := done;
      var at := pos;
      done := done + [xml[q..k]];
      pos := k + 7;
      CaptureStep(xml, at, q, k, raws, before, pos, done);
      next := NextMatch(xml, pos);
    }
    CapturesDone(xml, pos, raws, done);
  }

  /** The body of the `exec` loop: decode, trim, and keep the caption
      when something is left. */
  method PushCaption(captions: seq<string>, raw: string, ghost done: seq<string>)
    returns (captions': seq<string>)
    requires captions == CleanCaptions(done)
    ensures captions' == CleanCaptions(done + [raw])
  {
    var text := Trim(DecodeEntities(raw));
    CleanSnoc(done, raw);
    if |text| > 0 {
      captions' := captions + [text];
    } else {
      captions' := captions;
    }
  }

  /** One `exec` call: the match found is the next capture, and the scan
      resumes after its `</text>`. */
  lemma CaptureStep(xml: string, pos: nat, q: nat, k: nat, raws: seq<string>, done: seq<string>,
                    pos': nat, done': seq<string>)
    requires pos <= |xml| && NextMatch(xml, pos) == Some((q, k))
    requires raws == done + Captures(xml, pos)
    requires pos' == k + 7 && done' == done + [xml[q..k]]
    ensures pos' <= |xml| && raws == done' + Captures(xml, pos')
  {
    CapturesUnfold(xml, pos, q, k);
    ShiftOne(raws, done, Captures(xml, pos), xml[q..k], Captures(xml, k + 7));
  }

  lemma ShiftOne<T>(all: seq<T>, done: seq<T>, todo: seq<T>, x: T, rest: seq<T>)
    requires all == done + todo && todo == [x] + rest
    ensures all == (done + [x]) + rest
  {
    assert done + ([x] + rest) == (done + [x]) + rest;
  }

  lemma CapturesUnfold(xml: string, pos: nat, q: nat, k: nat)
    requires pos <= |xml| && NextMatch(xml, pos) == Some((q, k))
    ensures k + 7 <= |xml| && Captures(xml, pos) == [xml[q..k]] + Captures(xml, k + 7)
  {
  }

  /** Cleaning one more capture appends its caption, if it has one. */
  lemma CleanSnoc(raws: seq<string>, raw: string)
    ensures var t := Trim(DecodeEntities(raw));
      CleanCaptions(raws + [raw]) == CleanCaptions(raws) + (if t != [] then [t] else [])
  {
    assert (raws + [raw])[..|raws|] == raws;
  }

  /** `exec` finds no more matches: every capture has been seen. */
  lemma CapturesDone(xml: string, pos: nat, raws: seq<string>, done: seq<string>)
    requires pos <= |xml| && NextMatch(xml, pos).None?
    requires raws == done + Captures(xml, pos)
    ensures raws == done
  {
    assert Captures(xml, pos) == [];
    assert done + [] == done;
  }

  /* ---------- combineCaptions ---------- */

  predicate EndsStop(s: string) {
    s != [] && (s[|s| - 1] == '.' || s[|s| - 1] == '!' || s[|s| - 1] == '?')
  }

  predicate EndsPause(s: string) {
    s != [] && (s[|s| - 1] == ',' || s[|s| - 1] == ';' || s[|s| - 1] == ':')
  }

  /** A sentence the loop closed: it ends a sentence, or it is long and
      ends at a pause. */
  predicate Closed(s: string) {
    EndsStop(s) || (EndsPause(s) && |s| > 152)
  }

  /** `current += (current ? ' ' : '') + caption`. */
  function AddCaption(current: string, caption: string): string {
    if current == [] then caption else current + " " + caption
  }

  /** The pushed sentences and the pending one. */
  function Pending(sentences: seq<string>, current: string): seq<string> {
    sentences + (if current == [] then [] else [current])
  }

  /** What `combineCaptions` promises: every caption kept in order, no
      empty sentence, and every sentence but the last closed. */
  predicate Combined(sentences: seq<string>, captions: seq<string>) {
    Join(sentences, " ") == Join(captions, " ")
    && (forall i :: 0 <= i < |sentences| ==> sentences[i] != [])
    && (forall i :: 0 <= i < |sentences| - 1 ==> Closed(sentences[i]))
    && (sentences == [] <==> captions == [])
  }

  predicate CombineInv(sentences: seq<string>, current: string, captions: seq<string>, k: nat)
    requires k <= |captions|
  {
    Join(Pending(sentences, current), " ") == Join(captions[..k], " ")
    && (Pending(sentences, current) == [] <==> k == 0)
    && (forall i :: 0 <= i < |sentences| ==> sentences[i] != [] && Closed(sentences[i]))
  }

  /** The combining, one caption at a time, from the pending `current`
      sentence: a caption ending a sentence, or ending at a pause once the
      pending text is over 150 characters, closes the sentence with it;
      any other caption is added to the pending text, which is pushed at
      the end when non-empty. */
  function CombineFrom(current: string, captions: seq<string>): seq<string>
    decreases |captions|
  {
    if captions == [] then (if current != [] then [current] else [])
    else
      var next := AddCaption(current, captions[0]);
      if EndsStop(captions[0]) || (|current| > 150 && EndsPause(captions[0]))
      then [next] + CombineFrom("", captions[1..])
      else CombineFrom(next, captions[1..])
  }

  /** The sentences `combineCaptions` makes of `captions`. */
  function CombineRef(captions: seq<string>): seq<string> {
    CombineFrom("", captions)
  }

  /** `combineCaptions`. */
  method CombineCaptions(captions: seq<string>) returns (sentences: seq<string>)
    requires forall i :: 0 <= i < |captions| ==> captions[i] != []
    ensures sentences == CombineRef(captions)
    ensures Combined(sentences, captions)
  {
    sentences := [];
    var current := "";
    for k := 0 to |captions|
      invariant CombineInv(sentences, current, captions, k)
      invariant sentences + CombineFrom(current, captions[k..]) == CombineRef(captions)
    {
      var caption := captions[k];
      CombineStep(sentences, current, captions, k);
      CombineFromStep(sentences, current, captions, k);
      if EndsStop(caption) {
        current := AddCaption(current, caption);
        sentences := sentences + [current];
        current := "";
      } else if |current| > 150 && EndsPause(caption) {
        current := AddCaption(current, caption);
        sentences := sentences + [current];
        current := "";
      } else {
        current := AddCaption(current, caption);
      }
    }
    assert captions[..|captions|] == captions;
    assert captions[|captions|..] == [];
    if current != [] {
      assert Pending(sentences, current) == sentences + [current];
      sentences := sentences + [current];
    } else {
      assert Pending(sentences, current) == sentences;
    }
  }

  /** Adding one caption extends the pending text by it; closing the
      sentence does not change the pending text. */
  lemma CombineStep(sentences: seq<string>, current: string, captions: seq<string>, k: nat)
    requires k < |captions| && captions[k] != [] && CombineInv(sentences, current, captions, k)
    ensures var c := captions[k]; var next := AddCaption(current, c);
      CombineInv(sentences, next, captions, k + 1)
      && (EndsStop(c) || (|current| > 150 && EndsPause(c)) ==> CombineInv(sentences + [next], "", captions, k + 1))
  {
    var c := captions[k];
    var next := AddCaption(current, c);
    PendingGrows(sentences, current, c);
    assert captions[..k + 1] == captions[..k] + [c];
    JoinSnoc(captions[..k], c, " ");
    assert Pending(sentences + [next], "") == Pending(sentences, next);
  }

  /** One step of `CombineFrom`, at caption `k`: closing the sentence
      pushes it, otherwise the caption is added to the pending text. */
  lemma CombineFromStep(sentences: seq<string>, current: string, captions: seq<string>, k: nat)
    requires k < |captions| && sentences + CombineFrom(current, captions[k..]) == CombineRef(captions)
    ensures var c := captions[k]; var next := AddCaption(current, c);
      if EndsStop(c) || (|current| > 150 && EndsPause(c))
      then (sentences + [next]) + CombineFrom("", captions[k + 1..]) == CombineRef(captions)
      else sentences + CombineFrom(next, captions[k + 1..]) == CombineRef(captions)
  {
    assert captions[k..][0] == captions[k] && captions[k..][1..] == captions[k + 1..];
    var c := captions[k];
    var next := AddCaption(current, c);
    if EndsStop(c) || (|current| > 150 && EndsPause(c)) {
      assert (sentences + [next]) + CombineFrom("", captions[k + 1..])
          == sentences + ([next] + CombineFrom("", captions[k + 1..]));
    }
  }

  /** The pending text grows by the caption, joined with a space. */
  lemma PendingGrows(sentences: seq<string>, current: string, c: string)
    requires c != []
    ensures Pending(sentences, AddCaption(current, c)) != []
    ensures Join(Pending(sentences, AddCaption(current, c)), " ")
         == if Pending(sentences, current) == [] then c else Join(Pending(sentences, current), " ") + " " + c
  {
    var next := AddCaption(current, c);
    assert Pending(sentences, next) == sentences + [next];
    JoinSnoc(sentences, next, " ");
    if current == [] {
      assert Pending(sentences, current) == sentences;
    } else {
      assert Pending(sentences, current) == sentences + [current];
      JoinSnoc(sentences, current, " ");
      if sentences != [] {
        assert Join(sentences, " ") + " " + next == (Join(sentences, " ") + " " + current) + " " + c;
      }
    }
  }

  /* ---------- formatDuration ---------- */

  /** `formatDuration`: `h:mm:ss` from an hour on, `m:ss` below. */
  function FormatDuration(seconds: nat): (r: string)
    ensures |r| >= 4
  {
    Clock(seconds / 3600, (seconds % 3600) / 60, seconds % 60)
  }

  /** The two template strings, from the three components. */
  function Clock(hours: nat, minutes: nat, remaining: nat): string {
    if hours > 0 then
      NatToString(hours) + ":" + PadStart2(NatToString(minutes)) + ":" + PadStart2(NatToString(remaining))
    else
      NatToString(minutes) + ":" + PadStart2(NatToString(remaining))
  }

  /** The number a `:`-separated clock reading stands for. */
  function ClockValue(parts: seq<string>): nat
    requires forall i :: 0 <= i < |parts| ==> |parts[i]| >= 1 && AllDigits(parts[i])
  {
    if |parts| == 3 then ParseNat(parts[0]) * 3600 + ParseNat(parts[1]) * 60 + ParseNat(parts[2])
    else if |parts| == 2 then ParseNat(parts[0]) * 60 + ParseNat(parts[1])
    else 0
  }

  /** The fields of a clock reading: all digits, and every field after the
      first two digits wide and below 60. */
  predicate ClockShape(parts: seq<string>) {
    (forall i :: 0 <= i < |parts| ==> |parts[i]| >= 1 && AllDigits(parts[i]))
    && (forall i :: 1 <= i < |parts| ==> |parts[i]| == 2 && ParseNat(parts[i]) < 60)
  }

  /** Reading the formatted duration back gives the seconds: three fields
      exactly from an hour on, two below. */
  lemma FormatDurationRoundTrip(seconds: nat)
    ensures var parts := SplitOn(FormatDuration(seconds), ':');
      (|parts| == 3 <==> seconds >= 3600) && (|parts| == 2 <==> seconds < 3600)
      && ClockShape(parts) && ClockValue(parts) == seconds
      && parts[0] == NatToString(if seconds >= 3600 then seconds / 3600 else seconds / 60)
  {
    var hours, minutes, remaining := seconds / 3600, (seconds % 3600) / 60, seconds % 60;
    ClockArithmetic(seconds);
    ClockRoundTrip(hours, minutes, remaining);
    assert FormatDuration(seconds) == Clock(hours, minutes, remaining);
  }

  /** The same for the components. */
  lemma ClockRoundTrip(hours: nat, minutes: nat, remaining: nat)
    requires minutes < 60 && remaining < 60
    ensures var parts := SplitOn(Clock(hours, minutes, remaining), ':');
      (|parts| == 3 <==> hours > 0) && (|parts| == 2 <==> hours == 0)
      && ClockShape(parts) && ClockValue(parts) == hours * 3600 + minutes * 60 + remaining
      && parts[0] == NatToString(if hours > 0 then hours else minutes)
  {
    ClockSplit(hours, minutes, remaining);
    ClockFieldsRead(hours, minutes, remaining);
  }

  /** The fields the clock text is made of. */
  function ClockFields(hours: nat, minutes: nat, remaining: nat): seq<string> {
    if hours > 0 then [NatToString(hours), PadStart2(NatToString(minutes)), PadStart2(NatToString(remaining))]
    else [NatToString(minutes), PadStart2(NatToString(remaining))]
  }

  /** Splitting the clock text at `:` gives its fields back. */
  lemma ClockSplit(hours: nat, minutes: nat, remaining: nat)
    ensures SplitOn(Clock(hours, minutes, remaining), ':') == ClockFields(hours, minutes, remaining)
  {
    var m := PadStart2(NatToString(minutes));
    var s := PadStart2(NatToString(remaining));
    PadStart2Nat(minutes);
    PadStart2Nat(remaining);
    if hours > 0 {
      LongClock(hours, m, s);
    } else {
      ShortClock(minutes, s);
    }
  }

  /** The fields read back as the components. */
  lemma ClockFieldsRead(hours: nat, minutes: nat, remaining: nat)
    requires minutes < 60 && remaining < 60
    ensures var parts := ClockFields(hours, minutes, remaining);
      (|parts| == 3 <==> hours > 0) && (|parts| == 2 <==> hours == 0)
      && ClockShape(parts) && ClockValue(parts) == hours * 3600 + minutes * 60 + remaining
  {
    PadStart2Nat(remaining);
    PadStart2Short(remaining);
    if hours > 0 {
      LongClockFieldsRead(hours, minutes, remaining);
    } else {
      ParseNatToString(minutes);
      TwoFieldsShape(NatToString(minutes), PadStart2(NatToString(remaining)));
    }
  }

  /** From an hour on: hours, then minutes and seconds two digits wide. */
  lemma LongClockFieldsRead(hours: nat, minutes: nat, remaining: nat)
    requires hours > 0 && minutes < 60 && remaining < 60
    ensures var parts := ClockFields(hours, minutes, remaining);
      |parts| == 3 && ClockShape(parts) && ClockValue(parts) == hours * 3600 + minutes * 60 + remaining
  {
    var h := NatToString(hours);
    var m := PadStart2(NatToString(minutes));
    var s := PadStart2(NatToString(remaining));
    PadStart2Nat(minutes);
    PadStart2Nat(remaining);
    PadStart2Short(minutes);
    PadStart2Short(remaining);
    ParseNatToString(hours);
    assert ClockFields(hours, minutes, remaining) == [h, m, s];
    ThreeFieldsShape(h, m, s);
  }

  lemma ThreeFieldsShape(h: string, m: string, s: string)
    requires |h| >= 1 && AllDigits(h) && |m| == 2 && AllDigits(m) && |s| == 2 && AllDigits(s)
    requires ParseNat(m) < 60 && ParseNat(s) < 60
    ensures ClockShape([h, m, s])
  {
    var parts := [h, m, s];
    forall i | 0 <= i < 3 ensures |parts[i]| >= 1 && AllDigits(parts[i]) {
      if i == 0 {} else if i == 1 {} else {}
    }
    forall i | 1 <= i < 3 ensures |parts[i]| == 2 && ParseNat(parts[i]) < 60 {
      if i == 1 {} else {}
    }
  }

  lemma TwoFieldsShape(m: string, s: string)
    requires |m| >= 1 && AllDigits(m) && |s| == 2 && AllDigits(s) && ParseNat(s) < 60
    ensures ClockShape([m, s])
  {
    var parts := [m, s];
    forall i | 0 <= i < 2 ensures |parts[i]| >= 1 && AllDigits(parts[i]) {
      if i == 0 {} else {}
    }
  }

  /** Hours, minutes and seconds put back together. */
  lemma ClockArithmetic(seconds: nat)
    ensures seconds == (seconds / 3600) * 3600 + ((seconds % 3600) / 60) * 60 + seconds % 60
    ensures (seconds % 3600) / 60 < 60 && seconds % 60 < 60
    ensures seconds / 3600 > 0 <==> seconds >= 3600
    ensures seconds < 3600 ==> (seconds % 3600) / 60 == seconds / 60
  {
  }

  lemma LongClock(hours: nat, m: string, s: string)
    requires AllDigits(m) && AllDigits(s) && |m| >= 1 && |s| >= 1
    ensures SplitOn(NatToString(hours) + ":" + m + ":" + s, ':') == [NatToString(hours), m, s]
    ensures ParseNat(NatToString(hours)) == hours
  {
    ThreeFields(NatToString(hours), m, s);
    ParseNatToString(hours);
  }

  /** Three numerals joined by colons split back into the three. */
  lemma ThreeFields(h: string, m: string, s: string)
    requires AllDigits(h) && AllDigits(m) && AllDigits(s)
    ensures SplitOn(h + ":" + m + ":" + s, ':') == [h, m, s]
  {
    SplitOnDigits(s);
    SplitAfterDigits(m, s);
    SplitAfterDigits(h, m + [':'] + s);
    ColonJoin3(h, m, s);
  }

  lemma ColonJoin3(h: string, m: string, s: string)
    ensures h + ":" + m + ":" + s == h + [':'] + (m + [':'] + s)
  {
    var l := h + ":" + m + ":" + s;
    var r := h + [':'] + (m + [':'] + s);
    assert |l| == |r|;
    forall i | 0 <= i < |l| ensures l[i] == r[i] {
      if i < |h| {
      } else if i == |h| {
      } else if i < |h| + 1 + |m| {
      } else if i == |h| + 1 + |m| {
      } else {
      }
    }
  }

  lemma ShortClock(minutes: nat, s: string)
    requires AllDigits(s) && |s| >= 1
    ensures SplitOn(NatToString(minutes) + ":" + s, ':') == [NatToString(minutes), s]
    ensures ParseNat(NatToString(minutes)) == minutes
  {
    SplitOnDigits(s);
    SplitAfterDigits(NatToString(minutes), s);
    ParseNatToString(minutes);
  }

  lemma PadStart2Short(n: nat)
    requires n < 60
    ensures |PadStart2(NatToString(n))| == 2
  {
    if n >= 10 {
      assert NatToString(n) == NatToString(n / 10) + [DigitChar(n % 10)];
    }
  }

  lemma SplitOnDigits(s: string)
    requires AllDigits(s)
    ensures SplitOn(s, ':') == [s]
  {
  }

  /** Splitting `a:rest` where `a` is digits. */
  lemma SplitAfterDigits(a: string, rest: string)
    requires AllDigits(a)
    ensures SplitOn(a + [':'] + rest, ':') == [a] + SplitOn(rest, ':')
  {
    var s := a + [':'] + rest;
    assert s[|a|] == ':';
    var k := IndexOf(s, ':');
    assert s[..k] == a && s[k + 1..] == rest;
  }

  /* ---------- extractContent and processVideo ---------- */

  /** The video details the adapter reads. */
  datatype VideoDetails = VideoDetails(title: string, description: string, authorName: string, lengthSeconds: nat)

  /** The two placeholder blocks: the title and author, and the length. */
  function Placeholders(details: VideoDetails): seq<string> {
    ["This is a video titled \"" + details.title + "\" by " + details.authorName + ".",
     "The video is " + FormatDuration(details.lengthSeconds) + " long."]
  }

  /** The description's paragraphs, when there is a description. */
  function DescriptionBlocks(description: string): seq<string> {
    if description != "" then Paragraphs(description) else []
  }

  /** What the method gathered, with the placeholders added when that is
      only the title: never fewer than two blocks. */
  function WithPlaceholders(gathered: seq<string>, details: VideoDetails): (c: seq<string>)
    requires gathered != []
    ensures |c| >= 2 && c[0] == gathered[0]
    ensures |gathered| > 1 ==> c == gathered
    ensures |gathered| <= 1 ==> c == gathered + Placeholders(details)
  {
    if |gathered| <= 1 then gathered + Placeholders(details) else gathered
  }

  /** The combined caption sentences of the fetched track, if any. */
  function CaptionSentences(captionXml: Option<string>): seq<string> {
    if captionXml.Some? then CombineRef(Captions(captionXml.value)) else []
  }

  /** `extractContent`. `captionXml` is the fetched caption track: None
      when there is no track or the fetch failed (that failure is
      swallowed). */
  method ExtractContent(details: VideoDetails, captionXml: Option<string>) returns (content: seq<string>)
    ensures captionXml.Some? ==> Combined(CaptionSentences(captionXml), Captions(captionXml.value))
    ensures content == WithPlaceholders(["Title: " + details.title] + DescriptionBlocks(details.description)
                                        + CaptionSentences(captionXml), details)
    ensures |content| >= 2 && content[0] == "Title: " + details.title
  {
    content := ["Title: " + details.title];
    if details.description != "" {
      content := content + Paragraphs(details.description);
    }
    assert content == ["Title: " + details.title] + DescriptionBlocks(details.description);
    if captionXml.Some? {
      var captions := ExtractCaptions(captionXml.value);
      var sentences := CombineCaptions(captions);
      content := content + sentences;
    } else {
      assert content + CaptionSentences(captionXml) == content;
    }
    content := AddPlaceholders(content, details);
  }

  /** The last step of `extractContent`: the placeholders are pushed when
      only the title was gathered. */
  method AddPlaceholders(gathered: seq<string>, details: VideoDetails) returns (content: seq<string>)
    requires gathered != []
    ensures content == WithPlaceholders(gathered, details)
  {
    content := gathered;
    if |content| <= 1 {
      var placeholders := Placeholders(details);
      content := content + [placeholders[0]];
      content := content + [placeholders[1]];
    }
  }

  /** `processVideo`. `validUrl` is the URL check, `info` the details
      lookup (or its error message), `metadata` the extracted metadata and
      `id` the generated id. */
  method ProcessVideo(url: string, validUrl: bool, info: Result<VideoDetails, string>,
                      captionXml: Option<string>, metadata: Metadata, id: string)
    returns (r: Result<ContentPackage, string>)
    ensures !validUrl ==> r == Failure("Failed to process video: Invalid YouTube URL: " + url)
    ensures validUrl && info.Failure? ==> r == Failure("Failed to process video: " + info.error)
    ensures r.Success? <==> validUrl && info.Success?
    ensures r.Success? ==>
      var p := r.value;
      p.id == id && p.sourceType == Video && p.sourceUrl == Some(url) && p.citations == Some([url])
      && p.metadata == metadata && |p.content| >= 2 && p.content[0] == "Title: " + info.value.title
      && p.content == WithPlaceholders(["Title: " + info.value.title] + DescriptionBlocks(info.value.description)
                                       + CaptionSentences(captionXml), info.value)
  {
    if !validUrl {
      return Failure("Failed to process video: Invalid YouTube URL: " + url);
    }
    if info.Failure? {
      return Failure("Failed to process video: " + info.error);
    }
    var content := ExtractContent(info.value, captionXml);
    return Success(ContentPackage(id, content, metadata, Some([url]), Video, Some(url)));
  }
}

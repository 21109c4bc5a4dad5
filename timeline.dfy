/** What the two voice synthesis services share about the audio timeline:
    the duration estimate (three characters per second), segments laid end
    to end from time 0 by a running cursor, and audio buffers concatenated
    byte for byte. Durations are exact reals. */
module Timeline {
  import opened Models

  /** `text.length / 3`. */
  function EstimatedDuration(text: string): (d: real)
    ensures d >= 0.0 && d * 3.0 == |text| as real
  {
    |text| as real / 3.0
  }

  /** The sum of the segment durations, added left to right as the cursor
      adds them. */
  function SumDurations(segs: seq<AudioSegment>): real {
    if segs == [] then 0.0 else SumDurations(segs[..|segs| - 1]) + segs[|segs| - 1].duration
  }

  /** The first segment starts at 0, every segment ends its duration after
      it starts, and every later segment starts where the previous one
      ended. */
  predicate Contiguous(segs: seq<AudioSegment>) {
    (segs != [] ==> segs[0].startTime == 0.0)
    && (forall k :: 0 <= k < |segs| ==> segs[k].endTime == segs[k].startTime + segs[k].duration)
    && (forall k :: 0 < k < |segs| ==> segs[k].startTime == segs[k - 1].endTime)
  }

  /** Where the cursor stands after `segs`: the end of the last segment,
      or 0. */
  function Cursor(segs: seq<AudioSegment>): real {
    if segs == [] then 0.0 else segs[|segs| - 1].endTime
  }

  /** Appending a segment that starts at the cursor keeps the timeline
      contiguous and moves the cursor by its duration. */
  lemma AppendContiguous(segs: seq<AudioSegment>, x: AudioSegment)
    requires Contiguous(segs) && Cursor(segs) == SumDurations(segs)
    requires x.startTime == SumDurations(segs) && x.endTime == x.startTime + x.duration
    ensures Contiguous(segs + [x])
    ensures SumDurations(segs + [x]) == SumDurations(segs) + x.duration
    ensures Cursor(segs + [x]) == SumDurations(segs + [x])
  {
    assert (segs + [x])[..|segs|] == segs;
  }

  /** On a contiguous timeline the last segment ends at the sum of all
      durations: the total duration is the final cursor. */
  lemma {:induction false} ContiguousEndsAtSum(segs: seq<AudioSegment>)
    requires Contiguous(segs)
    ensures Cursor(segs) == SumDurations(segs)
    decreases |segs|
  {
    if segs != [] {
      var init := segs[..|segs| - 1];
      assert Contiguous(init) by {
        forall k | 0 <= k < |init| ensures init[k] == segs[k] { }
      }
      ContiguousEndsAtSum(init);
    }
  }

  /** Every segment of a contiguous timeline starts at the sum of the
      durations before it. */
  lemma {:induction false} StartIsPrefixSum(segs: seq<AudioSegment>, k: nat)
    requires Contiguous(segs) && k < |segs|
    ensures segs[k].startTime == SumDurations(segs[..k])
    decreases k
  {
    if k > 0 {
      StartIsPrefixSum(segs, k - 1);
      assert segs[..k][..k - 1] == segs[..k - 1];
    }
  }

  /** `Math.ceil` on a real. */
  function Ceil(r: real): (n: int)
    ensures n as real >= r && (n - 1) as real < r
  {
    if r.Floor as real == r then r.Floor else r.Floor + 1
  }

  /** The bytes of all segments, one after another. */
  function ConcatAudio(segs: seq<AudioSegment>): seq<byte> {
    if segs == [] then [] else ConcatAudio(segs[..|segs| - 1]) + segs[|segs| - 1].audioData
  }

  /** `segments.reduce((size, s) => size + s.audioData.byteLength, 0)`. */
  function TotalSize(segs: seq<AudioSegment>): nat {
    if segs == [] then 0 else TotalSize(segs[..|segs| - 1]) + |segs[|segs| - 1].audioData|
  }

  /** The concatenation is as long as the sum of the buffer lengths, and
      segment `k`'s bytes sit in it, in order, starting at the total size of
      the segments before `k`. */
  lemma {:induction false} ConcatAudioLayout(segs: seq<AudioSegment>, k: nat)
    requires k < |segs|
    ensures |ConcatAudio(segs)| == TotalSize(segs)
    ensures TotalSize(segs[..k]) + |segs[k].audioData| <= |ConcatAudio(segs)|
    ensures ConcatAudio(segs)[TotalSize(segs[..k])..TotalSize(segs[..k]) + |segs[k].audioData|]
            == segs[k].audioData
    decreases |segs|
  {
    var n := |segs|;
    var init := segs[..n - 1];
    ConcatSize(segs);
    if k == n - 1 {
      ConcatSize(init);
      assert segs[..k] == init;
    } else {
      ConcatAudioLayout(init, k);
      assert init[..k] == segs[..k];
      assert init[k] == segs[k];
      assert ConcatAudio(segs) == ConcatAudio(init) + segs[n - 1].audioData;
      SliceOfFront(ConcatAudio(init), segs[n - 1].audioData, TotalSize(segs[..k]),
                   TotalSize(segs[..k]) + |segs[k].audioData|);
    }
  }

  lemma SliceOfFront(a: seq<byte>, b: seq<byte>, lo: nat, hi: nat)
    requires lo <= hi <= |a|
    ensures (a + b)[lo..hi] == a[lo..hi]
  {
  }

  lemma {:induction false} ConcatSize(segs: seq<AudioSegment>)
    ensures |ConcatAudio(segs)| == TotalSize(segs)
    decreases |segs|
  {
    if segs != [] {
      ConcatSize(segs[..|segs| - 1]);
    }
  }

  /** The metadata record both services attach to the podcast audio. */
  function AudioMetadata(script: PodcastScript, generatedAt: string): (m: Metadata)
    ensures m.Keys == {"title", "description", "speakerCount", "turnCount", "generatedAt"}
    ensures m["turnCount"] == VNum(|script.dialogue| as real)
    ensures m["speakerCount"] == VNum(|script.speakers| as real)
    ensures m["title"] == VStr(script.title) && m["description"] == VStr(script.description)
    ensures m["generatedAt"] == VStr(generatedAt)
  {
    map["title" := VStr(script.title),
        "description" := VStr(script.description),
        "speakerCount" := VNum(|script.speakers| as real),
        "turnCount" := VNum(|script.dialogue| as real),
        "generatedAt" := VStr(generatedAt)]
  }
}

/** The mock voice synthesis service: the same timeline as the real one,
    with silent buffers of 44100 bytes per (started) second of estimated
    duration, and voices found with `find` (the first mapping for a
    speaker) falling back to 'voice-1'. */
module MockVoiceSynthesis {
  import opened Wrappers
  import opened Models
  import opened Timeline

  /** Bytes per second of mock audio. */
  const BytesPerSecond: nat := 44100

  /** `new ArrayBuffer(n)`: `n` zero bytes. */
  function Silence(n: nat): (b: seq<byte>)
    ensures |b| == n && forall i :: 0 <= i < n ==> b[i] == 0
  {
    seq(n, _ => 0)
  }

  /** `44100 * Math.ceil(duration)` for a non-negative duration. */
  function BufferSize(duration: real): (n: nat)
    requires duration >= 0.0
    ensures n as real >= 44100.0 * duration && (n as real) < 44100.0 * (duration + 1.0)
  {
    BytesPerSecond * Ceil(duration)
  }

  /** `speakerVoiceMappings.find(m => m.speakerId === speakerId)`. */
  function FirstMapping(mappings: seq<SpeakerVoiceMapping>, speakerId: string): (r: Option<SpeakerVoiceMapping>)
    ensures r.None? <==> forall k :: 0 <= k < |mappings| ==> mappings[k].speakerId != speakerId
    ensures r.Some? ==> r.value.speakerId == speakerId
    ensures r.Some? ==> exists k ::
      (0 <= k < |mappings| && mappings[k] == r.value
       && forall j :: 0 <= j < k ==> mappings[j].speakerId != speakerId)
  {
    if mappings == [] then None
    else if mappings[0].speakerId == speakerId then Some(mappings[0])
    else
      var r := FirstMapping(mappings[1..], speakerId);
      assert forall k :: 1 <= k < |mappings| ==> mappings[k] == mappings[1..][k - 1];
      r
  }

  /** `speakerVoiceMappings[0]?.voiceId || 'voice-1'`. */
  function NarratorVoice(mappings: seq<SpeakerVoiceMapping>): (v: string)
    ensures v != ""
    ensures mappings != [] && mappings[0].voiceId != "" ==> v == mappings[0].voiceId
    ensures mappings == [] || mappings[0].voiceId == "" ==> v == "voice-1"
  {
    if mappings != [] && mappings[0].voiceId != "" then mappings[0].voiceId else "voice-1"
  }

  /** `mapping?.voiceId || 'voice-1'` with the first matching mapping. */
  function TurnVoice(mappings: seq<SpeakerVoiceMapping>, speakerId: string): (v: string)
    ensures v != ""
    ensures FirstMapping(mappings, speakerId).None? ==> v == "voice-1"
    ensures FirstMapping(mappings, speakerId).Some? && FirstMapping(mappings, speakerId).value.voiceId != "" ==>
      v == FirstMapping(mappings, speakerId).value.voiceId
    ensures FirstMapping(mappings, speakerId).Some? && FirstMapping(mappings, speakerId).value.voiceId == "" ==>
      v == "voice-1"
  {
    var m := FirstMapping(mappings, speakerId);
    if m.Some? && m.value.voiceId != "" then m.value.voiceId else "voice-1"
  }

  /** A mock segment for `text` with its silent buffer. */
  predicate IsMockSegment(s: AudioSegment, speakerId: string, voiceId: string, text: string) {
    s.speakerId == speakerId && s.voiceId == voiceId && s.text == text
    && s.duration == EstimatedDuration(text)
    && s.audioData == Silence(BufferSize(EstimatedDuration(text)))
  }

  /** `synthesizeDialogueTurn`: one turn's segment at time 0. */
  function SynthesizeDialogueTurn(turn: DialogueTurn, voiceId: string): (s: AudioSegment)
    ensures IsMockSegment(s, turn.speakerId, voiceId, turn.text)
    ensures s.duration * 3.0 == |turn.text| as real
    ensures s.startTime == 0.0 && s.endTime == s.duration
    ensures |s.audioData| == BytesPerSecond * Ceil(s.duration)
  {
    var d := EstimatedDuration(turn.text);
    AudioSegment("turn-mock-" + turn.speakerId, turn.speakerId, voiceId, turn.text,
                 Silence(BufferSize(d)), d, 0.0, d)
  }

  /** `combineAudioSegments`: a silent buffer sized from the summed
      durations. */
  function CombineAudioSegments(segments: seq<AudioSegment>): (b: seq<byte>)
    requires forall k :: 0 <= k < |segments| ==> segments[k].duration >= 0.0
    ensures |b| == BytesPerSecond * Ceil(SumDurations(segments))
  {
    NonNegativeSum(segments);
    Silence(BufferSize(SumDurations(segments)))
  }

  lemma {:induction false} NonNegativeSum(segments: seq<AudioSegment>)
    requires forall k :: 0 <= k < |segments| ==> segments[k].duration >= 0.0
    ensures SumDurations(segments) >= 0.0
    decreases |segments|
  {
    if segments != [] {
      NonNegativeSum(segments[..|segments| - 1]);
    }
  }

  /** The mock's segment order: the introduction iff there is one, one
      segment per turn, then the conclusion iff there is one. */
  predicate Layout(segs: seq<AudioSegment>, script: PodcastScript, mappings: seq<SpeakerVoiceMapping>) {
    var off := if script.introduction != "" then 1 else 0;
    |segs| == off + |script.dialogue| + (if script.conclusion != "" then 1 else 0)
    && (script.introduction != "" ==>
          IsMockSegment(segs[0], "narrator", NarratorVoice(mappings), script.introduction))
    && (forall j :: 0 <= j < |script.dialogue| ==>
          IsMockSegment(segs[off + j], script.dialogue[j].speakerId,
                        TurnVoice(mappings, script.dialogue[j].speakerId), script.dialogue[j].text))
    && (script.conclusion != "" ==>
          IsMockSegment(segs[|segs| - 1], "narrator", NarratorVoice(mappings), script.conclusion))
  }

  /** A timeline whose cursor stands at the sum of its non-negative
      durations. */
  predicate Placed(segs: seq<AudioSegment>) {
    Contiguous(segs) && Cursor(segs) == SumDurations(segs)
    && forall k :: 0 <= k < |segs| ==> segs[k].duration >= 0.0
  }

  /** The segment for `text` placed at the cursor. */
  function At(id: string, speakerId: string, voiceId: string, text: string, currentTime: real): (s: AudioSegment)
    ensures IsMockSegment(s, speakerId, voiceId, text)
    ensures s.startTime == currentTime && s.endTime == currentTime + s.duration && s.duration >= 0.0
  {
    var d := EstimatedDuration(text);
    AudioSegment(id, speakerId, voiceId, text, Silence(BufferSize(d)), d, currentTime, currentTime + d)
  }

  /** The mock's dialogue loop: one segment per turn at the cursor. */
  method PlaceTurns(segments: seq<AudioSegment>, dialogue: seq<DialogueTurn>, mappings: seq<SpeakerVoiceMapping>)
    returns (placed: seq<AudioSegment>)
    requires Placed(segments)
    ensures |placed| == |segments| + |dialogue| && placed[..|segments|] == segments && Placed(placed)
    ensures forall j :: 0 <= j < |dialogue| ==>
      IsMockSegment(placed[|segments| + j], dialogue[j].speakerId,
                    TurnVoice(mappings, dialogue[j].speakerId), dialogue[j].text)
  {
    placed := segments;
    var currentTime := SumDurations(segments);
    for j := 0 to |dialogue|
      invariant MockTurnsPlaced(placed, segments, dialogue, j, mappings)
      invariant currentTime == SumDurations(placed)
    {
      var turn := dialogue[j];
      var mapping := FirstMapping(mappings, turn.speakerId);
      var voiceId := if mapping.Some? && mapping.value.voiceId != "" then mapping.value.voiceId else "voice-1";
      assert voiceId == TurnVoice(mappings, turn.speakerId);
      var seg := At("turn-mock-" + turn.speakerId, turn.speakerId, voiceId, turn.text, currentTime);
      MockTurnsStep(placed, segments, dialogue, j, mappings, seg);
      placed := placed + [seg];
      currentTime := currentTime + seg.duration;
    }
  }

  /** The mock's dialogue loop after `j` turns. */
  predicate MockTurnsPlaced(placed: seq<AudioSegment>, segments: seq<AudioSegment>, dialogue: seq<DialogueTurn>,
                            j: nat, mappings: seq<SpeakerVoiceMapping>)
    requires j <= |dialogue|
  {
    |placed| == |segments| + j && placed[..|segments|] == segments && Placed(placed)
    && forall i :: 0 <= i < j ==>
         IsMockSegment(placed[|segments| + i], dialogue[i].speakerId,
                       TurnVoice(mappings, dialogue[i].speakerId), dialogue[i].text)
  }

  lemma MockTurnsStep(placed: seq<AudioSegment>, segments: seq<AudioSegment>, dialogue: seq<DialogueTurn>,
                      j: nat, mappings: seq<SpeakerVoiceMapping>, seg: AudioSegment)
    requires j < |dialogue| && MockTurnsPlaced(placed, segments, dialogue, j, mappings)
    requires IsMockSegment(seg, dialogue[j].speakerId, TurnVoice(mappings, dialogue[j].speakerId), dialogue[j].text)
    requires seg.duration >= 0.0
    requires seg.startTime == SumDurations(placed) && seg.endTime == seg.startTime + seg.duration
    ensures MockTurnsPlaced(placed + [seg], segments, dialogue, j + 1, mappings)
    ensures SumDurations(placed + [seg]) == SumDurations(placed) + seg.duration
  {
    PlaceOne(placed, seg);
    var next := placed + [seg];
    assert next[..|segments|] == placed[..|segments|];
    forall i | 0 <= i < j + 1
      ensures IsMockSegment(next[|segments| + i], dialogue[i].speakerId,
                            TurnVoice(mappings, dialogue[i].speakerId), dialogue[i].text)
    {
      if i < j {
        assert next[|segments| + i] == placed[|segments| + i];
      }
    }
  }

  /** Appending a segment placed at the cursor keeps the timeline placed. */
  lemma PlaceOne(segs: seq<AudioSegment>, x: AudioSegment)
    requires Placed(segs) && x.duration >= 0.0
    requires x.startTime == SumDurations(segs) && x.endTime == x.startTime + x.duration
    ensures Placed(segs + [x]) && SumDurations(segs + [x]) == SumDurations(segs) + x.duration
  {
    AppendContiguous(segs, x);
  }

  /** `synthesizePodcast` of the mock. */
  method SynthesizePodcast(script: PodcastScript, mappings: seq<SpeakerVoiceMapping>, generatedAt: string)
    returns (audio: PodcastAudio)
    ensures Layout(audio.segments, script, mappings)
    ensures Contiguous(audio.segments)
    ensures audio.totalDuration == SumDurations(audio.segments) == Cursor(audio.segments)
    ensures audio.totalDuration >= 0.0
    ensures audio.fullAudio.Some? && |audio.fullAudio.value| == BytesPerSecond * Ceil(audio.totalDuration)
    ensures audio.id == "podcast-audio-mock" && audio.scriptId == script.id && audio.format == Mp3
    ensures audio.metadata == AudioMetadata(script, generatedAt)
  {
    var segments: seq<AudioSegment> := [];
    if script.introduction != "" {
      var seg := At("intro-mock", "narrator", NarratorVoice(mappings), script.introduction, 0.0);
      PlaceOne(segments, seg);
      segments := segments + [seg];
    }
    ghost var intro := segments;
    segments := PlaceTurns(segments, script.dialogue, mappings);
    ghost var withTurns := segments;
    if script.conclusion != "" {
      var seg := At("conclusion-mock", "narrator", NarratorVoice(mappings), script.conclusion,
                    SumDurations(segments));
      PlaceOne(segments, seg);
      segments := segments + [seg];
    }
    MockLayout(intro, withTurns, segments, script, mappings);
    var currentTime := SumDurations(segments);
    NonNegativeSum(segments);
    audio := PodcastAudio("podcast-audio-mock", script.id, segments, Some(Silence(BufferSize(currentTime))),
                          currentTime, Mp3, AudioMetadata(script, generatedAt));
  }

  /** The three stages of `synthesizePodcast` put together: the
      introduction, the turns after it, and the conclusion after them. */
  lemma MockLayout(intro: seq<AudioSegment>, withTurns: seq<AudioSegment>, segs: seq<AudioSegment>,
                   script: PodcastScript, mappings: seq<SpeakerVoiceMapping>)
    requires |intro| == (if script.introduction != "" then 1 else 0)
    requires script.introduction != "" ==>
      IsMockSegment(intro[0], "narrator", NarratorVoice(mappings), script.introduction)
    requires |withTurns| == |intro| + |script.dialogue| && withTurns[..|intro|] == intro
    requires forall j :: 0 <= j < |script.dialogue| ==>
      IsMockSegment(withTurns[|intro| + j], script.dialogue[j].speakerId,
                    TurnVoice(mappings, script.dialogue[j].speakerId), script.dialogue[j].text)
    requires |segs| == |withTurns| + (if script.conclusion != "" then 1 else 0)
    requires segs[..|withTurns|] == withTurns
    requires script.conclusion != "" ==>
      IsMockSegment(segs[|segs| - 1], "narrator", NarratorVoice(mappings), script.conclusion)
    ensures Layout(segs, script, mappings)
  {
    var off := |intro|;
    forall k | 0 <= k < |withTurns|
      ensures segs[k] == withTurns[k]
    {
      assert segs[..|withTurns|][k] == segs[k];
    }
    if off == 1 {
      assert segs[0] == segs[..|withTurns|][0] == withTurns[0] == withTurns[..off][0];
    }
  }

  /** The whole-podcast buffer is the one `combineAudioSegments` would
      make from the same segments. */
  lemma FullAudioMatchesCombine(audio: PodcastAudio)
    requires forall k :: 0 <= k < |audio.segments| ==> audio.segments[k].duration >= 0.0
    requires audio.totalDuration == SumDurations(audio.segments)
    requires audio.fullAudio.Some? && |audio.fullAudio.value| == BytesPerSecond * Ceil(audio.totalDuration)
    ensures |audio.fullAudio.value| == |CombineAudioSegments(audio.segments)|
  {
  }
}

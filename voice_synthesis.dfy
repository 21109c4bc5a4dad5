/** The ElevenLabs voice synthesis service around its text-to-speech
    calls: choosing a voice per speaker, laying the introduction, the
    dialogue turns and the conclusion end to end on a timeline, and
    concatenating their audio. The speech call is an input (`tts`), giving
    the audio bytes or the error it failed with after its retries. */
module VoiceSynthesis {
  import opened Wrappers
  import opened Models
  import opened Timeline

  /** `synthesizeSpeech(text, voiceId, options)`. */
  type Speech = (string, string, Option<VoiceOptions>) -> Result<seq<byte>, string>

  /** The mapping a `Map` built by `set` in list order holds for a speaker:
      the last one with that speaker id. */
  function LastMapping(mappings: seq<SpeakerVoiceMapping>, speakerId: string): (r: Option<SpeakerVoiceMapping>)
    ensures r.Some? ==> r.value in mappings && r.value.speakerId == speakerId
    ensures r.None? <==> forall k :: 0 <= k < |mappings| ==> mappings[k].speakerId != speakerId
  {
    if mappings == [] then None
    else if mappings[|mappings| - 1].speakerId == speakerId then Some(mappings[|mappings| - 1])
    else
      var r := LastMapping(mappings[..|mappings| - 1], speakerId);
      assert forall k :: 0 <= k < |mappings| - 1 ==> mappings[..|mappings| - 1][k] == mappings[k];
      r
  }

  /** Entry `k` is the last one naming the speaker. */
  predicate LastFor(mappings: seq<SpeakerVoiceMapping>, k: nat, speakerId: string) {
    k < |mappings| && forall j :: k < j < |mappings| ==> mappings[j].speakerId != speakerId
  }

  /** No later mapping names the speaker: the found mapping is the last
      one, at position `k`. */
  lemma {:induction false} LastMappingIsLast(mappings: seq<SpeakerVoiceMapping>, speakerId: string) returns (k: nat)
    requires LastMapping(mappings, speakerId).Some?
    ensures LastFor(mappings, k, speakerId) && mappings[k] == LastMapping(mappings, speakerId).value
    decreases |mappings|
  {
    var n := |mappings|;
    if mappings[n - 1].speakerId == speakerId {
      k := n - 1;
    } else {
      k := LastMappingIsLast(mappings[..n - 1], speakerId);
      LastForExtend(mappings, k, speakerId);
    }
  }

  /** A later entry for another speaker leaves the last entry last. */
  lemma LastForExtend(mappings: seq<SpeakerVoiceMapping>, k: nat, speakerId: string)
    requires mappings != [] && mappings[|mappings| - 1].speakerId != speakerId
    requires LastFor(mappings[..|mappings| - 1], k, speakerId)
    ensures LastFor(mappings, k, speakerId) && mappings[k] == mappings[..|mappings| - 1][k]
  {
    var init := mappings[..|mappings| - 1];
    forall j | k < j < |mappings| ensures mappings[j].speakerId != speakerId {
      if j < |init| { assert mappings[j] == init[j]; }
    }
  }

 method BuildVoiceMap(mappings: seq<SpeakerVoiceMapping>)
    returns (voiceMap: map<string, (string, Option<VoiceOptions>)>)
    ensures forall id :: id in voiceMap <==> LastMapping(mappings, id).Some?
    ensures forall id :: id in voiceMap ==>
      voiceMap[id] == (LastMapping(mappings, id).value.voiceId, LastMapping(mappings, id).value.voiceOptions)
  {
    voiceMap := map[];
    for i := 0 to |mappings|
      invariant forall id :: id in voiceMap <==> LastMapping(mappings[..i], id).Some?
      invariant forall id :: id in voiceMap ==>
        voiceMap[id] == (LastMapping(mappings[..i], id).value.voiceId, LastMapping(mappings[..i], id).value.voiceOptions)
    {
      var m := mappings[i];
      assert mappings[..i + 1][..i] == mappings[..i];
      voiceMap := voiceMap[m.speakerId := (m.voiceId, m.voiceOptions)];
    }
    assert mappings[..|mappings|] == mappings;
  }

  /** `speakerVoiceMappings[0]?.voiceId || ''`: the narrator's voice. */
  function DefaultVoice(mappings: seq<SpeakerVoiceMapping>): string {
    if mappings != [] then mappings[0].voiceId else ""
  }

  /** `voiceInfo?.voiceId || defaultVoice`: the mapped voice of the turn's
      speaker, unless there is none or it is empty. */
  function TurnVoice(mappings: seq<SpeakerVoiceMapping>, speakerId: string): string {
    var m := LastMapping(mappings, speakerId);
    if m.Some? && m.value.voiceId != "" then m.value.voiceId else DefaultVoice(mappings)
  }

  /** `voiceInfo?.options`. */
  function TurnOptions(mappings: seq<SpeakerVoiceMapping>, speakerId: string): Option<VoiceOptions> {
    var m := LastMapping(mappings, speakerId);
    if m.Some? then m.value.voiceOptions else None
  }

  /** The text sent to speech synthesis for a turn: prefixed with
      `[emotion] ` when the turn has a (non-empty) emotion. */
  function SpokenText(turn: DialogueTurn): (text: string)
    ensures turn.emotion.Some? && turn.emotion.value != "" ==>
      text == "[" + turn.emotion.value + "] " + turn.text
    ensures !(turn.emotion.Some? && turn.emotion.value != "") ==> text == turn.text
    ensures |text| >= |turn.text| && text[|text| - |turn.text|..] == turn.text
  {
    if turn.emotion.Some? && turn.emotion.value != "" then "[" + turn.emotion.value + "] " + turn.text
    else turn.text
  }

  /** The error messages: a failed speech call, wrapped by the turn or by
      the podcast it was for. */
  function SpeechError(e: string): string {
    "Failed to synthesize speech: " + e
  }

  function TurnError(e: string): string {
    "Failed to synthesize dialogue turn: " + SpeechError(e)
  }

  function PodcastError(e: string): string {
    "Failed to synthesize podcast: " + e
  }

  /** `synthesizeDialogueTurn`: the segment for one turn, not yet placed
      on the timeline. Its duration counts the turn's own text only, not
      the emotion prefix that is spoken. */
  function SynthesizeDialogueTurn(turn: DialogueTurn, voiceId: string, options: Option<VoiceOptions>,
                                  tts: Speech, id: string): (r: Result<AudioSegment, string>)
    ensures r.Success? <==> tts(SpokenText(turn), voiceId, options).Success?
    ensures r.Failure? ==> r.error == TurnError(tts(SpokenText(turn), voiceId, options).error)
    ensures r.Success? ==>
      var s := r.value;
      s.speakerId == turn.speakerId && s.voiceId == voiceId && s.text == turn.text
      && s.audioData == tts(SpokenText(turn), voiceId, options).value
      && s.duration * 3.0 == |turn.text| as real
      && s.startTime == 0.0 && s.endTime == s.duration
  {
    var audio := tts(SpokenText(turn), voiceId, options);
    if audio.Failure? then
      Failure(TurnError(audio.error))
    else
      var d := EstimatedDuration(turn.text);
      Success(AudioSegment(id, turn.speakerId, voiceId, turn.text, audio.value, d, 0.0, d))
  }

  /** The speech calls for the script all succeed. */
  predicate SpeechSucceeds(script: PodcastScript, mappings: seq<SpeakerVoiceMapping>, tts: Speech) {
    (script.introduction != "" ==> tts(script.introduction, DefaultVoice(mappings), None).Success?)
    && (forall j :: 0 <= j < |script.dialogue| ==> TurnSpeechOk(script.dialogue[j], mappings, tts))
    && (script.conclusion != "" ==> tts(script.conclusion, DefaultVoice(mappings), None).Success?)
  }

  predicate TurnSpeechOk(turn: DialogueTurn, mappings: seq<SpeakerVoiceMapping>, tts: Speech) {
    tts(SpokenText(turn), TurnVoice(mappings, turn.speakerId), TurnOptions(mappings, turn.speakerId)).Success?
  }

  /** The message a failed turn reaches the caller with. */
  function TurnFailure(turn: DialogueTurn, mappings: seq<SpeakerVoiceMapping>, tts: Speech): string
    requires !TurnSpeechOk(turn, mappings, tts)
  {
    PodcastError(TurnError(tts(SpokenText(turn), TurnVoice(mappings, turn.speakerId),
                               TurnOptions(mappings, turn.speakerId)).error))
  }

  /** Turn `j` is the first of the dialogue whose speech call fails. */
  predicate FailsFirst(dialogue: seq<DialogueTurn>, j: nat, mappings: seq<SpeakerVoiceMapping>, tts: Speech) {
    j < |dialogue| && !TurnSpeechOk(dialogue[j], mappings, tts)
    && forall i :: 0 <= i < j ==> TurnSpeechOk(dialogue[i], mappings, tts)
  }

  /** The message of the first failing turn of the dialogue, or `None`
      when every turn's speech call succeeds. */
  function FirstTurnFailure(dialogue: seq<DialogueTurn>, mappings: seq<SpeakerVoiceMapping>, tts: Speech)
    : (e: Option<string>)
    ensures e.None? <==> forall j :: 0 <= j < |dialogue| ==> TurnSpeechOk(dialogue[j], mappings, tts)
  {
    if dialogue == [] then None
    else if !TurnSpeechOk(dialogue[0], mappings, tts) then Some(TurnFailure(dialogue[0], mappings, tts))
    else
      AllTurnsOkCons(dialogue, mappings, tts);
      FirstTurnFailure(dialogue[1..], mappings, tts)
  }

  /** Every turn succeeds exactly when the first does and every later one does. */
  lemma AllTurnsOkCons(dialogue: seq<DialogueTurn>, mappings: seq<SpeakerVoiceMapping>, tts: Speech)
    requires dialogue != []
    ensures (forall j :: 0 <= j < |dialogue| ==> TurnSpeechOk(dialogue[j], mappings, tts))
      <==> TurnSpeechOk(dialogue[0], mappings, tts)
           && forall j :: 0 <= j < |dialogue| - 1 ==> TurnSpeechOk(dialogue[1..][j], mappings, tts)
  {
    assert forall j :: 1 <= j < |dialogue| ==> dialogue[j] == dialogue[1..][j - 1];
  }

  /** Whichever turn fails first decides the message. */
  lemma {:induction false} FirstTurnFailureAt(dialogue: seq<DialogueTurn>, j: nat,
                                              mappings: seq<SpeakerVoiceMapping>, tts: Speech)
    requires FailsFirst(dialogue, j, mappings, tts)
    ensures FirstTurnFailure(dialogue, mappings, tts) == Some(TurnFailure(dialogue[j], mappings, tts))
  {
    if j > 0 {
      assert dialogue[1..][j - 1] == dialogue[j];
      assert FailsFirst(dialogue[1..], j - 1, mappings, tts) by {
        forall i | 0 <= i < j - 1 ensures TurnSpeechOk(dialogue[1..][i], mappings, tts) {
          assert dialogue[1..][i] == dialogue[i + 1];
        }
      }
      FirstTurnFailureAt(dialogue[1..], j - 1, mappings, tts);
    }
  }

  /** The message of a failed narrator part. */
  function NarrationFailure(text: string, mappings: seq<SpeakerVoiceMapping>, tts: Speech): string
    requires tts(text, DefaultVoice(mappings), None).Failure?
  {
    PodcastError(SpeechError(tts(text, DefaultVoice(mappings), None).error))
  }

  /** The message of the first failing speech call of the podcast, in the
      order the calls are made: the introduction, the turns in order, then
      the conclusion; `None` when they all succeed. */
  function FirstSpeechFailure(script: PodcastScript, mappings: seq<SpeakerVoiceMapping>, tts: Speech)
    : (e: Option<string>)
    ensures e.None? <==> SpeechSucceeds(script, mappings, tts)
    ensures script.introduction != "" && tts(script.introduction, DefaultVoice(mappings), None).Failure? ==>
      e == Some(NarrationFailure(script.introduction, mappings, tts))
  {
    if script.introduction != "" && tts(script.introduction, DefaultVoice(mappings), None).Failure? then
      Some(NarrationFailure(script.introduction, mappings, tts))
    else if FirstTurnFailure(script.dialogue, mappings, tts).Some? then
      FirstTurnFailure(script.dialogue, mappings, tts)
    else if script.conclusion != "" && tts(script.conclusion, DefaultVoice(mappings), None).Failure? then
      Some(NarrationFailure(script.conclusion, mappings, tts))
    else None
  }

  /** A narrator segment (introduction or conclusion) in the default voice. */
  predicate IsNarration(s: AudioSegment, text: string, mappings: seq<SpeakerVoiceMapping>, tts: Speech) {
    s.speakerId == "narrator" && s.voiceId == DefaultVoice(mappings) && s.text == text
    && s.duration == EstimatedDuration(text)
    && tts(text, DefaultVoice(mappings), None).Success?
    && s.audioData == tts(text, DefaultVoice(mappings), None).value
  }

  /** The segment of one dialogue turn, in its speaker's voice. */
  predicate IsTurn(s: AudioSegment, turn: DialogueTurn, mappings: seq<SpeakerVoiceMapping>, tts: Speech) {
    var voice := TurnVoice(mappings, turn.speakerId);
    var options := TurnOptions(mappings, turn.speakerId);
    s.speakerId == turn.speakerId && s.voiceId == voice && s.text == turn.text
    && s.duration == EstimatedDuration(turn.text)
    && tts(SpokenText(turn), voice, options).Success?
    && s.audioData == tts(SpokenText(turn), voice, options).value
  }

  /** Number of segments before the dialogue: 1 with an introduction. */
  function IntroCount(script: PodcastScript): nat {
    if script.introduction != "" then 1 else 0
  }

  /** The segment order: the introduction iff there is one, then one
      segment per turn in order, then the conclusion iff there is one. */
  predicate Layout(segs: seq<AudioSegment>, script: PodcastScript, mappings: seq<SpeakerVoiceMapping>, tts: Speech) {
    var off := IntroCount(script);
    |segs| == off + |script.dialogue| + (if script.conclusion != "" then 1 else 0)
    && (script.introduction != "" ==> IsNarration(segs[0], script.introduction, mappings, tts))
    && (forall j :: 0 <= j < |script.dialogue| ==> IsTurn(segs[off + j], script.dialogue[j], mappings, tts))
    && (script.conclusion != "" ==> IsNarration(segs[|segs| - 1], script.conclusion, mappings, tts))
  }

  /** The voice map holds, for each speaker id, the voice and options of
      that speaker's last mapping. */
  ghost predicate VoiceMapOf(voiceMap: map<string, (string, Option<VoiceOptions>)>, mappings: seq<SpeakerVoiceMapping>) {
    (forall id :: id in voiceMap <==> LastMapping(mappings, id).Some?)
    && (forall id :: id in voiceMap ==>
          voiceMap[id] == (LastMapping(mappings, id).value.voiceId, LastMapping(mappings, id).value.voiceOptions))
  }

  /** A timeline whose cursor stands at the sum of its durations. */
  predicate Placed(segs: seq<AudioSegment>) {
    Contiguous(segs) && Cursor(segs) == SumDurations(segs)
  }

  /** Synthesizes a narrator part (introduction or conclusion) in the
      default voice and appends it at the cursor. */
  method PlaceNarration(segments: seq<AudioSegment>, text: string, mappings: seq<SpeakerVoiceMapping>,
                        tts: Speech, id: string)
    returns (r: Result<seq<AudioSegment>, string>)
    requires Placed(segments)
    ensures r.Success? <==> tts(text, DefaultVoice(mappings), None).Success?
    ensures r.Failure? ==>
      r.error == PodcastError(SpeechError(tts(text, DefaultVoice(mappings), None).error))
    ensures r.Success? ==>
      |r.value| == |segments| + 1 && r.value[..|segments|] == segments && Placed(r.value)
      && IsNarration(r.value[|segments|], text, mappings, tts)
  {
    var defaultVoice := if |mappings| > 0 then mappings[0].voiceId else "";
    var audio := tts(text, defaultVoice, None);
    if audio.Failure? {
      return Failure(PodcastError(SpeechError(audio.error)));
    }
    var currentTime := SumDurations(segments);
    var d := EstimatedDuration(text);
    var seg := AudioSegment(id, "narrator", defaultVoice, text, audio.value, d, currentTime, currentTime + d);
    AppendContiguous(segments, seg);
    assert (segments + [seg])[..|segments|] == segments;
    r := Success(segments + [seg]);
  }

  /** One turn of the dialogue loop: the turn is synthesized with its
      speaker's voice and options, then its start and end are set from the
      cursor `currentTime`. */
  method PlaceTurn(currentTime: real, turn: DialogueTurn,
                   mappings: seq<SpeakerVoiceMapping>, voiceMap: map<string, (string, Option<VoiceOptions>)>,
                   tts: Speech, id: string)
    returns (r: Result<AudioSegment, string>)
    requires VoiceMapOf(voiceMap, mappings)
    ensures r.Success? <==> TurnSpeechOk(turn, mappings, tts)
    ensures r.Failure? ==> r.error == TurnFailure(turn, mappings, tts)
    ensures r.Success? ==>
      IsTurn(r.value, turn, mappings, tts)
      && r.value.startTime == currentTime && r.value.endTime == currentTime + r.value.duration
  {
    var defaultVoice := if |mappings| > 0 then mappings[0].voiceId else "";
    var info := if turn.speakerId in voiceMap then Some(voiceMap[turn.speakerId]) else None;
    var voiceId := if info.Some? && info.value.0 != "" then info.value.0 else defaultVoice;
    var options := if info.Some? then info.value.1 else None;
    assert voiceId == TurnVoice(mappings, turn.speakerId) && options == TurnOptions(mappings, turn.speakerId);
    var made := SynthesizeDialogueTurn(turn, voiceId, options, tts, id);
    if made.Failure? {
      return Failure(PodcastError(made.error));
    }
    var segment := made.value;
    segment := segment.(startTime := currentTime, endTime := currentTime + segment.duration);
    r := Success(segment);
  }

  /** The `for (const turn of script.dialogue)` loop, turn by turn; the
      first failing turn fails the podcast. */
  method PlaceTurns(segments: seq<AudioSegment>, dialogue: seq<DialogueTurn>,
                    mappings: seq<SpeakerVoiceMapping>, voiceMap: map<string, (string, Option<VoiceOptions>)>,
                    tts: Speech, turnIds: nat -> string)
    returns (r: Result<seq<AudioSegment>, string>)
    requires Placed(segments) && VoiceMapOf(voiceMap, mappings)
    ensures r.Success? <==> forall j :: 0 <= j < |dialogue| ==> TurnSpeechOk(dialogue[j], mappings, tts)
    ensures r.Failure? ==>
      exists j: nat :: FailsFirst(dialogue, j, mappings, tts) && r.error == TurnFailure(dialogue[j], mappings, tts)
    ensures r.Failure? ==> FirstTurnFailure(dialogue, mappings, tts) == Some(r.error)
    ensures r.Success? ==>
      |r.value| == |segments| + |dialogue| && r.value[..|segments|] == segments && Placed(r.value)
      && forall j :: 0 <= j < |dialogue| ==> IsTurn(r.value[|segments| + j], dialogue[j], mappings, tts)
  {
    var placed := segments;
    var currentTime := SumDurations(segments);
    for j := 0 to |dialogue|
      invariant TurnsPlaced(placed, segments, dialogue, j, mappings, tts)
      invariant currentTime == SumDurations(placed)
    {
      var segment := PlaceTurn(currentTime, dialogue[j], mappings, voiceMap, tts, turnIds(j));
      if segment.Failure? {
        assert FailsFirst(dialogue, j, mappings, tts);
        FirstTurnFailureAt(dialogue, j, mappings, tts);
        return Failure(segment.error);
      }
      TurnsStep(placed, segments, dialogue, j, mappings, tts, segment.value);
      placed := placed + [segment.value];
      currentTime := currentTime + segment.value.duration;
    }
    r := Success(placed);
  }

  /** The state of the dialogue loop after `j` turns: `placed` is the
      starting timeline followed by one segment per turn so far. */
  predicate TurnsPlaced(placed: seq<AudioSegment>, segments: seq<AudioSegment>, dialogue: seq<DialogueTurn>,
                        j: nat, mappings: seq<SpeakerVoiceMapping>, tts: Speech)
    requires j <= |dialogue|
  {
    |placed| == |segments| + j && placed[..|segments|] == segments && Placed(placed)
    && (forall i :: 0 <= i < j ==> TurnSpeechOk(dialogue[i], mappings, tts))
    && (forall i :: 0 <= i < j ==> IsTurn(placed[|segments| + i], dialogue[i], mappings, tts))
  }

  /** Appending turn `j`'s segment at the cursor advances the loop state. */
  lemma TurnsStep(placed: seq<AudioSegment>, segments: seq<AudioSegment>, dialogue: seq<DialogueTurn>,
                  j: nat, mappings: seq<SpeakerVoiceMapping>, tts: Speech, seg: AudioSegment)
    requires j < |dialogue| && TurnsPlaced(placed, segments, dialogue, j, mappings, tts)
    requires TurnSpeechOk(dialogue[j], mappings, tts) && IsTurn(seg, dialogue[j], mappings, tts)
    requires seg.startTime == SumDurations(placed) && seg.endTime == seg.startTime + seg.duration
    ensures TurnsPlaced(placed + [seg], segments, dialogue, j + 1, mappings, tts)
    ensures SumDurations(placed + [seg]) == SumDurations(placed) + seg.duration
  {
    AppendContiguous(placed, seg);
    var next := placed + [seg];
    assert next[..|segments|] == placed[..|segments|];
    forall i | 0 <= i < j + 1
      ensures IsTurn(next[|segments| + i], dialogue[i], mappings, tts)
    {
      if i < j {
        assert next[|segments| + i] == placed[|segments| + i];
      }
    }
  }

  /** `synthesizePodcast`. `introStamp`, `conclusionStamp` and
      `audioStamp` stand for the three `Date.now()` readings in the ids,
      `turnIds` for the random turn ids, `generatedAt` for the timestamp. */
  method SynthesizePodcast(script: PodcastScript, mappings: seq<SpeakerVoiceMapping>, tts: Speech,
                           introStamp: string, conclusionStamp: string, audioStamp: string,
                           turnIds: nat -> string, generatedAt: string)
    returns (r: Result<PodcastAudio, string>)
    ensures r.Success? <==> SpeechSucceeds(script, mappings, tts)
    ensures r.Failure? ==> FirstSpeechFailure(script, mappings, tts) == Some(r.error)
    ensures r.Success? ==>
      r.value.id == "podcast-audio-" + audioStamp
      && Layout(r.value.segments, script, mappings, tts)
      && Contiguous(r.value.segments)
      && r.value.totalDuration == SumDurations(r.value.segments)
      && r.value.totalDuration == Cursor(r.value.segments)
      && r.value.fullAudio == Some(ConcatAudio(r.value.segments))
      && r.value.scriptId == script.id && r.value.format == Mp3
      && r.value.metadata == AudioMetadata(script, generatedAt)
  {
    var voiceMap := BuildVoiceMap(mappings);
    var placed := PlaceAll(script, mappings, voiceMap, tts, introStamp, conclusionStamp, turnIds);
    if placed.Failure? {
      return Failure(placed.error);
    }
    var segments := placed.value;
    var currentTime := SumDurations(segments);
    var fullAudio := CombineAudioSegments(segments);
    r := Success(PodcastAudio("podcast-audio-" + audioStamp, script.id, segments, Some(fullAudio),
                              currentTime, Mp3, AudioMetadata(script, generatedAt)));
  }

  /** The introduction, the dialogue turns and the conclusion laid on the
      timeline one after the other; the first failing speech call fails
      the whole. */
  method PlaceAll(script: PodcastScript, mappings: seq<SpeakerVoiceMapping>,
                  voiceMap: map<string, (string, Option<VoiceOptions>)>, tts: Speech,
                  introStamp: string, conclusionStamp: string, turnIds: nat -> string)
    returns (r: Result<seq<AudioSegment>, string>)
    requires VoiceMapOf(voiceMap, mappings)
    ensures r.Success? <==> SpeechSucceeds(script, mappings, tts)
    ensures r.Failure? ==> FirstSpeechFailure(script, mappings, tts) == Some(r.error)
    ensures r.Success? ==> Layout(r.value, script, mappings, tts) && Placed(r.value)
  {
    var segments: seq<AudioSegment> := [];
    if script.introduction != "" {
      var placed := PlaceNarration(segments, script.introduction, mappings, tts, "intro-" + introStamp);
      if placed.Failure? {
        return Failure(placed.error);
      }
      segments := placed.value;
    }
    ghost var intro := segments;
    var withTurns := PlaceTurns(segments, script.dialogue, mappings, voiceMap, tts, turnIds);
    if withTurns.Failure? {
      assert FirstSpeechFailure(script, mappings, tts) == FirstTurnFailure(script.dialogue, mappings, tts);
      return Failure(withTurns.error);
    }
    segments := withTurns.value;
    if script.conclusion != "" {
      var placed := PlaceNarration(segments, script.conclusion, mappings, tts, "conclusion-" + conclusionStamp);
      if placed.Failure? {
        assert FirstTurnFailure(script.dialogue, mappings, tts).None?;
        assert placed.error == NarrationFailure(script.conclusion, mappings, tts);
        return Failure(placed.error);
      }
      segments := placed.value;
    }
    AssembleLayout(intro, withTurns.value, segments, script, mappings, tts);
    r := Success(segments);
  }

  /** The three stages of `synthesizePodcast` put together: the
      introduction, the turns after it, and the conclusion after them. */
  lemma AssembleLayout(intro: seq<AudioSegment>, withTurns: seq<AudioSegment>, segs: seq<AudioSegment>,
                       script: PodcastScript, mappings: seq<SpeakerVoiceMapping>, tts: Speech)
    requires |intro| == IntroCount(script)
    requires script.introduction != "" ==> IsNarration(intro[0], script.introduction, mappings, tts)
    requires |withTurns| == |intro| + |script.dialogue| && withTurns[..|intro|] == intro
    requires forall j :: 0 <= j < |script.dialogue| ==>
      IsTurn(withTurns[|intro| + j], script.dialogue[j], mappings, tts)
    requires |segs| == |withTurns| + (if script.conclusion != "" then 1 else 0)
    requires segs[..|withTurns|] == withTurns
    requires script.conclusion != "" ==> IsNarration(segs[|segs| - 1], script.conclusion, mappings, tts)
    ensures Layout(segs, script, mappings, tts)
    ensures SpeechSucceeds(script, mappings, tts)
  {
    var off := |intro|;
    forall k | 0 <= k < |withTurns|
      ensures segs[k] == withTurns[k]
    {
      assert segs[..|withTurns|][k] == segs[k];
    }
    if off == 1 {
      assert segs[0] == withTurns[0] == withTurns[..off][0];
    }
  }

  /** `combineAudioSegments`: sum the buffer sizes, allocate one buffer,
      and copy each segment's bytes in at a moving offset. */
  method CombineAudioSegments(segments: seq<AudioSegment>) returns (combined: seq<byte>)
    ensures |combined| == TotalSize(segments)
    ensures combined == ConcatAudio(segments)
  {
    var totalSize := SumSizes(segments);
    ConcatSize(segments);
    var buffer := new byte[totalSize];
    var offset := 0;
    for k := 0 to |segments|
      invariant offset == TotalSize(segments[..k]) <= totalSize
      invariant buffer[..offset] == ConcatAudio(segments[..k])
    {
      var data := segments[k].audioData;
      assert segments[..k + 1][..k] == segments[..k];
      PrefixSizeBound(segments, k + 1);
      CopyAt(buffer, offset, data);
      offset := offset + |data|;
    }
    assert segments[..|segments|] == segments;
    combined := buffer[..];
  }

  /** The size loop: the byte lengths of the buffers, summed. */
  method SumSizes(segments: seq<AudioSegment>) returns (totalSize: nat)
    ensures totalSize == TotalSize(segments)
  {
    totalSize := 0;
    for k := 0 to |segments|
      invariant totalSize == TotalSize(segments[..k])
    {
      assert segments[..k + 1][..k] == segments[..k];
      totalSize := totalSize + |segments[k].audioData|;
    }
    assert segments[..|segments|] == segments;
  }

  /** `combined.set(data, offset)`: the bytes of `data` written from
      `offset` on, after the bytes already there. */
  method CopyAt(buffer: array<byte>, offset: nat, data: seq<byte>)
    requires offset + |data| <= buffer.Length
    modifies buffer
    ensures buffer[..offset + |data|] == old(buffer[..offset]) + data
  {
    for b := 0 to |data|
      invariant buffer[..offset + b] == old(buffer[..offset]) + data[..b]
    {
      buffer[offset + b] := data[b];
      assert buffer[..offset + b + 1] == buffer[..offset + b] + [data[b]];
      assert data[..b + 1] == data[..b] + [data[b]];
    }
    assert data[..|data|] == data;
  }

  /** A prefix of the segments is no larger than all of them. */
  lemma {:induction false} PrefixSizeBound(segs: seq<AudioSegment>, k: nat)
    requires k <= |segs|
    ensures TotalSize(segs[..k]) <= TotalSize(segs)
    decreases |segs| - k
  {
    if k < |segs| {
      PrefixSizeBound(segs, k + 1);
      assert segs[..k + 1][..k] == segs[..k];
    } else {
      assert segs[..k] == segs;
    }
  }
}

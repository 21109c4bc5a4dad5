/** Round-robin assignment of voices to the speakers of a script: speaker
    `i` gets voice `i mod n`, with that voice's default options. */
module VoiceAssignment {
  import opened Wrappers
  import opened Models

  /** The mapping the loop builds for speaker `i`. */
  predicate AssignedAt(m: SpeakerVoiceMapping, i: nat, speakers: seq<Speaker>, voices: seq<Voice>)
    requires i < |speakers| && |voices| > 0
  {
    m.speakerId == speakers[i].id
    && m.voiceId == voices[i % |voices|].id
    && m.voiceOptions == voices[i % |voices|].defaultVoiceOptions
  }

  /** `autoAssignVoices`. `available` is what `getAvailableVoices` returned:
      its failure, or an empty list, becomes the wrapped error. */
  method AutoAssignVoices(script: PodcastScript, available: Result<seq<Voice>, string>)
    returns (r: Result<seq<SpeakerVoiceMapping>, string>)
    ensures available.Failure? ==>
      r == Failure("Failed to auto-assign voices: Failed to get available voices: " + available.error)
    ensures available.Success? && available.value == [] ==>
      r == Failure("Failed to auto-assign voices: No voices available for assignment")
    ensures r.Success? <==> available.Success? && available.value != []
    ensures r.Success? ==> |r.value| == |script.speakers|
    ensures r.Success? ==> forall i :: 0 <= i < |r.value| ==>
      AssignedAt(r.value[i], i, script.speakers, available.value)
  {
    if available.Failure? {
      return Failure("Failed to auto-assign voices: Failed to get available voices: " + available.error);
    }
    var voices := available.value;
    if |voices| == 0 {
      return Failure("Failed to auto-assign voices: No voices available for assignment");
    }
    var mappings: seq<SpeakerVoiceMapping> := [];
    for i := 0 to |script.speakers|
      invariant |mappings| == i
      invariant forall k :: 0 <= k < i ==> AssignedAt(mappings[k], k, script.speakers, voices)
    {
      var speaker := script.speakers[i];
      var voice := voices[i % |voices|];
      mappings := mappings + [SpeakerVoiceMapping(speaker.id, voice.id, voice.defaultVoiceOptions)];
    }
    return Success(mappings);
  }

  /** With at least as many voices as speakers, speaker `i` gets voice `i`:
      the first `|speakers|` voices, each used once. */
  lemma EnoughVoicesNoRepeats(mappings: seq<SpeakerVoiceMapping>, speakers: seq<Speaker>, voices: seq<Voice>)
    requires |voices| >= |speakers| > 0 && |mappings| == |speakers|
    requires forall i :: 0 <= i < |mappings| ==> AssignedAt(mappings[i], i, speakers, voices)
    ensures forall i :: 0 <= i < |mappings| ==> mappings[i].voiceId == voices[i].id
    ensures forall i, j :: 0 <= i < j < |mappings| && voices[i].id != voices[j].id ==>
      mappings[i].voiceId != mappings[j].voiceId
  {
    forall i | 0 <= i < |mappings| ensures mappings[i].voiceId == voices[i].id {
      assert i % |voices| == i;
    }
  }

  /** With fewer voices than speakers, speakers `n` apart share a voice. */
  lemma FewVoicesCycle(mappings: seq<SpeakerVoiceMapping>, speakers: seq<Speaker>, voices: seq<Voice>, i: nat)
    requires 0 < |voices| && |mappings| == |speakers|
    requires forall k :: 0 <= k < |mappings| ==> AssignedAt(mappings[k], k, speakers, voices)
    requires i + |voices| < |mappings|
    ensures mappings[i + |voices|].voiceId == mappings[i].voiceId
  {
    ModShift(i, |voices|);
  }

  lemma ModShift(a: nat, n: nat)
    requires n > 0
    ensures (a + n) % n == a % n
  {
    var q, m := a / n, a % n;
    var q2, m2 := (a + n) / n, (a + n) % n;
    assert (q + 1) * n == q * n + n;
    var d := q2 - q - 1;
    assert d * n == q2 * n - (q + 1) * n;
    assert d * n == m - m2;
    if d >= 1 {
      MulAtLeast(d, n);
    } else if d <= -1 {
      MulAtLeast(-d, n);
    }
  }

  lemma {:induction false} MulAtLeast(d: nat, n: nat)
    requires d >= 1
    ensures d * n >= n
    decreases d
  {
    if d > 1 {
      MulAtLeast(d - 1, n);
      assert d * n == (d - 1) * n + n;
    }
  }
}

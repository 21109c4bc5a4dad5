/** The deterministic part of the dialogue generation service: repairing the
    speaker list and the dialogue turns the language model returns, the
    fallbacks used when its reply cannot be read, the title and description
    derived from the knowledge graph, and the assembly of the script. The
    model calls themselves are inputs: each is the reply text, or the error
    the call failed with after its retries. */
module DialogueGeneration {
  import opened Wrappers
  import opened Strings
  import opened Models
  import opened JsonExtract

  /** A speaker record as `JSON.parse` yields it: any field may be missing,
      and `expertise` is `None` when it is not an array. */
  datatype RawSpeaker = RawSpeaker(
    id: Option<string>,
    name: Option<string>,
    personality: Option<string>,
    expertise: Option<seq<string>>,
    perspective: Option<string>)

  /** A dialogue turn as `JSON.parse` yields it; `references` is `None` when
      it is not an array. */
  datatype RawTurn = RawTurn(
    speakerId: Option<string>,
    speakerName: Option<string>,
    text: Option<string>,
    emotion: Option<string>,
    references: Option<seq<string>>)

  const DefaultPersonality := "Thoughtful and articulate"
  const DefaultExpertise := ["General knowledge"]
  const DefaultPerspective := "Balanced viewpoint"
  const DefaultTurnText := "I agree with what was said."
  const UnknownSpeaker := "Unknown Speaker"

  /** The generic speaker placed at position `i` (0-based). */
  function GenericSpeaker(i: nat): Speaker {
    Speaker("speaker-" + NatToString(i + 1), "Speaker " + NatToString(i + 1),
            DefaultPersonality, DefaultExpertise, DefaultPerspective)
  }

  /** One parsed speaker at position `i`, with a default for each field
      that is missing or empty. */
  function ValidateSpeaker(raw: RawSpeaker, i: nat): (s: Speaker)
    ensures s.id == (if raw.id.Some? && raw.id.value != "" then raw.id.value else GenericSpeaker(i).id)
    ensures s.name == (if raw.name.Some? && raw.name.value != "" then raw.name.value else GenericSpeaker(i).name)
    ensures s.personality == (if raw.personality.Some? && raw.personality.value != "" then raw.personality.value
                              else DefaultPersonality)
    ensures s.expertise == (if raw.expertise.Some? then raw.expertise.value else DefaultExpertise)
    ensures s.perspective == (if raw.perspective.Some? && raw.perspective.value != "" then raw.perspective.value
                              else DefaultPerspective)
    ensures s.id != [] && s.name != [] && s.personality != [] && s.perspective != []
  {
    Speaker(OrDefault(raw.id, "speaker-" + NatToString(i + 1)),
            OrDefault(raw.name, "Speaker " + NatToString(i + 1)),
            OrDefault(raw.personality, DefaultPersonality),
            if raw.expertise.Some? then raw.expertise.value else DefaultExpertise,
            OrDefault(raw.perspective, DefaultPerspective))
  }

  /** Every field of the parsed record is present and non-empty. */
  predicate FullSpeaker(raw: RawSpeaker) {
    raw.id.Some? && raw.id.value != "" && raw.name.Some? && raw.name.value != ""
    && raw.personality.Some? && raw.personality.value != "" && raw.expertise.Some?
    && raw.perspective.Some? && raw.perspective.value != ""
  }

  /** A fully populated speaker passes through validation unchanged. */
  lemma FullSpeakerUnchanged(raw: RawSpeaker, i: nat)
    requires FullSpeaker(raw)
    ensures ValidateSpeaker(raw, i)
      == Speaker(raw.id.value, raw.name.value, raw.personality.value, raw.expertise.value, raw.perspective.value)
  {
  }

  /** `parseSpeakersResponse`: map the parsed records through the defaults,
      pad with generic speakers up to `expectedCount`, then cut to
      `expectedCount`; with no readable array, `expectedCount` generic
      speakers. */
  method ParseSpeakersResponse(responseText: string, expectedCount: nat,
                               parse: string -> Option<seq<RawSpeaker>>)
    returns (speakers: seq<Speaker>)
    ensures |speakers| == expectedCount
    ensures ParseArray(responseText, parse).None? ==>
      forall i :: 0 <= i < expectedCount ==> speakers[i] == GenericSpeaker(i)
    ensures ParseArray(responseText, parse).Some? ==>
      var raw := ParseArray(responseText, parse).value;
      forall i :: 0 <= i < expectedCount ==>
        speakers[i] == if i < |raw| then ValidateSpeaker(raw[i], i) else GenericSpeaker(i)
  {
    var parsed := ParseArray(responseText, parse);
    if parsed.None? {
      speakers := seq(expectedCount, i requires 0 <= i < expectedCount => GenericSpeaker(i));
      return;
    }
    var raw := parsed.value;
    var validated := seq(|raw|, i requires 0 <= i < |raw| => ValidateSpeaker(raw[i], i));
    while |validated| < expectedCount
      invariant |validated| >= |raw|
      invariant forall i :: 0 <= i < |raw| ==> validated[i] == ValidateSpeaker(raw[i], i)
      invariant forall i :: |raw| <= i < |validated| ==> validated[i] == GenericSpeaker(i)
      decreases expectedCount - |validated|
    {
      validated := validated + [GenericSpeaker(|validated|)];
    }
    speakers := validated[..expectedCount];
  }

  /** `new Map(speakers.map(s => [s.id, s.name]))`: a later speaker with
      the same id overwrites an earlier one. */
  function SpeakerNames(speakers: seq<Speaker>): (names: map<string, string>)
    ensures forall k :: 0 <= k < |speakers| ==> speakers[k].id in names
  {
    if speakers == [] then map[]
    else
      var init := speakers[..|speakers| - 1];
      var last := speakers[|speakers| - 1];
      assert forall k :: 0 <= k < |init| ==> speakers[k] == init[k];
      SpeakerNames(init)[last.id := last.name]
  }

  /** Every id in the map is some speaker's id. */
  lemma {:induction false} SpeakerNamesKnown(speakers: seq<Speaker>, id: string) returns (k: nat)
    requires id in SpeakerNames(speakers)
    ensures k < |speakers| && speakers[k].id == id
  {
    var init := speakers[..|speakers| - 1];
    var last := speakers[|speakers| - 1];
    if id == last.id {
      k := |speakers| - 1;
    } else {
      k := SpeakerNamesKnown(init, id);
      assert speakers[k] == init[k];
    }
  }

  /** The name mapped from a speaker's id is that speaker's name when no
      later speaker has the same id. */
  lemma {:induction false} SpeakerNamesLast(speakers: seq<Speaker>, k: nat)
    requires k < |speakers| && LastWithId(speakers, k)
    ensures SpeakerNames(speakers)[speakers[k].id] == speakers[k].name
  {
    var init := speakers[..|speakers| - 1];
    var last := speakers[|speakers| - 1];
    if k < |init| {
      assert speakers[k] == init[k];
      assert last.id != speakers[k].id;
      assert LastWithId(init, k) by {
        forall j | k < j < |init| ensures init[j].id != init[k].id {
          assert init[j] == speakers[j];
        }
      }
      SpeakerNamesLast(init, k);
    }
  }

  /** No speaker after position `k` has the id of speaker `k`. */
  predicate LastWithId(speakers: seq<Speaker>, k: nat)
    requires k < |speakers|
  {
    forall j :: k < j < |speakers| ==> speakers[j].id != speakers[k].id
  }

  /** The name a repaired turn carries for a known speaker id: the mapped
      name, or "Unknown Speaker" when that name is empty. */
  function NameFor(names: map<string, string>, id: string): string
    requires id in names
  {
    if names[id] != "" then names[id] else UnknownSpeaker
  }

  /** The fallback's two turns for one speaker. */
  function FallbackTurns(s: Speaker): seq<DialogueTurn> {
    [DialogueTurn(s.id, s.name,
                  "As someone with expertise in " + Join(s.expertise, ", ") + ", I find this topic fascinating.",
                  None, None),
     DialogueTurn(s.id, s.name,
                  "From my perspective as " + s.personality + ", I think there's a lot to explore here.",
                  None, None)]
  }

  /** The generic dialogue used when the reply cannot be read:
      `speakers.flatMap(...)`, two turns per speaker in speaker order. */
  function DialogueFallback(speakers: seq<Speaker>): (turns: seq<DialogueTurn>)
    ensures |turns| == 2 * |speakers|
  {
    if speakers == [] then [] else FallbackTurns(speakers[0]) + DialogueFallback(speakers[1..])
  }

  /** Speaker `k` says the two stock lines at positions `2k` and `2k + 1`. */
  lemma {:induction false} DialogueFallbackAt(speakers: seq<Speaker>, k: nat)
    requires k < |speakers|
    ensures DialogueFallback(speakers)[2 * k] == FallbackTurns(speakers[k])[0]
    ensures DialogueFallback(speakers)[2 * k + 1] == FallbackTurns(speakers[k])[1]
  {
    var rest := DialogueFallback(speakers[1..]);
    assert DialogueFallback(speakers) == FallbackTurns(speakers[0]) + rest;
    if k > 0 {
      DialogueFallbackAt(speakers[1..], k - 1);
      assert 2 * k == 2 * (k - 1) + 2;
    }
  }

  /** The turn `raw` at position `i` after repair: its speaker id is a
      known one (its own, or else that of `speakers[i % n]`), its name is
      the one mapped from that id, a missing text is replaced by a stock
      line, and emotion and references are carried over. */
  predicate Repaired(turn: DialogueTurn, raw: RawTurn, i: nat, speakers: seq<Speaker>,
                     names: map<string, string>)
  {
    |speakers| > 0
    && turn.speakerId in names
    && turn.speakerId == (if raw.speakerId.Some? && raw.speakerId.value in names
                          then raw.speakerId.value else speakers[i % |speakers|].id)
    && turn.speakerName == NameFor(names, turn.speakerId)
    && turn.text == OrDefault(raw.text, DefaultTurnText)
    && turn.emotion == raw.emotion
    && turn.references == raw.references
  }

  /** `parseDialogueResponse`. Each parsed turn whose speaker id is unknown
      is given the id of `speakers[i % n]`; its name is then re-derived from
      the id; a missing text gets a stock line. With no readable array the
      generic dialogue is returned. With no speakers at all the `i % 0`
      lookup throws, which also lands in the fallback, here empty. */
  method ParseDialogueResponse(responseText: string, speakers: seq<Speaker>,
                               parse: string -> Option<seq<RawTurn>>)
    returns (turns: seq<DialogueTurn>)
    ensures ParseArray(responseText, parse).None? ==> turns == DialogueFallback(speakers)
    ensures |speakers| == 0 ==> turns == []
    ensures ParseArray(responseText, parse).Some? && |speakers| > 0 ==>
      |turns| == |ParseArray(responseText, parse).value|
      && forall i :: 0 <= i < |turns| ==>
           Repaired(turns[i], ParseArray(responseText, parse).value[i], i, speakers, SpeakerNames(speakers))
    ensures SpeakersKnown(turns, speakers)
  {
    var parsed := ParseArray(responseText, parse);
    if parsed.None? {
      turns := DialogueFallback(speakers);
      FallbackSpeakersKnown(speakers);
      return;
    }
    if |speakers| == 0 {
      // the first `i % 0` lookup throws; with no turn to repair the map
      // returns [], which is the fallback for no speakers as well
      turns := DialogueFallback(speakers);
      return;
    }
    turns := RepairAll(parsed.value, speakers);
    RepairedSpeakersKnown(turns, parsed.value, speakers);
  }

  /** Some speaker has the id `id`. */
  predicate KnownSpeaker(speakers: seq<Speaker>, id: string) {
    exists k :: 0 <= k < |speakers| && speakers[k].id == id
  }

  /** Every turn is spoken by one of the speakers. */
  predicate SpeakersKnown(turns: seq<DialogueTurn>, speakers: seq<Speaker>) {
    forall i :: 0 <= i < |turns| ==> KnownSpeaker(speakers, turns[i].speakerId)
  }

  /** The generic dialogue is spoken by the speakers it was made from. */
  lemma FallbackSpeakersKnown(speakers: seq<Speaker>)
    ensures SpeakersKnown(DialogueFallback(speakers), speakers)
  {
    var turns := DialogueFallback(speakers);
    forall i | 0 <= i < |turns|
      ensures KnownSpeaker(speakers, turns[i].speakerId)
    {
      var k := i / 2;
      DialogueFallbackAt(speakers, k);
      assert i == 2 * k || i == 2 * k + 1;
      assert speakers[k].id == turns[i].speakerId;
    }
  }

  /** A repaired turn's speaker id is a key of the name map, so some
      speaker has it. */
  lemma RepairedSpeakersKnown(turns: seq<DialogueTurn>, raw: seq<RawTurn>, speakers: seq<Speaker>)
    requires AllRepaired(turns, raw, speakers, SpeakerNames(speakers))
    ensures SpeakersKnown(turns, speakers)
  {
    forall i | 0 <= i < |turns|
      ensures KnownSpeaker(speakers, turns[i].speakerId)
    {
      assert Repaired(turns[i], raw[i], i, speakers, SpeakerNames(speakers));
      var k := SpeakerNamesKnown(speakers, turns[i].speakerId);
    }
  }

  /** The first `|turns|` parsed turns, each repaired at its position. */
  predicate AllRepaired(turns: seq<DialogueTurn>, raw: seq<RawTurn>, speakers: seq<Speaker>,
                        names: map<string, string>)
  {
    |turns| <= |raw|
    && forall j :: 0 <= j < |turns| ==> Repaired(turns[j], raw[j], j, speakers, names)
  }

  /** `dialogue.map(...)` on a non-empty speaker list. */
  method RepairAll(raw: seq<RawTurn>, speakers: seq<Speaker>) returns (turns: seq<DialogueTurn>)
    requires |speakers| > 0
    ensures |turns| == |raw| && AllRepaired(turns, raw, speakers, SpeakerNames(speakers))
  {
    var names := SpeakerNames(speakers);
    turns := [];
    while |turns| < |raw|
      invariant AllRepaired(turns, raw, speakers, names)
      decreases |raw| - |turns|
    {
      var turn := RepairTurn(raw[|turns|], |turns|, speakers, names);
      RepairedSnoc(turns, turn, raw, speakers, names);
      turns := turns + [turn];
    }
  }

  lemma RepairedSnoc(turns: seq<DialogueTurn>, turn: DialogueTurn, raw: seq<RawTurn>,
                     speakers: seq<Speaker>, names: map<string, string>)
    requires AllRepaired(turns, raw, speakers, names) && |turns| < |raw|
    requires Repaired(turn, raw[|turns|], |turns|, speakers, names)
    ensures AllRepaired(turns + [turn], raw, speakers, names)
  {
    var next := turns + [turn];
    assert forall j :: 0 <= j < |turns| ==> next[j] == turns[j];
  }

  /** The body of the `dialogue.map(...)` callback for one turn, on a
      non-empty speaker list: the speaker id and name are overwritten as the
      source does it on the parsed object, then the record is built. */
  method RepairTurn(raw: RawTurn, i: nat, speakers: seq<Speaker>, names: map<string, string>)
    returns (turn: DialogueTurn)
    requires |speakers| > 0 && names == SpeakerNames(speakers)
    ensures Repaired(turn, raw, i, speakers, names)
  {
    var speakerId := raw.speakerId;
    var speakerName := raw.speakerName;
    if !(speakerId.Some? && speakerId.value in names) {
      var validId := speakers[i % |speakers|].id;
      assert validId in names;
      speakerId := Some(validId);
      speakerName := Some(OrDefault(Some(names[validId]), UnknownSpeaker));
    }
    var id := speakerId.value;
    if speakerName.None? || speakerName.value == "" || speakerName.value != names[id] {
      speakerName := Some(OrDefault(Some(names[id]), UnknownSpeaker));
    }
    turn := DialogueTurn(id, speakerName.value, OrDefault(raw.text, DefaultTurnText),
                         raw.emotion, raw.references);
  }

  /** `[...topics].sort((a, b) => b.importance - a.importance)`: a stable
      sort by importance, highest first. */
  function SortByImportance(topics: seq<Topic>): (sorted: seq<Topic>)
    ensures multiset(sorted) == multiset(topics)
    ensures ByImportance(sorted)
  {
    if topics == [] then []
    else
      assert topics == [topics[0]] + topics[1..];
      Insert(topics[0], SortByImportance(topics[1..]))
  }

  predicate ByImportance(ts: seq<Topic>) {
    forall i, j :: 0 <= i < j < |ts| ==> ts[i].importance >= ts[j].importance
  }

  /** The topics of importance `v`, in their order: a stable sort keeps
      this subsequence unchanged for every `v`. */
  function OfImportance(ts: seq<Topic>, v: real): seq<Topic> {
    if ts == [] then [] else Only(ts[0], v) + OfImportance(ts[1..], v)
  }

  /** `[t]` when `t` has importance `v`, otherwise nothing. */
  function Only(t: Topic, v: real): seq<Topic> {
    if t.importance == v then [t] else []
  }

  lemma OfImportanceCons(t: Topic, ts: seq<Topic>, v: real)
    ensures OfImportance([t] + ts, v) == Only(t, v) + OfImportance(ts, v)
  {
    assert ([t] + ts)[1..] == ts;
  }

  /** Places `t` before the first topic that is not more important, so
      that among equals the earlier input comes first. */
  function Insert(t: Topic, sorted: seq<Topic>): (r: seq<Topic>)
    requires ByImportance(sorted)
    ensures multiset(r) == multiset(sorted) + multiset{t}
    ensures ByImportance(r)
    ensures |r| == |sorted| + 1
  {
    if sorted == [] then [t]
    else if sorted[0].importance <= t.importance then [t] + sorted
    else
      var rest := Insert(t, sorted[1..]);
      assert sorted == [sorted[0]] + sorted[1..];
      assert rest[0] in multiset(rest);
      [sorted[0]] + rest
  }

  /** The sort is stable: for every importance, the topics of that
      importance come out in the order they went in. */
  lemma {:induction false} SortStable(topics: seq<Topic>, v: real)
    ensures OfImportance(SortByImportance(topics), v) == OfImportance(topics, v)
  {
    if topics != [] {
      SortStable(topics[1..], v);
      InsertStable(topics[0], SortByImportance(topics[1..]), v);
      OfImportanceCons(topics[0], topics[1..], v);
      assert topics == [topics[0]] + topics[1..];
    }
  }

  /** `t` goes after every more important topic, and so before every topic
      of its own importance. */
  lemma {:induction false} InsertStable(t: Topic, sorted: seq<Topic>, v: real)
    requires ByImportance(sorted)
    ensures OfImportance(Insert(t, sorted), v) == Only(t, v) + OfImportance(sorted, v)
  {
    if sorted == [] {
      OfImportanceCons(t, [], v);
    } else if sorted[0].importance <= t.importance {
      OfImportanceCons(t, sorted, v);
    } else {
      var s0, tail := sorted[0], sorted[1..];
      var rest := Insert(t, tail);
      assert Insert(t, sorted) == [s0] + rest;
      InsertStable(t, tail, v);
      OfImportanceCons(s0, rest, v);
      OfImportanceCons(s0, tail, v);
      assert sorted == [s0] + tail;
      OnlySwap(s0, t, OfImportance(tail, v), v);
    }
  }

  /** Topics of different importance never both pass the same filter. */
  lemma OnlySwap(a: Topic, b: Topic, rest: seq<Topic>, v: real)
    requires a.importance != b.importance
    ensures Only(a, v) + (Only(b, v) + rest) == Only(b, v) + (Only(a, v) + rest)
  {
  }

  /** The topic a sort puts first is one of the topics and none is more
      important. */
  lemma SortedHeadIsMostImportant(topics: seq<Topic>)
    requires topics != []
    ensures SortByImportance(topics)[0] in topics
    ensures forall t :: t in topics ==> SortByImportance(topics)[0].importance >= t.importance
  {
    var sorted := SortByImportance(topics);
    assert |sorted| == |topics| by {
      assert |multiset(sorted)| == |multiset(topics)|;
    }
    assert sorted[0] in multiset(topics);
    forall t | t in topics
      ensures sorted[0].importance >= t.importance
    {
      assert t in multiset(sorted);
      var j :| 0 <= j < |sorted| && sorted[j] == t;
    }
  }

  /** `generateTitle`. */
  function GenerateTitle(kg: KnowledgeGraph): (title: string)
    ensures kg.topics == [] ==> title == "Podcast Discussion"
    ensures |kg.topics| == 1 ==> title == "Exploring " + kg.topics[0].name
  {
    var top := SortByImportance(kg.topics);
    assert |top| == |kg.topics| by { assert |multiset(top)| == |multiset(kg.topics)|; }
    if |top| == 0 then "Podcast Discussion"
    else if |top| == 1 then
      assert top[0] in multiset(kg.topics);
      "Exploring " + top[0].name
    else "Exploring " + top[0].name + " and " + top[1].name
  }

  /** With at least two topics the title names the two the sort puts first:
      the most important topic and, after it, one no less important than
      any remaining topic. */
  lemma TitleNamesTopTwo(kg: KnowledgeGraph)
    requires |kg.topics| >= 2
    ensures var top := SortByImportance(kg.topics);
      |top| == |kg.topics|
      && GenerateTitle(kg) == "Exploring " + top[0].name + " and " + top[1].name
      && multiset{top[0], top[1]} <= multiset(kg.topics)
      && (forall t :: t in kg.topics ==> top[0].importance >= t.importance)
      && (forall t :: t in multiset(kg.topics) - multiset{top[0]} ==> top[1].importance >= t.importance)
  {
    SortedSecond(kg.topics);
    SortedHeadIsMostImportant(kg.topics);
  }

  /** The second topic of the sort is at least as important as every topic
      but the first. */
  lemma SortedSecond(topics: seq<Topic>)
    requires |topics| >= 2
    ensures var top := SortByImportance(topics);
      |top| == |topics|
      && multiset{top[0], top[1]} <= multiset(topics)
      && (forall t :: t in multiset(topics) - multiset{top[0]} ==> top[1].importance >= t.importance)
  {
    var top := SortByImportance(topics);
    assert |top| == |topics| by { assert |multiset(top)| == |multiset(topics)|; }
    FirstTwoIn(top);
    SortedRest(top, 1);
    assert top[..1] == [top[0]];
  }

  /** Whatever a sorted sequence leaves out after its first `n` entries is
      no more important than any of those entries, nor than the entry at
      `n`. */
  lemma SortedRest(top: seq<Topic>, n: nat)
    requires ByImportance(top) && n <= |top|
    ensures forall i, t :: 0 <= i <= n && i < |top| && t in multiset(top) - multiset(top[..n]) ==>
      top[i].importance >= t.importance
  {
    assert top == top[..n] + top[n..];
    assert multiset(top) - multiset(top[..n]) == multiset(top[n..]);
    forall i, t | 0 <= i <= n && i < |top| && t in multiset(top) - multiset(top[..n])
      ensures top[i].importance >= t.importance
    {
      assert t in top[n..];
      var j :| 0 <= j < |top| - n && top[n..][j] == t;
      assert top[n + j] == t;
    }
  }

  /** The first two entries of a sequence are, together, part of it. */
  lemma FirstTwoIn(s: seq<Topic>)
    requires |s| >= 2
    ensures multiset{s[0], s[1]} <= multiset(s)
  {
    assert s == [s[0], s[1]] + s[2..];
    assert multiset(s) == multiset{s[0], s[1]} + multiset(s[2..]);
  }

  /** `generateDescription`: the names of the (up to) three most important
      topics, then the first one's description. */
  function GenerateDescription(kg: KnowledgeGraph): (description: string)
    ensures kg.topics == [] ==> description == "An engaging podcast discussion on various topics."
    ensures |kg.topics| == 1 ==>
      description == "A thought-provoking discussion exploring " + kg.topics[0].name + ". " + kg.topics[0].description
  {
    var sorted := SortByImportance(kg.topics);
    assert |sorted| == |kg.topics| by { assert |multiset(sorted)| == |multiset(kg.topics)|; }
    var top := sorted[..if |sorted| < 3 then |sorted| else 3];
    if |top| == 0 then "An engaging podcast discussion on various topics."
    else
      assert |top| == 1 ==> top[0] in multiset(kg.topics);
      "A thought-provoking discussion exploring "
        + Join(Names(top), ", ")
        + ". " + top[0].description
  }

  /** `topics.map(t => t.name)`. */
  function Names(topics: seq<Topic>): seq<string> {
    seq(|topics|, i requires 0 <= i < |topics| => topics[i].name)
  }

  /** With at least two topics the description lists, joined by ", ", the
      names of the first three topics of the sort (or of both when there
      are two), each no less important than any topic left out, and ends
      with the description of the first, a most important topic. */
  lemma DescriptionNamesTopThree(kg: KnowledgeGraph)
    requires |kg.topics| >= 2
    ensures var top := SortByImportance(kg.topics);
      var n := if |kg.topics| < 3 then |kg.topics| else 3;
      |top| == |kg.topics|
      && GenerateDescription(kg)
         == "A thought-provoking discussion exploring " + Join(Names(top[..n]), ", ") + ". " + top[0].description
      && multiset(top[..n]) <= multiset(kg.topics)
      && (forall t :: t in kg.topics ==> top[0].importance >= t.importance)
      && (forall i, t :: 0 <= i < n && t in multiset(kg.topics) - multiset(top[..n]) ==>
            top[i].importance >= t.importance)
  {
    var top := SortByImportance(kg.topics);
    var n := if |kg.topics| < 3 then |kg.topics| else 3;
    SortedPrefix(kg.topics, n);
    SortedHeadIsMostImportant(kg.topics);
  }

  /** The first `n` topics of the sort are topics of the list, and each is
      at least as important as every topic after them. */
  lemma SortedPrefix(topics: seq<Topic>, n: nat)
    requires n <= |topics|
    ensures var top := SortByImportance(topics);
      |top| == |topics|
      && multiset(top[..n]) <= multiset(topics)
      && (forall i, t :: 0 <= i < n && t in multiset(topics) - multiset(top[..n]) ==>
            top[i].importance >= t.importance)
  {
    var top := SortByImportance(topics);
    assert |top| == |topics| by { assert |multiset(top)| == |multiset(topics)|; }
    SortedRest(top, n);
    assert top == top[..n] + top[n..];
    assert multiset(top) == multiset(top[..n]) + multiset(top[n..]);
  }

  /** The options `generatePodcastScript` reads; the others only shape the
      prompts. */
  datatype ScriptOptions = ScriptOptions(
    speakerCount: Option<nat>,
    turnCount: Option<nat>,
    includeIntroduction: Option<bool>,
    includeConclusion: Option<bool>)

  /** The defaults of `generatePodcastScript`: `|| 2`, `|| 15` (so 0 also
      means the default) and `!== false` (so only an explicit `false`
      switches a part off). Returns speaker count, turn count, and whether
      the introduction and the conclusion are generated. */
  function ScriptDefaults(o: ScriptOptions): (r: (nat, nat, bool, bool))
    ensures r.0 > 0 && r.1 > 0
    ensures o.speakerCount.Some? && o.speakerCount.value > 0 ==> r.0 == o.speakerCount.value
    ensures o.turnCount.Some? && o.turnCount.value > 0 ==> r.1 == o.turnCount.value
    ensures r.2 <==> o.includeIntroduction != Some(false)
    ensures r.3 <==> o.includeConclusion != Some(false)
  {
    (if o.speakerCount.Some? && o.speakerCount.value > 0 then o.speakerCount.value else 2,
     if o.turnCount.Some? && o.turnCount.value > 0 then o.turnCount.value else 15,
     o.includeIntroduction != Some(false),
     o.includeConclusion != Some(false))
  }

  /** The script's metadata: the graph's topic and entity counts, the
      speaker count asked for, the number of turns actually produced, and
      the generation time. */
  function ScriptMetadata(kg: KnowledgeGraph, speakerCount: nat, dialogue: seq<DialogueTurn>,
                          generatedAt: string): (m: Metadata)
    ensures m.Keys == {"topicCount", "entityCount", "speakerCount", "turnCount", "generatedAt"}
    ensures m["turnCount"] == VNum(|dialogue| as real) && m["speakerCount"] == VNum(speakerCount as real)
    ensures m["topicCount"] == VNum(|kg.topics| as real) && m["entityCount"] == VNum(|kg.entities| as real)
    ensures m["generatedAt"] == VStr(generatedAt)
  {
    map["topicCount" := VNum(|kg.topics| as real),
        "entityCount" := VNum(|kg.entities| as real),
        "speakerCount" := VNum(speakerCount as real),
        "turnCount" := VNum(|dialogue| as real),
        "generatedAt" := VStr(generatedAt)]
  }

  /** The replies of the four model calls, each after its retries. */
  datatype Replies = Replies(
    speakers: Result<string, string>,
    introduction: Result<string, string>,
    dialogue: Result<string, string>,
    conclusion: Result<string, string>)

  /** The message of a failed step, wrapped first by the step and then by
      the script. */
  function StepError(step: string, e: string): string {
    "Failed to generate podcast script: Failed to generate " + step + ": " + e
  }

  /** `generatePodcastScript`: speakers, the optional introduction, the
      dialogue and the optional conclusion, each from its reply, then the
      script record. A failed call fails the whole script, its message
      wrapped by the step and then by the script. The id and the timestamp
      are inputs. */
  method GeneratePodcastScript(kg: KnowledgeGraph, options: ScriptOptions, replies: Replies,
                               parseSpeakers: string -> Option<seq<RawSpeaker>>,
                               parseTurns: string -> Option<seq<RawTurn>>,
                               id: string, generatedAt: string)
    returns (r: Result<PodcastScript, string>)
    ensures r.Success? <==>
      replies.speakers.Success? && (ScriptDefaults(options).2 ==> replies.introduction.Success?)
      && replies.dialogue.Success? && (ScriptDefaults(options).3 ==> replies.conclusion.Success?)
    ensures replies.speakers.Failure? ==>
      r == Failure(StepError("speakers", replies.speakers.error))
    ensures replies.speakers.Success? && ScriptDefaults(options).2 && replies.introduction.Failure? ==>
      r == Failure(StepError("introduction", replies.introduction.error))
    ensures replies.speakers.Success? && (ScriptDefaults(options).2 ==> replies.introduction.Success?)
            && replies.dialogue.Failure? ==>
      r == Failure(StepError("dialogue", replies.dialogue.error))
    ensures replies.speakers.Success? && (ScriptDefaults(options).2 ==> replies.introduction.Success?)
            && replies.dialogue.Success? && ScriptDefaults(options).3 && replies.conclusion.Failure? ==>
      r == Failure(StepError("conclusion", replies.conclusion.error))
    ensures r.Success? ==>
      |r.value.speakers| == ScriptDefaults(options).0
      && r.value.introduction == (if ScriptDefaults(options).2 then Trim(replies.introduction.value) else "")
      && r.value.conclusion == (if ScriptDefaults(options).3 then Trim(replies.conclusion.value) else "")
    ensures r.Success? ==>
      r.value.id == id && r.value.sourceKnowledgeGraphId == kg.id
      && r.value.title == GenerateTitle(kg) && r.value.description == GenerateDescription(kg)
      && r.value.metadata == ScriptMetadata(kg, ScriptDefaults(options).0, r.value.dialogue, generatedAt)
    ensures r.Success? ==>
      SpeakersOf(r.value.speakers, replies.speakers.value, ScriptDefaults(options).0, parseSpeakers)
      && DialogueOf(r.value.dialogue, replies.dialogue.value, r.value.speakers, parseTurns)
  {
    var defaults := ScriptDefaults(options);
    var speakerCount, withIntro, withConclusion := defaults.0, defaults.2, defaults.3;
    if replies.speakers.Failure? {
      return Failure(StepError("speakers", replies.speakers.error));
    }
    var introduction := "";
    if withIntro {
      if replies.introduction.Failure? {
        return Failure(StepError("introduction", replies.introduction.error));
      }
      introduction := Trim(replies.introduction.value);
    }
    if replies.dialogue.Failure? {
      return Failure(StepError("dialogue", replies.dialogue.error));
    }
    var conclusion := "";
    if withConclusion {
      if replies.conclusion.Failure? {
        return Failure(StepError("conclusion", replies.conclusion.error));
      }
      conclusion := Trim(replies.conclusion.value);
    }
    var script := BuildScript(kg, speakerCount, replies.speakers.value, introduction, replies.dialogue.value,
                              conclusion, parseSpeakers, parseTurns, id, generatedAt);
    r := Success(script);
  }

  /** The speakers `parseSpeakersResponse` makes of `reply`: the parsed
      records through the defaults, padded with generic speakers, `count`
      in all. */
  predicate SpeakersOf(speakers: seq<Speaker>, reply: string, count: nat,
                       parse: string -> Option<seq<RawSpeaker>>)
  {
    var raw := ParseArray(reply, parse);
    |speakers| == count
    && forall i :: 0 <= i < count ==>
         speakers[i] == if raw.Some? && i < |raw.value| then ValidateSpeaker(raw.value[i], i) else GenericSpeaker(i)
  }

  /** The dialogue `parseDialogueResponse` makes of `reply`: the generic
      dialogue when there is no readable array, otherwise the parsed turns
      each repaired at its position; every turn spoken by one of the
      speakers. */
  predicate DialogueOf(turns: seq<DialogueTurn>, reply: string, speakers: seq<Speaker>,
                       parse: string -> Option<seq<RawTurn>>)
  {
    var raw := ParseArray(reply, parse);
    (raw.None? ==> turns == DialogueFallback(speakers))
    && (|speakers| == 0 ==> turns == [])
    && (raw.Some? && |speakers| > 0 ==>
          |turns| == |raw.value|
          && forall i :: 0 <= i < |turns| ==> Repaired(turns[i], raw.value[i], i, speakers, SpeakerNames(speakers)))
    && SpeakersKnown(turns, speakers)
  }

  /** The script record once every reply has arrived: the speakers and the
      dialogue parsed from their replies, the title and description derived
      from the graph. Parsing never fails, so its place among the calls
      does not matter. */
  method BuildScript(kg: KnowledgeGraph, speakerCount: nat, speakersReply: string, introduction: string,
                     dialogueReply: string, conclusion: string,
                     parseSpeakers: string -> Option<seq<RawSpeaker>>,
                     parseTurns: string -> Option<seq<RawTurn>>,
                     id: string, generatedAt: string)
    returns (script: PodcastScript)
    ensures |script.speakers| == speakerCount
    ensures script.introduction == introduction && script.conclusion == conclusion
    ensures script.id == id && script.sourceKnowledgeGraphId == kg.id
    ensures script.title == GenerateTitle(kg) && script.description == GenerateDescription(kg)
    ensures script.metadata == ScriptMetadata(kg, speakerCount, script.dialogue, generatedAt)
    ensures SpeakersOf(script.speakers, speakersReply, speakerCount, parseSpeakers)
    ensures DialogueOf(script.dialogue, dialogueReply, script.speakers, parseTurns)
  {
    var speakers := ParseSpeakersResponse(speakersReply, speakerCount, parseSpeakers);
    var dialogue := ParseDialogueResponse(dialogueReply, speakers, parseTurns);
    var metadata := ScriptMetadata(kg, speakerCount, dialogue, generatedAt);
    script := PodcastScript(id, GenerateTitle(kg), GenerateDescription(kg), speakers, introduction,
                            dialogue, conclusion, kg.id, metadata);
  }
}

/** The deterministic part of the content understanding service: turning
    the language model's replies into topics, entities and relationships
    with positional ids and defaults, and assembling the knowledge graph.
    Each model call is an input: its reply text, or the error it failed
    with after its retries. */
module ContentUnderstanding {
  import opened Wrappers
  import opened Strings
  import opened Models
  import opened JsonExtract

  /** Parsed records; a field is `None` when missing, and an array field
      is `None` when it is not an array. */
  datatype RawTopic = RawTopic(
    id: Option<string>,
    name: Option<string>,
    description: Option<string>,
    importance: Option<real>,
    relatedContent: Option<seq<string>>)

  datatype RawEntity = RawEntity(
    id: Option<string>,
    name: Option<string>,
    entityType: Option<string>,
    mentions: Option<seq<string>>,
    attributes: Option<map<string, string>>)

  datatype RawRelationship = RawRelationship(
    id: Option<string>,
    sourceId: Option<string>,
    targetId: Option<string>,
    relationshipType: Option<string>,
    strength: Option<real>)

  /** `x || 5` on a number: absent or zero gives 5. */
  function NumberOr(x: Option<real>, d: real): real {
    if x.Some? && x.value != 0.0 then x.value else d
  }

  /** The topic at position `i` with its defaults filled in. */
  function ValidateTopic(raw: RawTopic, i: nat): (t: Topic)
    ensures t.id == if raw.id.Some? && raw.id.value != "" then raw.id.value else "topic-" + NatToString(i + 1)
    ensures t.name == if raw.name.Some? && raw.name.value != "" then raw.name.value
                      else "Unnamed Topic " + NatToString(i + 1)
    ensures t.description == raw.description.GetOr("")
    ensures t.importance != 0.0
    ensures t.importance == if raw.importance.Some? && raw.importance.value != 0.0 then raw.importance.value else 5.0
    ensures t.relatedContent == raw.relatedContent.GetOr([])
  {
    Topic(OrDefault(raw.id, "topic-" + NatToString(i + 1)),
          OrDefault(raw.name, "Unnamed Topic " + NatToString(i + 1)),
          OrDefault(raw.description, ""),
          NumberOr(raw.importance, 5.0),
          if raw.relatedContent.Some? then raw.relatedContent.value else [])
  }

  /** `parseTopicsResponse`: the parsed records one to one, in order, with
      defaults; `[]` when no array can be read. */
  function ParseTopicsResponse(text: string, parse: string -> Option<seq<RawTopic>>): (topics: seq<Topic>)
    ensures ParseArray(text, parse).None? ==> topics == []
    ensures ParseArray(text, parse).Some? ==>
      |topics| == |ParseArray(text, parse).value|
      && forall i :: 0 <= i < |topics| ==> topics[i] == ValidateTopic(ParseArray(text, parse).value[i], i)
  {
    match ParseArray(text, parse)
    case None => []
    case Some(raw) => seq(|raw|, i requires 0 <= i < |raw| => ValidateTopic(raw[i], i))
  }

  /** The parsed topic has every field present and a non-zero importance. */
  predicate FullTopic(raw: RawTopic) {
    raw.id.Some? && raw.id.value != "" && raw.name.Some? && raw.name.value != ""
    && raw.description.Some? && raw.importance.Some? && raw.importance.value != 0.0
    && raw.relatedContent.Some?
  }

  function TopicOf(raw: RawTopic): Topic
    requires FullTopic(raw)
  {
    Topic(raw.id.value, raw.name.value, raw.description.value, raw.importance.value, raw.relatedContent.value)
  }

  /** An already well-formed topic array comes back unchanged. */
  lemma WellFormedTopicsUnchanged(text: string, parse: string -> Option<seq<RawTopic>>)
    requires ParseArray(text, parse).Some?
    requires forall i :: 0 <= i < |ParseArray(text, parse).value| ==> FullTopic(ParseArray(text, parse).value[i])
    ensures var raw := ParseArray(text, parse).value;
      ParseTopicsResponse(text, parse) == seq(|raw|, i requires 0 <= i < |raw| => TopicOf(raw[i]))
  {
    var raw := ParseArray(text, parse).value;
    var topics := ParseTopicsResponse(text, parse);
    forall i | 0 <= i < |raw|
      ensures topics[i] == TopicOf(raw[i])
    {
      assert FullTopic(raw[i]);
      if raw[i].description.value == "" {
        assert ValidateTopic(raw[i], i).description == "";
      }
    }
  }

  /** The entity at position `i` with its defaults filled in. */
  function ValidateEntity(raw: RawEntity, i: nat): (e: Entity)
    ensures e.id == if raw.id.Some? && raw.id.value != "" then raw.id.value else "entity-" + NatToString(i + 1)
    ensures e.name == if raw.name.Some? && raw.name.value != "" then raw.name.value
                      else "Unnamed Entity " + NatToString(i + 1)
    ensures e.entityType == if raw.entityType.Some? && raw.entityType.value != "" then raw.entityType.value
                            else "unknown"
    ensures e.mentions == raw.mentions.GetOr([])
    ensures e.attributes == raw.attributes.GetOr(map[])
  {
    Entity(OrDefault(raw.id, "entity-" + NatToString(i + 1)),
           OrDefault(raw.name, "Unnamed Entity " + NatToString(i + 1)),
           OrDefault(raw.entityType, "unknown"),
           if raw.mentions.Some? then raw.mentions.value else [],
           if raw.attributes.Some? then raw.attributes.value else map[])
  }

  /** `parseEntitiesResponse`: one to one, in order, with defaults; `[]`
      when no array can be read. */
  function ParseEntitiesResponse(text: string, parse: string -> Option<seq<RawEntity>>): (entities: seq<Entity>)
    ensures ParseArray(text, parse).None? ==> entities == []
    ensures ParseArray(text, parse).Some? ==>
      |entities| == |ParseArray(text, parse).value|
      && forall i :: 0 <= i < |entities| ==> entities[i] == ValidateEntity(ParseArray(text, parse).value[i], i)
  {
    match ParseArray(text, parse)
    case None => []
    case Some(raw) => seq(|raw|, i requires 0 <= i < |raw| => ValidateEntity(raw[i], i))
  }

  /** The relationship at position `i` (counted before filtering) with its
      defaults filled in. */
  function ValidateRelationship(raw: RawRelationship, i: nat): (r: Relationship)
    ensures r.id == if raw.id.Some? && raw.id.value != "" then raw.id.value else "rel-" + NatToString(i + 1)
    ensures r.sourceId == raw.sourceId.GetOr("") && r.targetId == raw.targetId.GetOr("")
    ensures r.relationshipType == if raw.relationshipType.Some? && raw.relationshipType.value != ""
                                  then raw.relationshipType.value else "unknown"
    ensures r.strength == if raw.strength.Some? && raw.strength.value != 0.0 then raw.strength.value else 5.0
  {
    Relationship(OrDefault(raw.id, "rel-" + NatToString(i + 1)),
                 OrDefault(raw.sourceId, ""),
                 OrDefault(raw.targetId, ""),
                 OrDefault(raw.relationshipType, "unknown"),
                 NumberOr(raw.strength, 5.0))
  }

  /** Both endpoint ids are non-empty (`rel.sourceId && rel.targetId`). */
  predicate HasEndpoints(r: Relationship) {
    r.sourceId != "" && r.targetId != ""
  }

  /** `filter(rel => rel.sourceId && rel.targetId)`. */
  function KeepLinked(rels: seq<Relationship>): (kept: seq<Relationship>)
    ensures |kept| <= |rels|
    ensures forall k :: 0 <= k < |kept| ==> HasEndpoints(kept[k])
    ensures forall x :: x in kept ==> x in rels
    ensures forall k :: 0 <= k < |rels| && HasEndpoints(rels[k]) ==> rels[k] in kept
  {
    if rels == [] then []
    else
      var rest := KeepLinked(rels[1..]);
      assert forall k :: 1 <= k < |rels| ==> rels[k] == rels[1..][k - 1];
      if HasEndpoints(rels[0]) then [rels[0]] + rest else rest
  }

  /** The validated relationships at each position, before filtering. */
  function ValidatedRelationships(raw: seq<RawRelationship>): (rels: seq<Relationship>)
    ensures |rels| == |raw|
    ensures forall i :: 0 <= i < |raw| ==> rels[i] == ValidateRelationship(raw[i], i)
  {
    seq(|raw|, i requires 0 <= i < |raw| => ValidateRelationship(raw[i], i))
  }

  /** `parseRelationshipsResponse`: validate every parsed record at its
      original position, then keep exactly those with both endpoints;
      `[]` when no array can be read. The endpoints are not checked
      against the topics or the entities. */
  function ParseRelationshipsResponse(text: string, parse: string -> Option<seq<RawRelationship>>)
    : (rels: seq<Relationship>)
    ensures ParseArray(text, parse).None? ==> rels == []
    ensures forall k :: 0 <= k < |rels| ==> HasEndpoints(rels[k])
    ensures ParseArray(text, parse).Some? ==>
      var all := ValidatedRelationships(ParseArray(text, parse).value);
      |rels| <= |all|
      && (forall x :: x in rels ==> x in all)
      && (forall i :: 0 <= i < |all| && HasEndpoints(all[i]) ==> all[i] in rels)
    ensures ParseArray(text, parse).Some? ==>
      var all := ValidatedRelationships(ParseArray(text, parse).value);
      var ps := LinkedPositions(all);
      |rels| == |ps| && forall k :: 0 <= k < |rels| ==> rels[k] == all[ps[k]]
  {
    match ParseArray(text, parse)
    case None => []
    case Some(raw) =>
      KeepLinkedAt(ValidatedRelationships(raw));
      KeepLinked(ValidatedRelationships(raw))
  }

  /** Number of relationships with both endpoints. */
  function CountLinked(rels: seq<Relationship>): nat {
    if rels == [] then 0 else (if HasEndpoints(rels[0]) then 1 else 0) + CountLinked(rels[1..])
  }

  /** The filter's result is exactly as long as the number of linked
      inputs. */
  lemma {:induction false} KeepLinkedCount(rels: seq<Relationship>)
    ensures |KeepLinked(rels)| == CountLinked(rels)
  {
    if rels != [] {
      KeepLinkedCount(rels[1..]);
    }
  }

  /** The position of the first relationship with both endpoints, or
      `|rels|` when there is none. */
  function FirstLinked(rels: seq<Relationship>): (k: nat)
    ensures k <= |rels|
    ensures k < |rels| ==> HasEndpoints(rels[k])
    ensures forall j :: 0 <= j < k ==> !HasEndpoints(rels[j])
  {
    if rels == [] || HasEndpoints(rels[0]) then 0
    else
      var k := FirstLinked(rels[1..]);
      assert forall j :: 1 <= j < k + 1 ==> rels[j] == rels[1..][j - 1];
      k + 1
  }

  /** The filter's result is empty exactly when no input is linked, and
      otherwise starts with the first linked input. */
  lemma {:induction false} KeepLinkedHead(rels: seq<Relationship>)
    ensures KeepLinked(rels) != [] <==> FirstLinked(rels) < |rels|
    ensures KeepLinked(rels) != [] ==> KeepLinked(rels)[0] == rels[FirstLinked(rels)]
  {
    if rels != [] && !HasEndpoints(rels[0]) {
      KeepLinkedHead(rels[1..]);
    }
  }

  /** Every position moved one place on. */
  function Shift(ps: seq<nat>): (r: seq<nat>)
    ensures |r| == |ps|
    ensures forall k :: 0 <= k < |ps| ==> r[k] == ps[k] + 1
  {
    seq(|ps|, k requires 0 <= k < |ps| => ps[k] + 1)
  }

  /** The positions of the relationships with both endpoints, in
      increasing order: an independent account of what the filter keeps. */
  function LinkedPositions(rels: seq<Relationship>): (ps: seq<nat>)
    ensures forall k :: 0 <= k < |ps| ==> ps[k] < |rels| && HasEndpoints(rels[ps[k]])
    ensures forall k, l :: 0 <= k < l < |ps| ==> ps[k] < ps[l]
  {
    if rels == [] then []
    else
      var rest := LinkedPositions(rels[1..]);
      assert forall k :: 0 <= k < |rest| ==> rels[rest[k] + 1] == rels[1..][rest[k]];
      if HasEndpoints(rels[0]) then [0] + Shift(rest) else Shift(rest)
  }

  /** Every linked position is listed. */
  lemma {:induction false} LinkedPositionsComplete(rels: seq<Relationship>, i: nat)
    requires i < |rels| && HasEndpoints(rels[i])
    ensures i in LinkedPositions(rels)
  {
    if i > 0 {
      assert rels[1..][i - 1] == rels[i];
      LinkedPositionsComplete(rels[1..], i - 1);
      var rest := LinkedPositions(rels[1..]);
      var k :| 0 <= k < |rest| && rest[k] == i - 1;
      assert Shift(rest)[k] == i;
    }
  }

  /** The filter keeps order and multiplicity: its `k`-th result is the
      input at the `k`-th linked position. */
  lemma {:induction false} KeepLinkedAt(rels: seq<Relationship>)
    ensures |KeepLinked(rels)| == |LinkedPositions(rels)|
    ensures forall k :: 0 <= k < |KeepLinked(rels)| ==> KeepLinked(rels)[k] == rels[LinkedPositions(rels)[k]]
  {
    if rels != [] {
      var tail := rels[1..];
      KeepLinkedAt(tail);
      var kept, rest := KeepLinked(tail), LinkedPositions(tail);
      forall k | 0 <= k < |kept| ensures kept[k] == rels[Shift(rest)[k]] {
        assert tail[rest[k]] == rels[rest[k] + 1];
      }
      if HasEndpoints(rels[0]) {
        PrependAt(rels, kept, Shift(rest));
      }
    }
  }

  /** Keeping the first relationship puts it, at position 0, before the rest. */
  lemma PrependAt(rels: seq<Relationship>, kept: seq<Relationship>, ps: seq<nat>)
    requires rels != [] && |kept| == |ps|
    requires forall k :: 0 <= k < |kept| ==> ps[k] < |rels| && kept[k] == rels[ps[k]]
    ensures forall k :: 0 <= k < |kept| + 1 ==> ([rels[0]] + kept)[k] == rels[([0] + ps)[k]]
  {
    forall k | 0 <= k < |kept| + 1 ensures ([rels[0]] + kept)[k] == rels[([0] + ps)[k]] {
      if k > 0 { assert ([rels[0]] + kept)[k] == kept[k - 1]; }
    }
  }

  /** Filtering distributes over concatenation; with the one-element case
      below it fixes the filter's result outright. */
  lemma {:induction false} KeepLinkedAppend(xs: seq<Relationship>, ys: seq<Relationship>)
    ensures KeepLinked(xs + ys) == KeepLinked(xs) + KeepLinked(ys)
  {
    if xs != [] {
      assert (xs + ys)[1..] == xs[1..] + ys;
      KeepLinkedAppend(xs[1..], ys);
    } else {
      assert xs + ys == ys;
    }
  }

  /** A single relationship is kept exactly when it has both endpoints. */
  lemma KeepLinkedOne(r: Relationship)
    ensures KeepLinked([r]) == if HasEndpoints(r) then [r] else []
  {
  }

  /** The replies of the three model calls, each after its retries. */
  datatype Replies = Replies(
    topics: Result<string, string>,
    entities: Result<string, string>,
    relationships: Result<string, string>)

  /** `analyzeContent`: topics, then entities, then relationships, each
      from its reply; a failed call fails the analysis with its message
      wrapped by the step and then by the analysis. The graph id is an
      input. */
  function AnalyzeContent(content: ContentPackage, replies: Replies, id: string,
                          parseTopics: string -> Option<seq<RawTopic>>,
                          parseEntities: string -> Option<seq<RawEntity>>,
                          parseRelationships: string -> Option<seq<RawRelationship>>)
    : (r: Result<KnowledgeGraph, string>)
    ensures r.Success? <==>
      replies.topics.Success? && replies.entities.Success? && replies.relationships.Success?
    ensures replies.topics.Failure? ==>
      r == Failure("Failed to analyze content: Failed to extract topics: " + replies.topics.error)
    ensures replies.topics.Success? && replies.entities.Failure? ==>
      r == Failure("Failed to analyze content: Failed to identify entities: " + replies.entities.error)
    ensures replies.topics.Success? && replies.entities.Success? && replies.relationships.Failure? ==>
      r == Failure("Failed to analyze content: Failed to identify relationships: " + replies.relationships.error)
    ensures r.Success? ==>
      r.value.id == id
      && r.value.topics == ParseTopicsResponse(replies.topics.value, parseTopics)
      && r.value.entities == ParseEntitiesResponse(replies.entities.value, parseEntities)
      && r.value.relationships == ParseRelationshipsResponse(replies.relationships.value, parseRelationships)
      && r.value.sources == content.citations.GetOr([])
  {
    if replies.topics.Failure? then
      Failure("Failed to analyze content: Failed to extract topics: " + replies.topics.error)
    else if replies.entities.Failure? then
      Failure("Failed to analyze content: Failed to identify entities: " + replies.entities.error)
    else if replies.relationships.Failure? then
      Failure("Failed to analyze content: Failed to identify relationships: " + replies.relationships.error)
    else
      Success(KnowledgeGraph(
        id,
        ParseTopicsResponse(replies.topics.value, parseTopics),
        ParseRelationshipsResponse(replies.relationships.value, parseRelationships),
        ParseEntitiesResponse(replies.entities.value, parseEntities),
        if content.citations.Some? then content.citations.value else []))
  }
}

/** The record shapes shared by the services: knowledge graph, dialogue
    script, voice synthesis, delivery and content packages. They hold data
    only; the services that build them live in their own modules. */
module Models {
  import opened Wrappers

  /** One byte of an audio buffer. */
  newtype byte = x: int | 0 <= x < 256

  /** A JSON-like value for the free-form `metadata` records. */
  datatype Value =
    | VStr(s: string)
    | VNum(n: real)
    | VBool(b: bool)
    | VNull
    | VList(items: seq<string>)

  /** JavaScript's `x || d` on an optional string: the default replaces an
      absent or empty value. */
  function OrDefault(x: Option<string>, d: string): string {
    if x.Some? && x.value != "" then x.value else d
  }

  /** `Record<string, any>`. */
  type Metadata = map<string, Value>

  datatype Topic = Topic(
    id: string,
    name: string,
    description: string,
    importance: real,
    relatedContent: seq<string>)

  datatype Relationship = Relationship(
    id: string,
    sourceId: string,
    targetId: string,
    relationshipType: string,
    strength: real)

  datatype Entity = Entity(
    id: string,
    name: string,
    entityType: string,
    mentions: seq<string>,
    attributes: map<string, string>)

  datatype KnowledgeGraph = KnowledgeGraph(
    id: string,
    topics: seq<Topic>,
    relationships: seq<Relationship>,
    entities: seq<Entity>,
    sources: seq<string>)

  datatype Speaker = Speaker(
    id: string,
    name: string,
    personality: string,
    expertise: seq<string>,
    perspective: string)

  datatype DialogueTurn = DialogueTurn(
    speakerId: string,
    speakerName: string,
    text: string,
    emotion: Option<string>,
    references: Option<seq<string>>)

  datatype PodcastScript = PodcastScript(
    id: string,
    title: string,
    description: string,
    speakers: seq<Speaker>,
    introduction: string,
    dialogue: seq<DialogueTurn>,
    conclusion: string,
    sourceKnowledgeGraphId: string,
    metadata: Metadata)

  datatype VoiceOptions = VoiceOptions(
    stability: real,
    similarityBoost: real,
    style: real,
    speakerBoost: real)

  datatype Voice = Voice(
    id: string,
    name: string,
    category: string,
    description: Option<string>,
    previewUrl: Option<string>,
    defaultVoiceOptions: Option<VoiceOptions>)

  datatype SpeakerVoiceMapping = SpeakerVoiceMapping(
    speakerId: string,
    voiceId: string,
    voiceOptions: Option<VoiceOptions>)

  datatype AudioSegment = AudioSegment(
    id: string,
    speakerId: string,
    voiceId: string,
    text: string,
    audioData: seq<byte>,
    duration: real,
    startTime: real,
    endTime: real)

  datatype AudioFormat = Mp3 | Wav | Ogg

  datatype PodcastAudio = PodcastAudio(
    id: string,
    scriptId: string,
    segments: seq<AudioSegment>,
    fullAudio: Option<seq<byte>>,
    totalDuration: real,
    format: AudioFormat,
    metadata: Metadata)

  datatype DeliveryFormat = DeliveryFormat(
    id: string,
    name: string,
    extension: string,
    mimeType: string,
    description: string)

  datatype DeliveryOptions = DeliveryOptions(
    format: DeliveryFormat,
    includeTranscript: bool,
    includeSpeakerLabels: bool,
    includeChapters: bool,
    includeMetadata: bool)

  datatype PodcastPackage = PodcastPackage(
    id: string,
    title: string,
    description: string,
    audioUrl: string,
    transcriptUrl: Option<string>,
    imageUrl: Option<string>,
    duration: real,
    format: string,
    size: nat,
    createdAt: string,
    metadata: Metadata)

  datatype SourceType = Web | Pdf | Video | Text

  datatype ContentPackage = ContentPackage(
    id: string,
    content: seq<string>,
    metadata: Metadata,
    citations: Option<seq<string>>,
    sourceType: SourceType,
    sourceUrl: Option<string>)
}

/** The mock delivery service: fixed URLs under `/mock/`, a fixed 5 MB
    size, and the same transcript as the local service. `now` stands for
    `Date.now()`, `createdAt` and `packagedAt` for the two clock readings. */
module MockDelivery {
  import opened Wrappers
  import opened Strings
  import opened Models
  import LocalDelivery

  /** `getAvailableFormats`: MP3 and WAV. */
  function MockFormats(): (r: seq<DeliveryFormat>)
    ensures r == LocalDelivery.AvailableFormats()[..2]
  {
    [LocalDelivery.Mp3, LocalDelivery.Wav]
  }

  /** The size every mock package claims: 5 MB. */
  const MockSize: nat := 1024 * 1024 * 5

  const IdPrefix := "mock-package-"
  const AudioDir := "/mock/podcasts/"
  const TranscriptDir := "/mock/transcripts/"

  /** `mock-package-${Date.now()}`. */
  function MockPackageId(now: nat): (id: string)
    ensures |id| > |IdPrefix| && id[..|IdPrefix|] == IdPrefix
    ensures AllDigits(id[|IdPrefix|..]) && ParseNat(id[|IdPrefix|..]) == now
  {
    var digits := NatToString(now);
    ParseNatToString(now);
    assert (IdPrefix + digits)[|IdPrefix|..] == digits;
    IdPrefix + digits
  }

  /** `/mock/podcasts/${audio.id}.${extension}`. */
  function MockAudioUrl(audioId: string, extension: string): (url: string)
    ensures |url| == |AudioDir| + |audioId| + 1 + |extension|
    ensures url[..|AudioDir|] == AudioDir
    ensures url[|AudioDir|..|AudioDir| + |audioId|] == audioId
    ensures url[|AudioDir| + |audioId|..] == "." + extension
  {
    var url := AudioDir + audioId + "." + extension;
    assert url[|AudioDir|..|AudioDir| + |audioId|] == audioId;
    url
  }

  /** `/mock/transcripts/${audio.id}.txt`. */
  function MockTranscriptUrl(audioId: string): (url: string)
    ensures |url| == |TranscriptDir| + |audioId| + 4
    ensures url[..|TranscriptDir|] == TranscriptDir
    ensures url[|TranscriptDir|..|TranscriptDir| + |audioId|] == audioId
    ensures url[|TranscriptDir| + |audioId|..] == ".txt"
  {
    var url := TranscriptDir + audioId + ".txt";
    assert url[|TranscriptDir|..|TranscriptDir| + |audioId|] == audioId;
    url
  }

  /** `packagePodcast`: the audio's own metadata with the packaging record
      over it, whatever `includeMetadata` says. */
  function MockPackage(audio: PodcastAudio, options: DeliveryOptions, now: nat,
                       createdAt: string, packagedAt: string): (p: PodcastPackage)
    ensures p.id == MockPackageId(now)
    ensures p.title == OrDefault(LocalDelivery.TitleOf(audio.metadata), "Mock Podcast")
    ensures p.description == OrDefault(LocalDelivery.DescriptionOf(audio.metadata), "A mock podcast for testing")
    ensures p.audioUrl == MockAudioUrl(audio.id, options.format.extension)
    ensures p.transcriptUrl.Some? <==> options.includeTranscript
    ensures options.includeTranscript ==> p.transcriptUrl == Some(MockTranscriptUrl(audio.id))
    ensures p.imageUrl.None? && p.duration == audio.totalDuration && p.format == options.format.id
    ensures p.size == 5242880 && p.createdAt == createdAt
    ensures p.metadata == audio.metadata + LocalDelivery.PackagingRecord(options, packagedAt)
  {
    PodcastPackage(
      MockPackageId(now),
      OrDefault(LocalDelivery.TitleOf(audio.metadata), "Mock Podcast"),
      OrDefault(LocalDelivery.DescriptionOf(audio.metadata), "A mock podcast for testing"),
      MockAudioUrl(audio.id, options.format.extension),
      if options.includeTranscript then Some(MockTranscriptUrl(audio.id)) else None,
      None,
      audio.totalDuration,
      options.format.id,
      MockSize,
      createdAt,
      audio.metadata + LocalDelivery.PackagingRecord(options, packagedAt))
  }

  /** The mock package always carries the five packaging keys holding the
      options, and keeps every other key of the audio's metadata. */
  lemma MockMetadataKeys(audio: PodcastAudio, options: DeliveryOptions, now: nat,
                         createdAt: string, packagedAt: string)
    ensures var m := MockPackage(audio, options, now, createdAt, packagedAt).metadata;
      LocalDelivery.PackagingKeys <= m.Keys
      && m["format"] == VStr(options.format.id)
      && m["includedTranscript"] == VBool(options.includeTranscript)
      && m["includedSpeakerLabels"] == VBool(options.includeSpeakerLabels)
      && m["includedChapters"] == VBool(options.includeChapters)
      && m["packagedAt"] == VStr(packagedAt)
    ensures var m := MockPackage(audio, options, now, createdAt, packagedAt).metadata;
      forall k :: k !in LocalDelivery.PackagingKeys ==>
        (k in m <==> k in audio.metadata) && (k in m ==> m[k] == audio.metadata[k])
  {
  }

  /** With metadata asked for, the mock package's metadata is the local
      service's; the mock ignores `includeMetadata`. */
  lemma MockMetadataAsLocal(audio: PodcastAudio, options: DeliveryOptions, now: nat,
                            createdAt: string, packagedAt: string)
    requires options.includeMetadata
    ensures MockPackage(audio, options, now, createdAt, packagedAt).metadata
         == LocalDelivery.PackageMetadata(audio.metadata, options, packagedAt)
  {
  }

  /** `savePodcast`: nothing is written; the audio URL comes back. */
  function MockSave(pkg: PodcastPackage): (path: string)
    ensures path == pkg.audioUrl
  {
    pkg.audioUrl
  }

  /** Saving a mock package gives back the URL of the audio's own file:
      the audio id and the chosen extension under `/mock/podcasts/`; its
      transcript, when there is one, has the same id under
      `/mock/transcripts/`. */
  lemma SaveNamesAudio(audio: PodcastAudio, options: DeliveryOptions, now: nat,
                       createdAt: string, packagedAt: string)
    ensures var pkg := MockPackage(audio, options, now, createdAt, packagedAt);
      var path := MockSave(pkg);
      path[..|AudioDir|] == AudioDir
      && path[|AudioDir|..|AudioDir| + |audio.id|] == audio.id
      && path[|AudioDir| + |audio.id|..] == "." + options.format.extension
    ensures var pkg := MockPackage(audio, options, now, createdAt, packagedAt);
      pkg.transcriptUrl.Some? ==>
        pkg.transcriptUrl.value[|TranscriptDir|..|TranscriptDir| + |audio.id|] == audio.id
  {
  }

  /** `generateShareableLink`: the package id under the example share
      address. */
  function MockShareableLink(pkg: PodcastPackage): (link: string)
    ensures |link| == 26 + |pkg.id| && link[..26] == "https://example.com/share/" && link[26..] == pkg.id
  {
    "https://example.com/share/" + pkg.id
  }

  /** `generateTranscript`: the same text as the local service builds. */
  method GenerateTranscript(audio: PodcastAudio) returns (transcript: string)
    ensures transcript == LocalDelivery.Transcript(audio)
  {
    transcript := LocalDelivery.GenerateTranscript(audio);
  }
}

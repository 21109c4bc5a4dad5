# podcastgen core, modelled in Dafny

podcastgen turns a document, a web page, a PDF or a YouTube video into a
podcast. A content adapter normalises the source into a `ContentPackage`.
A language model extracts a knowledge graph from it (topics, entities,
relationships). A second model writes a dialogue script between invented
speakers. A voice service turns each turn into audio and lays the
segments end to end on one timeline. A delivery service then packages the
audio, writes a transcript and hands back links. The web front end keeps
the generation's progress in a small Redux store.

This project models that core. The model does not call the external
services; their replies are inputs:

- **Knowledge-graph and script stages.** The model repairs whatever a
  service replied: it extracts the JSON array from the reply text, fills
  in missing fields with the source's defaults, drops relationships without
  both endpoints, pads the speaker list and falls back to a canned
  dialogue. The proofs cover the whole extraction regex, the bounded
  retry loop and the exact error message of every failing step.
- **Audio stage** (the ElevenLabs service and its mock). The proofs show
  that the segments form a contiguous timeline whose total duration is the
  sum of the segments' durations. They also show that the combined buffer
  holds every segment's bytes at its prefix offset, and that voices are
  assigned round-robin.
- **Content adapters** (text, PDF, video). The model covers whitespace
  cleaning, blank-line paragraph splitting, sentence splitting and
  grouping into blocks of about 500 characters (longer only when the
  sentence that starts a block makes it so), caption extraction and
  entity decoding, caption-to-sentence merging, the `h:mm:ss` duration
  format (with a read-back proof) and language detection by stop-word
  scores.
- **Delivery** (the local and the mock service). The model covers file
  name sanitising (its fixed points and idempotence), the transcript
  format and its `mm:ss` timestamps, the package record and its metadata
  keys, and the shareable links.
- **Store.** The five reducers are methods of a class over the state's
  fields. Each is proved to follow a pure `Reduce` function, and any
  sequence of actions keeps the state consistent.

Modules follow the source files:

| module | source file |
|---|---|
| `Wrappers` | the Option and Result types |
| `Strings` | the JavaScript string operations the core uses |
| `Models` | the records of `libs/src/lib/models/` |
| `JsonExtract` | the JSON-array regex |
| `Retry` | the `executeWithRetry` loop |
| `ContentUnderstanding` | `gemini-content-understanding.service.ts` |
| `DialogueGeneration` | `claude-dialogue-generation.service.ts` |
| `Timeline` | the timeline and byte-layout facts both voice services share |
| `VoiceSynthesis` | `elevenlabs-voice-synthesis.service.ts` |
| `MockVoiceSynthesis` | `mock-voice-synthesis.service.ts` |
| `VoiceAssignment` | `voice-synthesis-manager.ts` |
| `ParagraphSplit` | the blank-line paragraph split that three adapters share |
| `TextAdapter` | `text-adapter.ts` |
| `PdfAdapter` | `pdf-adapter.ts` |
| `VideoAdapter` | `video-adapter.ts` |
| `ContentIngestion` | `content-ingestion.service.ts` |
| `LocalDelivery` | `local-delivery.service.ts` |
| `MockDelivery` | `mock-delivery.service.ts` |
| `Store` | `src/app/store.ts` |

## Model

| member | source | states |
|---|---|---|
| Strings.TrimStart | libs/src/lib/adapters/text-adapter.ts:37 | the result is a suffix of the input and everything dropped before it is whitespace; it starts with a non-space |
| Strings.Trim | libs/src/lib/adapters/text-adapter.ts:37 | the result has no leading or trailing whitespace, is no longer than the input, and is empty exactly when the input is all whitespace |
| Strings.TrimSlice | libs/src/lib/adapters/text-adapter.ts:37 | the trimmed string is a contiguous slice of the input with only whitespace cut on either side |
| Strings.TrimOfTrimmed | libs/src/lib/adapters/text-adapter.ts:82 | trimming an already trimmed string changes nothing |
| Strings.Collapse | libs/src/lib/adapters/text-adapter.ts:37 | `/\s+/g → ' '` leaves no whitespace but single spaces, maps a leading whitespace run to one space and keeps a non-space first character, keeps the non-space characters in order, and the result is all whitespace exactly when the input is |
| Strings.NonSpace | libs/src/lib/adapters/text-adapter.ts:37 | the non-space characters of a text, in order: none exactly when the text is all whitespace |
| Strings.NonSpaceConcat | libs/src/lib/adapters/text-adapter.ts:37 | the non-space text of a concatenation is the concatenation of the parts' non-space texts |
| Strings.NonSpaceOfWord | libs/src/lib/adapters/text-adapter.ts:92 | text without whitespace is its own non-space text |
| Strings.NonSpaceOfConcat | libs/src/lib/adapters/text-adapter.ts:40-43 | the non-space text of a list of pieces distributes over concatenation of lists |
| Strings.NonSpaceOfNonEmpty | libs/src/lib/adapters/text-adapter.ts:43 | dropping empty strings (`filter(p => p.length > 0)`) loses no text |
| Strings.NonSpaceReplaceSpace | libs/src/lib/adapters/text-adapter.ts:42 | replacing one whitespace character by another (`\n` by a space) keeps the non-space text |
| Strings.TrimStartAfterRun | libs/src/lib/adapters/text-adapter.ts:37 | `trimStart` of a whitespace run followed by non-whitespace text gives that text |
| Strings.LeadingSpacesAfterRun | libs/src/lib/adapters/text-adapter.ts:37 | a whitespace run followed by non-whitespace text is exactly the leading whitespace |
| Strings.CollapseWord | libs/src/lib/adapters/text-adapter.ts:37 | a stretch without whitespace passes through `/\s+/g → ' '` unchanged |
| Strings.CollapseRun | libs/src/lib/adapters/text-adapter.ts:37 | a whole whitespace run before non-whitespace text (or the end) becomes one space; with `CollapseWord` this fixes the collapse on every input |
| Strings.CollapseWordRun | libs/src/lib/adapters/text-adapter.ts:37 | a word, a whitespace run and the rest collapse to the word, one space and the collapsed rest |
| Strings.NonSpaceSplice | libs/src/lib/adapters/text-adapter.ts:41 | cutting a whitespace run out of a text keeps its non-space text |
| Strings.TrimKeepsNonSpace | libs/src/lib/adapters/text-adapter.ts:37 | `trim` cuts only whitespace, so the non-space text is unchanged |
| Strings.CollapseKeepsText | libs/src/lib/adapters/text-adapter.ts:37 | every non-space character of the input survives the collapse |
| Strings.CleanText | libs/src/lib/adapters/text-adapter.ts:37 | the cleaned text is single-spaced and trimmed, holds the input's non-space characters in order, and is empty exactly when the input is all whitespace |
| Strings.JoinConcat | libs/src/lib/adapters/video-adapter.ts:84 | joining two non-empty lists is joining each, glued with one separator |
| Strings.NonEmpty | libs/src/lib/adapters/text-adapter.ts:52 | `filter(s => s.length > 0)` keeps no empty string, invents none and never grows the list |
| Strings.NonEmptyKeeps | libs/src/lib/adapters/text-adapter.ts:52 | every non-empty element of the input survives the filter |
| Strings.Lower | libs/src/lib/services/content-ingestion.service.ts:70 | same length; each character is lowercased in place (ASCII letters) |
| Strings.ReplaceChar | libs/src/lib/adapters/text-adapter.ts:42 | same length; exactly the occurrences of the character are replaced |
| Strings.ReplaceAll | libs/src/lib/adapters/video-adapter.ts:104-108 | a replacement no longer than the pattern never lengthens the string |
| Strings.ReplaceAllAbsent | libs/src/lib/adapters/video-adapter.ts:104-108 | a string without the pattern is left unchanged |
| Strings.SplitOn | libs/src/lib/adapters/text-adapter.ts:81 | `split('\n')` yields at least one piece, no piece holds the separator, and joining the pieces with it gives back the input |
| Strings.SplitOnCount | libs/src/lib/adapters/text-adapter.ts:93 | the number of pieces is one more than the number of separators (the line count) |
| Strings.NatToString | libs/src/lib/services/local-delivery.service.ts:226 | the decimal form is all digits and has one digit exactly below ten |
| Strings.ParseNatToString | libs/src/lib/services/local-delivery.service.ts:226 | reading the decimal form back gives the number |
| Strings.IntToString | libs/src/lib/services/local-delivery.service.ts:226 | a non-empty decimal form that agrees with the natural-number one on non-negatives |
| Strings.PadStart2 | libs/src/lib/services/local-delivery.service.ts:226 | `padStart(2, '0')` yields at least two characters, ends with the input and pads only with zeros |
| Strings.PadStart2Nat | libs/src/lib/services/local-delivery.service.ts:226 | a padded number is still all digits and reads back as the same number |
| JsonExtract.MatchSpan | libs/src/lib/services/claude-dialogue-generation.service.ts:419 | the greedy, dot-all `\[\s*\{.*\}\s*\]` match exists exactly when some span matches; it starts at the leftmost possible opening and ends at the last possible closing from there |
| JsonExtract.Extract | libs/src/lib/services/claude-dialogue-generation.service.ts:419-423 | there is no extracted text exactly when nothing matches; the extracted text starts with `[` and ends with `]` |
| JsonExtract.ParseArray | libs/src/lib/services/claude-dialogue-generation.service.ts:419-425 | no match is a parse failure; otherwise the result is what `JSON.parse` makes of the matched text |
| Retry.ExecuteWithRetry | libs/src/lib/services/claude-dialogue-generation.service.ts:530-553 | the call runs between 1 and maxRetries + 1 times; the result is the last attempt's; every earlier attempt failed; a failure is returned only after all maxRetries + 1 attempts |
| Retry.RetrySucceedsIff | libs/src/lib/services/claude-dialogue-generation.service.ts:530-553 | the retry loop succeeds exactly when one of the first maxRetries + 1 attempts would succeed, and fails only when all of them fail |
| ContentUnderstanding.ValidateTopic | libs/src/lib/services/gemini-content-understanding.service.ts:301-307 | each missing or empty field takes the source's default (`topic-N`, `Unnamed Topic N`, empty description, importance 5, no related content), so the importance is never 0 |
| ContentUnderstanding.ParseTopicsResponse | libs/src/lib/services/gemini-content-understanding.service.ts:289-312 | an unparseable reply gives no topics; otherwise one topic per parsed element, each repaired with its 1-based position |
| ContentUnderstanding.WellFormedTopicsUnchanged | libs/src/lib/services/gemini-content-understanding.service.ts:301-307 | a reply whose topics carry every field is passed through unchanged |
| ContentUnderstanding.ValidateEntity | libs/src/lib/services/gemini-content-understanding.service.ts:331-337 | missing fields take the defaults `entity-N`, `Unnamed Entity N`, type `unknown`, no mentions, no attributes |
| ContentUnderstanding.ParseEntitiesResponse | libs/src/lib/services/gemini-content-understanding.service.ts:319-342 | an unparseable reply gives no entities; otherwise one repaired entity per parsed element, in order |
| ContentUnderstanding.ValidateRelationship | libs/src/lib/services/gemini-content-understanding.service.ts:361-366 | missing fields take the defaults `rel-N`, empty endpoints, type `unknown`, strength 5 |
| ContentUnderstanding.KeepLinked | libs/src/lib/services/gemini-content-understanding.service.ts:367 | the filter keeps exactly the relationships with both endpoints: all kept ones have them, none is invented, and every one that has them is kept; its order and multiplicity are `KeepLinkedAt` |
| ContentUnderstanding.LinkedPositions | libs/src/lib/services/gemini-content-understanding.service.ts:367 | the positions of the relationships with both endpoints, strictly increasing, each naming a linked relationship |
| ContentUnderstanding.LinkedPositionsComplete | libs/src/lib/services/gemini-content-understanding.service.ts:367 | every position holding a linked relationship is listed |
| ContentUnderstanding.KeepLinkedAt | libs/src/lib/services/gemini-content-understanding.service.ts:367 | the filter keeps order and duplicates: its k-th result is the input at the k-th linked position, and it has one result per linked position |
| ContentUnderstanding.KeepLinkedAppend | libs/src/lib/services/gemini-content-understanding.service.ts:367 | filtering a concatenation is the concatenation of the filtered parts |
| ContentUnderstanding.KeepLinkedOne | libs/src/lib/services/gemini-content-understanding.service.ts:367 | one relationship is kept exactly when both its endpoints are non-empty |
| ContentUnderstanding.KeepLinkedCount | libs/src/lib/services/gemini-content-understanding.service.ts:367 | the number kept equals the number of relationships that have both endpoints |
| ContentUnderstanding.FirstLinked | libs/src/lib/services/gemini-content-understanding.service.ts:367 | the position of the first relationship with both endpoints, none before it having them |
| ContentUnderstanding.KeepLinkedHead | libs/src/lib/services/gemini-content-understanding.service.ts:367 | the kept list is non-empty exactly when some relationship is linked, and its head is the first linked one |
| ContentUnderstanding.ValidatedRelationships | libs/src/lib/services/gemini-content-understanding.service.ts:361-366 | one repaired relationship per parsed element, at the same position |
| ContentUnderstanding.ParseRelationshipsResponse | libs/src/lib/services/gemini-content-understanding.service.ts:349-372 | an unparseable reply gives none; otherwise the result is the validated relationships at the linked positions of the reply, in the reply's order, one per linked position; each has both endpoints |
| ContentUnderstanding.AnalyzeContent | libs/src/lib/services/gemini-content-understanding.service.ts:28-50 | the graph is built exactly when all three calls succeed; the first failing step decides the nested error message; on success the graph holds the three parsed lists and the content's citations as sources |
| DialogueGeneration.ValidateSpeaker | libs/src/lib/services/claude-dialogue-generation.service.ts:428-434 | each absent or empty field falls back to its default: the generic `speaker-N` / `Speaker N` id and name, the stock personality and perspective; a missing expertise list becomes `General knowledge`; present fields are kept; no text field of the result is empty |
| DialogueGeneration.FullSpeakerUnchanged | libs/src/lib/services/claude-dialogue-generation.service.ts:428-434 | a speaker with every field present is passed through unchanged |
| DialogueGeneration.ParseSpeakersResponse | libs/src/lib/services/claude-dialogue-generation.service.ts:416-461 | always exactly `expectedCount` speakers; an unparseable reply gives the generic ones; otherwise the parsed ones come first, repaired, then generic speakers pad the list, and any extra parsed ones are cut |
| DialogueGeneration.SpeakerNames | libs/src/lib/services/claude-dialogue-generation.service.ts:482 | every speaker's id is a key of the name map |
| DialogueGeneration.SpeakerNamesKnown | libs/src/lib/services/claude-dialogue-generation.service.ts:482 | every key of the name map is the id of some speaker |
| DialogueGeneration.SpeakerNamesLast | libs/src/lib/services/claude-dialogue-generation.service.ts:482 | when several speakers share an id, the map holds the name of the last of them |
| DialogueGeneration.ParseDialogueResponse | libs/src/lib/services/claude-dialogue-generation.service.ts:470-522 | an unparseable reply gives the canned two-lines-per-speaker fallback; with no speakers the result is empty; otherwise each parsed turn is repaired in place (an unknown speaker replaced round-robin by position, the name taken from the map, empty text defaulted); every resulting turn is spoken by one of the speakers |
| DialogueGeneration.FallbackSpeakersKnown | libs/src/lib/services/claude-dialogue-generation.service.ts:510-521 | every turn of the fallback dialogue carries the id of one of the speakers |
| DialogueGeneration.RepairedSpeakersKnown | libs/src/lib/services/claude-dialogue-generation.service.ts:482-496 | a repaired turn carries a key of the id-to-name map, hence the id of one of the speakers |
| DialogueGeneration.RepairAll | libs/src/lib/services/claude-dialogue-generation.service.ts:485-505 | the loop yields one repaired turn per parsed turn, in order |
| DialogueGeneration.RepairTurn | libs/src/lib/services/claude-dialogue-generation.service.ts:486-504 | a single turn is repaired as the map callback does |
| DialogueGeneration.DialogueFallback | libs/src/lib/services/claude-dialogue-generation.service.ts:510-521 | the fallback has two turns per speaker |
| DialogueGeneration.DialogueFallbackAt | libs/src/lib/services/claude-dialogue-generation.service.ts:510-521 | turns 2k and 2k + 1 are speaker k's expertise line and perspective line |
| DialogueGeneration.SortByImportance | libs/src/lib/services/claude-dialogue-generation.service.ts:209-210 | the sorted topics are a permutation of the input in non-increasing importance |
| DialogueGeneration.SortStable | libs/src/lib/services/claude-dialogue-generation.service.ts:209-210 | the sort is stable: for every importance value, the topics of that importance keep their input order (with the permutation and ordering of `SortByImportance` this fixes the result) |
| DialogueGeneration.InsertStable | libs/src/lib/services/claude-dialogue-generation.service.ts:209-210 | inserting a topic puts it before every sorted topic of its own importance and leaves the others in order |
| DialogueGeneration.SortedRest | libs/src/lib/services/claude-dialogue-generation.service.ts:209-211 | in a sorted list each of the first `n` entries, and the entry at `n`, is at least as important as anything after the first `n` |
| DialogueGeneration.SortedPrefix | libs/src/lib/services/claude-dialogue-generation.service.ts:227-229 | the first `n` topics of the sort are topics of the list, and each is at least as important as every topic left out |
| DialogueGeneration.SortedSecond | libs/src/lib/services/claude-dialogue-generation.service.ts:209-211 | the first two topics of the sort are topics of the list, and the second is at least as important as every topic but the first |
| DialogueGeneration.SortedHeadIsMostImportant | libs/src/lib/services/claude-dialogue-generation.service.ts:209-211 | the first sorted topic is one of the topics and at least as important as every topic |
| DialogueGeneration.GenerateTitle | libs/src/lib/services/claude-dialogue-generation.service.ts:207-218 | with no topics the title is `Podcast Discussion`; with one topic it is `Exploring` and its name |
| DialogueGeneration.TitleNamesTopTwo | libs/src/lib/services/claude-dialogue-generation.service.ts:207-218 | with two or more topics the title names the first two topics of the stable sort: two entries of the list, the first at least as important as every topic, the second at least as important as every topic but the first |
| DialogueGeneration.GenerateDescription | libs/src/lib/services/claude-dialogue-generation.service.ts:225-239 | the fixed sentence when there are no topics; with one topic, its name and its description |
| DialogueGeneration.DescriptionNamesTopThree | libs/src/lib/services/claude-dialogue-generation.service.ts:225-239 | with two or more topics the description lists, joined by `, `, the names of the first three (or both) topics of the stable sort, each at least as important as any topic left out, and ends with `. ` and the description of the first, a most important topic |
| DialogueGeneration.ScriptDefaults | libs/src/lib/services/claude-dialogue-generation.service.ts:29-32 | a speaker count and a turn count that are positive and equal the options' when those are set and non-zero; introduction and conclusion on unless explicitly switched off |
| DialogueGeneration.ScriptMetadata | libs/src/lib/services/claude-dialogue-generation.service.ts:59-66 | exactly the five keys: the graph's topic and entity counts, the speaker count asked for, the number of turns produced, and the generation time |
| DialogueGeneration.GeneratePodcastScript | libs/src/lib/services/claude-dialogue-generation.service.ts:23-73 | the script is built exactly when the speaker and dialogue calls, and each introduction or conclusion call that is switched on, succeed; the first failing call (speakers, introduction, dialogue, conclusion) decides the wrapped error; on success the script has the requested number of speakers, each the validated parsed record or a generic one, every dialogue turn spoken by one of them (the generic dialogue when the reply is unreadable), the trimmed introduction and conclusion (or empty), the generated title and description and the metadata record |
| DialogueGeneration.BuildScript | libs/src/lib/services/claude-dialogue-generation.service.ts:50-67 | the assembled record has the given parts and the source graph's id; its speakers are the validated parsed records padded with generic ones to the count requested; its dialogue is the fallback for an unreadable reply, otherwise the repaired parsed turns, each spoken by one of the speakers |
| Timeline.EstimatedDuration | libs/src/lib/services/elevenlabs-voice-synthesis.service.ts:200 | the duration estimate is non-negative, at three characters per second |
| Timeline.AppendContiguous | libs/src/lib/services/elevenlabs-voice-synthesis.service.ts:119-137 | a segment placed at the running cursor keeps the timeline contiguous and moves the cursor by its duration |
| Timeline.ContiguousEndsAtSum | libs/src/lib/services/elevenlabs-voice-synthesis.service.ts:160-166 | a contiguous timeline ends at the sum of its segments' durations |
| Timeline.StartIsPrefixSum | libs/src/lib/services/elevenlabs-voice-synthesis.service.ts:119-137 | each segment starts at the sum of the durations before it |
| Timeline.Ceil | libs/src/lib/services/mock-voice-synthesis.service.ts:155 | `Math.ceil`: the least integer not below the input |
| Timeline.ConcatAudioLayout | libs/src/lib/services/elevenlabs-voice-synthesis.service.ts:222-248 | the combined buffer has the total size, and segment k's bytes sit at the offset given by the sizes before it |
| Timeline.ConcatSize | libs/src/lib/services/elevenlabs-voice-synthesis.service.ts:228-230 | the combined buffer's length is the sum of the segment sizes |
| Timeline.AudioMetadata | libs/src/lib/services/elevenlabs-voice-synthesis.service.ts:169-175 | the audio metadata has exactly the five keys: the script's title and description, its speaker and turn counts, and the generation time |
| VoiceSynthesis.LastMapping | libs/src/lib/services/elevenlabs-voice-synthesis.service.ts:84-90 | a speaker has a mapping exactly when some entry names it, and the mapping found names it |
| VoiceSynthesis.LastMappingIsLast | libs/src/lib/services/elevenlabs-voice-synthesis.service.ts:84-90 | the mapping found is the last entry for that speaker (`Map.set` overwrites) |
| VoiceSynthesis.BuildVoiceMap | libs/src/lib/services/elevenlabs-voice-synthesis.service.ts:84-90 | the map built by the loop has exactly the mapped speakers as keys, each bound to its last mapping's voice and options |
| VoiceSynthesis.SpokenText | libs/src/lib/services/elevenlabs-voice-synthesis.service.ts:192-195 | a non-empty emotion is prefixed as `[emotion] `; otherwise the text is spoken as written; either way the turn's text ends the spoken text |
| VoiceSynthesis.SynthesizeDialogueTurn | libs/src/lib/services/elevenlabs-voice-synthesis.service.ts:189-215 | a segment exactly when speech succeeds, carrying the turn's speaker, the voice, the unprefixed text, the audio and the estimated duration from 0; otherwise the nested error message |
| VoiceSynthesis.PlaceNarration | libs/src/lib/services/elevenlabs-voice-synthesis.service.ts:99-116 | a narrator segment in the default voice is appended at the cursor exactly when its speech succeeds, keeping the timeline placed |
| VoiceSynthesis.FirstTurnFailure | libs/src/lib/services/elevenlabs-voice-synthesis.service.ts:119-137 | the message of the first failing turn, absent exactly when every turn's speech succeeds |
| VoiceSynthesis.FirstTurnFailureAt | libs/src/lib/services/elevenlabs-voice-synthesis.service.ts:119-137 | when turn j fails and none before it does, the dialogue fails with turn j's message |
| VoiceSynthesis.FirstSpeechFailure | libs/src/lib/services/elevenlabs-voice-synthesis.service.ts:99-157 | the first failing speech call in call order (introduction, turns, conclusion) decides the message; absent exactly when all succeed; a failing introduction gives `Failed to synthesize podcast: Failed to synthesize speech: ` and its error |
| VoiceSynthesis.PlaceTurn | libs/src/lib/services/elevenlabs-voice-synthesis.service.ts:119-133 | a turn is voiced with its mapped voice (or the default) and placed at the given time; a failed call gives `Failed to synthesize podcast: Failed to synthesize dialogue turn: Failed to synthesize speech: ` and its error |
| VoiceSynthesis.PlaceTurns | libs/src/lib/services/elevenlabs-voice-synthesis.service.ts:119-137 | the loop succeeds exactly when every turn's speech does; it appends one segment per turn in order and keeps the timeline contiguous; on failure the message is that of the first failing turn |
| VoiceSynthesis.PlaceAll | libs/src/lib/services/elevenlabs-voice-synthesis.service.ts:99-157 | introduction, turns and conclusion are laid out in order exactly when all their speech succeeds; otherwise the first failing call's nested message (`FirstSpeechFailure`) is returned |
| VoiceSynthesis.AssembleLayout | libs/src/lib/services/elevenlabs-voice-synthesis.service.ts:99-157 | the three phases together give the script's layout, and all their speech succeeded |
| VoiceSynthesis.SynthesizePodcast | libs/src/lib/services/elevenlabs-voice-synthesis.service.ts:81-180 | the audio is produced exactly when every piece's speech succeeds; its id is `podcast-audio-` and its own clock reading; its segments follow the script (optional narrator introduction, one per turn, optional conclusion) on a contiguous timeline whose total is the sum of durations, and the full audio is their concatenation; on failure the error is the first failing call's nested message (`FirstSpeechFailure`) |
| VoiceSynthesis.CombineAudioSegments | libs/src/lib/services/elevenlabs-voice-synthesis.service.ts:222-248 | the copy loop yields exactly the concatenation of the segments' bytes |
| VoiceSynthesis.SumSizes | libs/src/lib/services/elevenlabs-voice-synthesis.service.ts:228-230 | the reduce computes the total byte size |
| VoiceSynthesis.CopyAt | libs/src/lib/services/elevenlabs-voice-synthesis.service.ts:239-240 | `Uint8Array.set` writes the data at the offset and keeps everything before it |
| VoiceSynthesis.PrefixSizeBound | libs/src/lib/services/elevenlabs-voice-synthesis.service.ts:237-242 | the bytes before any segment never exceed the total, so every copy fits the buffer |
| MockVoiceSynthesis.Silence | libs/src/lib/services/mock-voice-synthesis.service.ts:62 | a zero-filled buffer of the given length |
| MockVoiceSynthesis.BufferSize | libs/src/lib/services/mock-voice-synthesis.service.ts:155 | `44100 * Math.ceil(duration)` covers the duration at 44100 bytes a second, and less than one second more |
| MockVoiceSynthesis.FirstMapping | libs/src/lib/services/mock-voice-synthesis.service.ts:95 | `find` returns the first entry for the speaker, and none exactly when no entry names it |
| MockVoiceSynthesis.NarratorVoice | libs/src/lib/services/mock-voice-synthesis.service.ts:82 | the first mapping's voice when there is one and it is set; `voice-1` when the list is empty or that voice is empty |
| MockVoiceSynthesis.TurnVoice | libs/src/lib/services/mock-voice-synthesis.service.ts:95-100 | the voice of the first mapping for the speaker when it is set; `voice-1` when the speaker is unmapped or that voice is empty |
| MockVoiceSynthesis.SynthesizeDialogueTurn | libs/src/lib/services/mock-voice-synthesis.service.ts:149-162 | a silent segment for the turn with the estimated duration, from 0, of 44100 bytes per started second |
| MockVoiceSynthesis.CombineAudioSegments | libs/src/lib/services/mock-voice-synthesis.service.ts:168-174 | the combined buffer has 44100 bytes per started second of total duration |
| MockVoiceSynthesis.NonNegativeSum | libs/src/lib/services/mock-voice-synthesis.service.ts:170 | durations that are never negative sum to a non-negative total |
| MockVoiceSynthesis.At | libs/src/lib/services/mock-voice-synthesis.service.ts:77-90 | a mock segment placed at the given time, ending a duration later |
| MockVoiceSynthesis.PlaceTurns | libs/src/lib/services/mock-voice-synthesis.service.ts:93-109 | one segment per turn appended in order, each voiced by the first mapping for its speaker, on a contiguous timeline |
| MockVoiceSynthesis.PlaceOne | libs/src/lib/services/mock-voice-synthesis.service.ts:93-109 | placing a segment at the cursor keeps the timeline placed and moves the cursor by its duration |
| MockVoiceSynthesis.MockLayout | libs/src/lib/services/mock-voice-synthesis.service.ts:71-125 | the three phases together give the script's layout |
| MockVoiceSynthesis.SynthesizePodcast | libs/src/lib/services/mock-voice-synthesis.service.ts:71-142 | the mock audio always succeeds; its segments follow the script on a contiguous timeline whose total is the sum of durations; the full audio has 44100 bytes per started second of it |
| MockVoiceSynthesis.FullAudioMatchesCombine | libs/src/lib/services/mock-voice-synthesis.service.ts:131 | the podcast's full audio is as long as combining its segments gives |
| VoiceAssignment.AutoAssignVoices | libs/src/lib/services/voice-synthesis-manager.ts:108-137 | the failure of the voice listing and an empty list are reported with the nested messages; otherwise speaker i gets voice i mod n with its default options |
| VoiceAssignment.EnoughVoicesNoRepeats | libs/src/lib/services/voice-synthesis-manager.ts:120-130 | with at least as many voices as speakers, speaker i gets voice i, so distinct voices are never shared |
| VoiceAssignment.FewVoicesCycle | libs/src/lib/services/voice-synthesis-manager.ts:123 | with fewer voices, the assignment repeats every n speakers |
| ParagraphSplit.FirstBlankLine | libs/src/lib/adapters/text-adapter.ts:41 | the first position from a start where `\n\s*\n` matches, and none before it |
| ParagraphSplit.SplitBlankLines | libs/src/lib/adapters/text-adapter.ts:41 | at least one piece, no piece contains a blank line, text without one is a single piece, and the pieces hold the text's non-space characters in order (only the whitespace separators are lost) |
| ParagraphSplit.SeparatorLosesNoText | libs/src/lib/adapters/text-adapter.ts:41 | cutting a whitespace separator out of the text keeps its non-space characters |
| ParagraphSplit.Clean | libs/src/lib/adapters/text-adapter.ts:42 | a cleaned paragraph has no newline, is trimmed, keeps the piece's non-space characters in order, and is empty exactly when the piece was all whitespace |
| ParagraphSplit.CleanAll | libs/src/lib/adapters/text-adapter.ts:42 | each piece is cleaned in place |
| ParagraphSplit.Paragraphs | libs/src/lib/adapters/text-adapter.ts:40-43 | every paragraph is non-empty, trimmed and on one line, and the paragraphs together hold the text's non-space characters in order |
| ParagraphSplit.CleanAllKeepsText | libs/src/lib/adapters/text-adapter.ts:42 | cleaning every piece keeps the pieces' non-space text |
| ParagraphSplit.ParagraphsEmptyIff | libs/src/lib/adapters/text-adapter.ts:40-43 | there are no paragraphs exactly when the text is all whitespace |
| ParagraphSplit.NonSpaceInPiece | libs/src/lib/adapters/text-adapter.ts:41 | every non-space character lands in a piece that is not all whitespace |
| ParagraphSplit.AllSpacePieces | libs/src/lib/adapters/text-adapter.ts:41 | blank text splits into blank pieces only |
| TextAdapter.FirstBreak | libs/src/lib/adapters/text-adapter.ts:51 | the first position from a start where `(?<=[.!?])\s+` can match, and none before it |
| TextAdapter.SplitSentences | libs/src/lib/adapters/text-adapter.ts:50-51 | the split yields at least one piece |
| TextAdapter.SplitSentencesRejoin | libs/src/lib/adapters/text-adapter.ts:50-51 | on cleaned, non-empty text every sentence is non-empty and joining with single spaces gives the text back |
| TextAdapter.SentencesRejoin | libs/src/lib/adapters/text-adapter.ts:50-52 | the filtered sentences of cleaned text rejoin to the text |
| TextAdapter.GroupSentences | libs/src/lib/adapters/text-adapter.ts:55-69 | the blocks are exactly those of `GroupRef` (a block is pushed when the next sentence would take it over 500 characters, otherwise the sentence joins it after a space); they rejoin to the sentences; neighbouring blocks would exceed 500 characters together; a block over 501 characters is a single sentence; only a first block can be empty, exactly when the first sentence is over 500 characters |
| TextAdapter.GroupRefGrouped | libs/src/lib/adapters/text-adapter.ts:55-69 | the blocks of the grouping rule keep every promise of `Grouped` for any list of non-empty sentences |
| TextAdapter.GroupFromGrouped | libs/src/lib/adapters/text-adapter.ts:58-68 | grouping the remaining sentences from a state reached after `k` of them keeps the promises of `Grouped` |
| TextAdapter.GroupFlush | libs/src/lib/adapters/text-adapter.ts:58-60 | pushing the current block and starting anew keeps the grouping invariant |
| TextAdapter.GroupExtend | libs/src/lib/adapters/text-adapter.ts:61-63 | appending a sentence with a space keeps the invariant |
| TextAdapter.GroupStart | libs/src/lib/adapters/text-adapter.ts:61-63 | starting an empty block with a sentence keeps the invariant |
| TextAdapter.GroupFinish | libs/src/lib/adapters/text-adapter.ts:66-68 | the final push establishes the grouping property |
| TextAdapter.ExtractContent | libs/src/lib/adapters/text-adapter.ts:35-72 | more than one paragraph gives the paragraphs; otherwise the blocks of the grouping rule over the sentences, or the cleaned text alone when there are none; the non-empty blocks always rejoin to the cleaned text |
| TextAdapter.LongFirstSentence | libs/src/lib/adapters/text-adapter.ts:55-69 | a first sentence over 500 characters makes the first block empty |
| TextAdapter.Title | libs/src/lib/adapters/text-adapter.ts:81-87 | the trimmed first line when it is at most 100 characters long (even when empty), `Untitled Text` when it is longer; always on one line and at most 100 characters |
| TextAdapter.FirstLine | libs/src/lib/adapters/text-adapter.ts:81 | the prefix up to the first newline, or the whole text |
| TextAdapter.FirstLineIsFirstPiece | libs/src/lib/adapters/text-adapter.ts:81-82 | `lines[0]` is that prefix |
| TextAdapter.SplitOnSpaceRuns | libs/src/lib/adapters/text-adapter.ts:92 | `split(/\s+/)` yields at least one piece, none holding whitespace |
| TextAdapter.SplitOnSpaceRunsRejoin | libs/src/lib/adapters/text-adapter.ts:92 | the pieces joined with single spaces give `replace(/\s+/g, ' ')` of the text, so each cut removes exactly one whitespace run and the words are the text's in order |
| TextAdapter.SplitStep | libs/src/lib/adapters/text-adapter.ts:92 | one cut: the word before the first whitespace run, then the pieces after the run |
| TextAdapter.FirstRun | libs/src/lib/adapters/text-adapter.ts:92 | the text is its first word, its first whitespace run, and the rest, which does not start with whitespace |
| TextAdapter.WordCountZeroIff | libs/src/lib/adapters/text-adapter.ts:92 | the word count is 0 exactly when the text is all whitespace |
| TextAdapter.AllSpaceWords | libs/src/lib/adapters/text-adapter.ts:92 | blank text splits into empty pieces only |
| TextAdapter.NonSpaceInWord | libs/src/lib/adapters/text-adapter.ts:92 | every non-space character lands in a non-empty word |
| TextAdapter.ExtractMetadata | libs/src/lib/adapters/text-adapter.ts:79-97 | exactly the six keys: title, character count, word count, line count (newlines plus one), language and the given timestamp |
| TextAdapter.MetadataRecord | libs/src/lib/adapters/text-adapter.ts:89-96 | the record holds exactly the six keys with the given values |
| TextAdapter.Score | libs/src/lib/adapters/text-adapter.ts:117-121 | a score counts matched stop words, so it never exceeds the list's length |
| TextAdapter.Sample | libs/src/lib/adapters/text-adapter.ts:105 | the sample is the first 1000 characters, or the whole text |
| TextAdapter.Scores | libs/src/lib/adapters/text-adapter.ts:117-121 | one score per language, each at most 7 |
| TextAdapter.DetectLanguage | libs/src/lib/adapters/text-adapter.ts:104-135 | the language chosen is the first one with the highest score, English when no score is positive |
| TextAdapter.WinnerUnique | libs/src/lib/adapters/text-adapter.ts:124-132 | at most one language satisfies the winning condition |
| TextAdapter.NoMatchIsEnglish | libs/src/lib/adapters/text-adapter.ts:124-132 | when no language scores, English wins |
| TextAdapter.ProcessText | libs/src/lib/adapters/text-adapter.ts:9-28 | a text package whose content is that of `ExtractContent` in each of its three cases (never empty) and the metadata for the detected language |
| PdfAdapter.NextSentenceEnd | libs/src/lib/adapters/pdf-adapter.ts:68 | the first position from a start where `\.(?=\s)` matches, or the end |
| PdfAdapter.SplitSentences | libs/src/lib/adapters/pdf-adapter.ts:68 | at least one piece, the pieces rejoin with `.` to the text, and text without a match is one piece |
| PdfAdapter.LongSentences | libs/src/lib/adapters/pdf-adapter.ts:69-70 | every kept sentence is longer than 10 characters, ends with `.`, and is a trimmed piece plus `.` |
| PdfAdapter.SentenceFallback | libs/src/lib/adapters/pdf-adapter.ts:64-71 | every fallback sentence is longer than 10 characters and ends with `.` |
| PdfAdapter.ExtractContent | libs/src/lib/adapters/pdf-adapter.ts:56-74 | the paragraphs when there are any, otherwise the sentence fallback; every block is non-empty and trimmed |
| PdfAdapter.FallbackOnBlank | libs/src/lib/adapters/pdf-adapter.ts:64-71 | the fallback runs only on blank text, and then yields nothing |
| PdfAdapter.ContentIsParagraphs | libs/src/lib/adapters/pdf-adapter.ts:56-74 | the content is always the paragraphs, empty exactly for blank text |
| PdfAdapter.OrNull | libs/src/lib/adapters/pdf-adapter.ts:90-91 | `x \|\| null`: null exactly for an absent or empty date |
| PdfAdapter.BaseMetadata | libs/src/lib/adapters/pdf-adapter.ts:86-95 | the ten base keys with the document info or the defaults (file name, `Unknown`, null) |
| PdfAdapter.ExtractMetadata | libs/src/lib/adapters/pdf-adapter.ts:82-98 | the document's own metadata overrides the base keys and adds its own |
| PdfAdapter.MetadataDefaults | libs/src/lib/adapters/pdf-adapter.ts:86-91 | a document with no info gets the file name as title, `Unknown` author, creator and producer, and null dates |
| PdfAdapter.ProcessPdf | libs/src/lib/adapters/pdf-adapter.ts:10-35 | a package exactly when parsing succeeds, citing the file name, with the paragraphs and the metadata; otherwise the nested error message |
| VideoAdapter.CloseFrom | libs/src/lib/adapters/video-adapter.ts:99 | a `</text>` found from a position really occurs there |
| VideoAdapter.MatchAt | libs/src/lib/adapters/video-adapter.ts:99 | a match of the caption regex at a position has its capture inside the text, after the opening tag |
| VideoAdapter.NextMatch | libs/src/lib/adapters/video-adapter.ts:99 | the next match from a position lies within the text, after it |
| VideoAdapter.CloseOnOneLine | libs/src/lib/adapters/video-adapter.ts:99 | the lazy `.*?` never crosses a line terminator |
| VideoAdapter.MatchOnOneLine | libs/src/lib/adapters/video-adapter.ts:99 | a captured caption lies on one line |
| VideoAdapter.CapturesOnOneLine | libs/src/lib/adapters/video-adapter.ts:102-114 | every raw caption captured lies on one line |
| VideoAdapter.DecodeEntities | libs/src/lib/adapters/video-adapter.ts:104-108 | decoding never lengthens the text |
| VideoAdapter.DoubleDecoding | libs/src/lib/adapters/video-adapter.ts:104-105 | the chained replaces decode `&amp;lt;` all the way to `<` |
| VideoAdapter.DecodePlain | libs/src/lib/adapters/video-adapter.ts:104-108 | text without `&` is unchanged |
| VideoAdapter.NoAmpersandNoEntity | libs/src/lib/adapters/video-adapter.ts:104-108 | text without `&` contains no entity |
| VideoAdapter.CleanCaptions | libs/src/lib/adapters/video-adapter.ts:109-113 | every kept caption is non-empty and trimmed |
| VideoAdapter.ExtractCaptions | libs/src/lib/adapters/video-adapter.ts:97-118 | the `exec` loop yields the decoded, trimmed, non-empty captures in order |
| VideoAdapter.PushCaption | libs/src/lib/adapters/video-adapter.ts:109-113 | one loop step adds the decoded caption when it is not empty |
| VideoAdapter.CombineCaptions | libs/src/lib/adapters/video-adapter.ts:125-153 | the sentences are exactly those of `CombineRef` (a caption ending in `.`, `!` or `?`, or ending in `,`, `;` or `:` once the pending text is over 150 characters, closes the sentence; any other is appended after a space; a non-empty remainder is pushed); they rejoin to the captions; every sentence but the last ends a sentence or a long clause; none is empty; there are none exactly when there are no captions |
| VideoAdapter.CombineStep | libs/src/lib/adapters/video-adapter.ts:129-145 | adding a caption, and closing the sentence on a stop or a long clause, keeps the invariant |
| VideoAdapter.CombineFromStep | libs/src/lib/adapters/video-adapter.ts:129-145 | one caption of the combining rule: it closes the pending sentence on a stop or a long clause, otherwise it is appended |
| VideoAdapter.PendingGrows | libs/src/lib/adapters/video-adapter.ts:131-142 | the text gathered so far grows by one space and the caption |
| VideoAdapter.FormatDuration | libs/src/lib/adapters/video-adapter.ts:184-194 | the formatted duration has at least four characters |
| VideoAdapter.FormatDurationRoundTrip | libs/src/lib/adapters/video-adapter.ts:184-194 | the clock has three fields from an hour up and two below it; the first is the unpadded hours (or minutes); all are digits, fields after the first are two digits below 60, and reading them back gives the seconds |
| VideoAdapter.ClockRoundTrip | libs/src/lib/adapters/video-adapter.ts:189-192 | the two clock shapes read back as hours, minutes and seconds, the leading field unpadded |
| VideoAdapter.ClockArithmetic | libs/src/lib/adapters/video-adapter.ts:185-187 | hours, minutes and seconds recompose the input, with minutes and seconds below 60 |
| VideoAdapter.WithPlaceholders | libs/src/lib/adapters/video-adapter.ts:84-87 | content beyond the title is kept as is; a title alone is followed by exactly the two placeholder blocks; the title block stays first |
| VideoAdapter.ExtractContent | libs/src/lib/adapters/video-adapter.ts:45-90 | the title block, the description paragraphs and the combining rule's sentences of the fetched captions, padded with placeholders when only the title is there; those sentences rejoin to the captions and all but the last are closed |
| VideoAdapter.AddPlaceholders | libs/src/lib/adapters/video-adapter.ts:84-87 | the placeholder step as a method |
| VideoAdapter.ProcessVideo | libs/src/lib/adapters/video-adapter.ts:10-38 | an invalid URL and a failed info call give the nested messages; otherwise a video package citing the URL whose content is that of `ExtractContent` |
| ContentIngestion.IsYouTubeUrl | libs/src/lib/services/content-ingestion.service.ts:67-79 | an unparseable URL is not YouTube |
| ContentIngestion.YouTubeIgnoresCase | libs/src/lib/services/content-ingestion.service.ts:70-75 | the host test ignores case |
| ContentIngestion.YouTubeSubdomains | libs/src/lib/services/content-ingestion.service.ts:72-75 | among `youtube.com` subdomains only `www` counts |
| ContentIngestion.OtherSubdomainsAreWeb | libs/src/lib/services/content-ingestion.service.ts:72-75 | `m.youtube.com` and `music.youtube.com` go to the web adapter |
| ContentIngestion.ProcessUrl | libs/src/lib/services/content-ingestion.service.ts:25-33 | a YouTube host goes to the video adapter, with its two error messages and, on success, its whole package (id, URL, citations, metadata, content); anything else is the web adapter's result |
| ContentIngestion.ProcessPdf | libs/src/lib/services/content-ingestion.service.ts:40-42 | the PDF adapter's result: its error message, or a package exactly when parsing succeeds, with the id, the file name as citation, the paragraphs and the extracted metadata |
| ContentIngestion.ProcessVideo | libs/src/lib/services/content-ingestion.service.ts:49-51 | the video adapter's result: its two error messages, or its package with id, URL, citations, metadata and content |
| ContentIngestion.ProcessText | libs/src/lib/services/content-ingestion.service.ts:58-60 | the text adapter's package: id, no citations or URL, the content in each of its three cases, and the metadata for the detected language |
| LocalDelivery.AvailableFormats | libs/src/lib/services/local-delivery.service.ts:22-46 | MP3, WAV and OGG with matching extensions and MIME types |
| LocalDelivery.Underscore | libs/src/lib/services/local-delivery.service.ts:249 | same length; every non-alphanumeric character becomes `_` |
| LocalDelivery.Squeeze | libs/src/lib/services/local-delivery.service.ts:250 | no two underscores in a row; first character and alphabet kept; never longer |
| LocalDelivery.Sanitize | libs/src/lib/services/local-delivery.service.ts:247-252 | a file name of lowercase letters, digits and single underscores, never longer than the title |
| LocalDelivery.SqueezeNoRun | libs/src/lib/services/local-delivery.service.ts:250 | a string without doubled underscores is left unchanged |
| LocalDelivery.SanitizeFixedPoints | libs/src/lib/services/local-delivery.service.ts:247-252 | a name is unchanged exactly when it is already safe, and sanitising twice changes nothing more |
| LocalDelivery.SecondsBelow60 | libs/src/lib/services/local-delivery.service.ts:224-225 | minutes and seconds recompose the whole seconds of the start time, seconds below 60 |
| LocalDelivery.TimestampReadsBack | libs/src/lib/services/local-delivery.service.ts:224-226 | the `mm:ss` stamp reads back as those minutes and seconds |
| LocalDelivery.FieldsReadBack | libs/src/lib/services/local-delivery.service.ts:226 | two padded numbers joined by `:` read back as the numbers |
| LocalDelivery.Entry | libs/src/lib/services/local-delivery.service.ts:228-233 | an entry starts with `[` and ends with a blank line |
| LocalDelivery.Entries | libs/src/lib/services/local-delivery.service.ts:221-234 | one entry per segment, in order |
| LocalDelivery.EntryAt | libs/src/lib/services/local-delivery.service.ts:221-234 | segment k's entry sits between the entries before and after it |
| LocalDelivery.ConcatAppend | libs/src/lib/services/local-delivery.service.ts:229-233 | appending entries concatenates their texts |
| LocalDelivery.GenerateTranscript | libs/src/lib/services/local-delivery.service.ts:214-240 | the loop builds the header then every segment's entry in order |
| LocalDelivery.FormatEntry | libs/src/lib/services/local-delivery.service.ts:223-233 | one segment's line with its timestamp and speaker label |
| LocalDelivery.PackagingRecord | libs/src/lib/services/local-delivery.service.ts:87-94 | the five packaging keys |
| LocalDelivery.PackageMetadataKeys | libs/src/lib/services/local-delivery.service.ts:87-103 | other keys of the audio metadata are kept; with metadata on, the packaging keys hold the options; with it off, none of them remains |
| LocalDelivery.BuildMetadata | libs/src/lib/services/local-delivery.service.ts:87-103 | the spread and the deletes give that metadata |
| LocalDelivery.PackagePodcast | libs/src/lib/services/local-delivery.service.ts:54-121 | a package exactly when the write succeeds: the title and description defaults, the audio file named by the sanitised title (or the id) and extension, a transcript exactly when asked for, the written size and the packaging metadata; otherwise the nested message |
| LocalDelivery.TitledFileNames | libs/src/lib/services/local-delivery.service.ts:60-62 | a titled package's file name is safe and no longer than the title |
| LocalDelivery.MetadataFileName | libs/src/lib/services/local-delivery.service.ts:131 | the name ends in `-metadata.json` after a stem that is the sanitised title: only `[a-z0-9_]` characters, no doubled underscore, no longer than the title, and left unchanged by sanitising again |
| LocalDelivery.SavePodcast | libs/src/lib/services/local-delivery.service.ts:128-144 | the audio URL exactly when the write succeeds, otherwise the nested message |
| LocalDelivery.ShareableLink | libs/src/lib/services/local-delivery.service.ts:151-155 | `file://` followed by the audio path |
| MockDelivery.MockFormats | libs/src/lib/services/mock-delivery.service.ts:12-29 | the local service's first two formats, MP3 and WAV |
| MockDelivery.MockPackageId | libs/src/lib/services/mock-delivery.service.ts:39 | `mock-package-` then digits that read back as the clock value |
| MockDelivery.MockAudioUrl | libs/src/lib/services/mock-delivery.service.ts:42 | `/mock/podcasts/`, the audio id, `.` and the extension |
| MockDelivery.MockTranscriptUrl | libs/src/lib/services/mock-delivery.service.ts:43 | `/mock/transcripts/`, the audio id and `.txt` |
| MockDelivery.MockPackage | libs/src/lib/services/mock-delivery.service.ts:37-57 | the mock defaults for title and description, the mock URLs, a transcript exactly when asked for, a fixed 5 MB size, and the audio metadata overlaid with the packaging record |
| MockDelivery.MockMetadataKeys | libs/src/lib/services/mock-delivery.service.ts:48-55 | the packaging keys always hold the options, and every other key of the audio is kept |
| MockDelivery.MockMetadataAsLocal | libs/src/lib/services/mock-delivery.service.ts:48-55 | with metadata on, the mock's metadata equals the local service's |
| MockDelivery.MockSave | libs/src/lib/services/mock-delivery.service.ts:64-66 | saving returns the audio URL |
| MockDelivery.SaveNamesAudio | libs/src/lib/services/mock-delivery.service.ts:42-43 | the saved path and the transcript URL name the audio id |
| MockDelivery.MockShareableLink | libs/src/lib/services/mock-delivery.service.ts:73-75 | the example share address followed by the package id |
| MockDelivery.GenerateTranscript | libs/src/lib/services/mock-delivery.service.ts:90-109 | the same transcript the local service writes |
| Store.Reduce | src/app/store.ts:29-57 | start clears result and error and sets generating; progress moves only step and percentage; success stops with the result at 100; failure stops with the error; reset gives the initial state |
| Store.ReduceConsistent | src/app/store.ts:29-57 | no action can show a result or an error while a generation runs |
| Store.RunConsistent | src/app/store.ts:16-57 | any sequence of actions from a consistent state stays consistent |
| Store.ResetIdempotent | src/app/store.ts:51-57 | reset gives the initial state, so resetting twice is resetting once |
| Store.ProgressKeeps | src/app/store.ts:36-39 | progress reports never change whether a generation runs, the result or the error |
| Store.GenerationEnds | src/app/store.ts:29-50 | start, progress, then success or failure: generation has stopped, with the result and no error, or the error and no result |
| Store.PodcastStore.constructor | src/app/store.ts:16-22 | the store starts in the initial state |
| Store.PodcastStore.StartGeneration | src/app/store.ts:29-35 | the fields change as the start action says |
| Store.PodcastStore.UpdateProgress | src/app/store.ts:36-39 | the fields change as the progress action says |
| Store.PodcastStore.GenerationSuccess | src/app/store.ts:40-45 | the fields change as the success action says |
| Store.PodcastStore.GenerationFailure | src/app/store.ts:46-50 | the fields change as the failure action says |
| Store.PodcastStore.ResetState | src/app/store.ts:51-57 | the fields return to the initial state |
| Store.PodcastStore.Dispatch | src/app/store.ts:29-57 | dispatching an action applies its reducer |
| Store.PodcastStore.DispatchAll | src/app/store.ts:29-57 | dispatching a series of actions one by one gives the state the pure run predicts |

## Left out

- The web adapter (`web-adapter.ts`) is not part of this model: `ContentIngestion.ProcessUrl` takes its result as an input.
- URL parsing (`new URL`) is not modelled: the parsed hostname is an input, `None` when the constructor throws.
- File system writes, `fs.stat` and `path.join` are not modelled. The outcome of a write is an input (`written`, `writeError`), and `path.join` is modelled as joining with `/`.
- Clocks, random numbers and `Date.now()` are parameters (`id`, `generatedAt`, `createdAt`, `packagedAt`, `now`, `introStamp`, `conclusionStamp`, `audioStamp`, `turnIds`).
- The SDK calls (Gemini, Claude, ElevenLabs, YouTube, `pdf-parse`, `FileReader`) are not modelled. Their replies are inputs, and `JSON.parse` is a function parameter. The retry loop's exponential back-off sleep is not modelled, since it changes only timing.
- Prompt construction (`create*Prompt`), `generateSummary`, `getAvailableVoices` and `synthesizeSpeech` build text for, or relay, external calls, so they are left out; speech synthesis is a function parameter.
- `generateRssFeed` (local and mock) writes a fixed XML template and is left out.
- The video adapter's `extractMetadata` only copies fields from the info reply; the metadata record is an input.
- The caption fetch is an `Option` input (`None` when the track list is missing or the fetch fails).
- JavaScript numbers are modelled as mathematical reals or naturals. Floating-point rounding, `NaN` and negative counts or durations are not modelled.
- Strings are sequences of characters. UTF-16 code-unit lengths of characters outside the Basic Multilingual Plane are not modelled, and `toLowerCase` is modelled for ASCII letters only.
- A non-string `title` or `description` in the audio metadata is treated as absent.
- The ElevenLabs loop that shifts each fresh segment's `startTime` and `endTime` in place is modelled as a record update: the segment is created just before and shared with nothing else.
- The PDF adapter's sentence fallback is modelled, but it can only run on blank text, where it yields nothing (`PdfAdapter.FallbackOnBlank`, `PdfAdapter.ContentIsParagraphs`).
- `configureStore`, the typed hooks and the Redux dispatch machinery are not modelled; the store is a class whose methods are the reducers.
- The mock delivery service ignores `includeMetadata`; the model keeps that behaviour (`MockDelivery.MockMetadataAsLocal` states when it agrees with the local service).
- DialogueGeneration.ScriptMetadata: does not carry the `options` object the source also stores under `options`, because the metadata values here are flat.
- DialogueGeneration.SpeakerNames: its ensures states only that every id is a key; that every key is some speaker's id, and which name it holds, are the lemmas `SpeakerNamesKnown` and `SpeakerNamesLast`.
- DialogueGeneration.GenerateTitle: its ensures covers zero and one topic; the two-topic case is the lemma `TitleNamesTopTwo`.
- DialogueGeneration.GenerateDescription: its ensures covers zero and one topic; the case of two or more is the lemma `DescriptionNamesTopThree`.
- TextAdapter.SplitSentences: its ensures states only that there is at least one piece; the rejoin property is the lemma `SplitSentencesRejoin`.
- VideoAdapter.DecodeEntities: its ensures bounds only the length; the decoding behaviour is stated by `DoubleDecoding` and `DecodePlain`.
- VideoAdapter.FormatDuration: its ensures bounds only the length; the format is stated by `FormatDurationRoundTrip`.
- Strings.ReplaceAll: its ensures bounds only the length; its identity on text without the pattern is `ReplaceAllAbsent`.
- ContentIngestion.IsYouTubeUrl: its ensures covers only an unparseable URL; which hosts count is stated by `YouTubeIgnoresCase`, `YouTubeSubdomains` and `OtherSubdomainsAreWeb`.

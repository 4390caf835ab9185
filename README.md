# Score player and search client core, in Dafny

This project models the sequential core of a web client for a melodic search
engine over a corpus of music scores (MEI files). The client has five parts
that are plain logic, and each has its own module:

- `AudioPlayer` (`audio_player.dfy`) is the score player. It covers:
  - the lookup from MEI `dur` codes to duration tokens;
  - the per-staff time cursor that turns a score's `<note>` elements into
    timed notes;
  - the total duration that arms the auto-stop;
  - the transport and its three observable flags (playing, paused, stopped);
  - the draw callback that removes the previous highlight only when the
    firing time changes.
- `DataManager` (`data_manager.dfy`) covers:
  - result paging;
  - the serialiser that turns a drawn melody into the `notes` parameter of
    the matching script, which is a Python list of tuples;
  - the extraction of title, author and comment from an MEI file;
  - the removal of its `<pgHead>` section.

  These use `LazyMatch` (`lazy_match.dfy`), a model of the regular
  expressions they use. Each expression is literal pieces separated by a lazy
  `.*?` under the `s` flag. A search returns the leftmost match and, for that
  start, the shortest.
- `PolyphonicSearch` (`polyphonic_search_store.dfy`) is the store of
  polyphonic-search parameters. It holds:
  - the active per-voice parameters and their coercing setters;
  - up to four frozen voices, each with a parameter snapshot;
  - the locks that pin the shared collection, alpha and incipit-only flag.
- `ResultProcessing` (`result_processing.dfy`) covers:
  - normalisation of the server's search results (note ids, matches given
    as voices);
  - their merging by source score;
  - the fallback escaper for CSS ids.
- `Modes` (`modes_store.dfy`) is the mode filter: a fixed list of modes and
  a bounded selected index.

`Wrappers` (`wrappers.dfy`) gives `Option`, which stands for JavaScript's
`null`/`undefined`, together with string truthiness. `Strings` (`strings.dfy`)
covers:
- decimal rendering of naturals;
- ASCII case mapping;
- joining strings with a separator.

How the model represents the source:
- Times and durations are integers: thirty-second-note ticks. A whole note is
  32 ticks and a quarter note 8.
- Stores and the player are classes. Their methods update the fields the
  source updates.
- Pure functions of the source are functions.
- Loops of the source are methods, each proved equal to a specification
  function:
  - `parseMeiToTracks` (`ParseStaff`, `ParseMeiToTracks`);
  - `createNotesQueryParam` (`AppendKeys`, `AppendTuple`,
    `CreateNotesQueryParam`);
  - `mergeResultsBySource` (`MergeResultsBySource`).

Where the code does less than its design, the model follows the code:
- Only `<note>` elements are read. Rests are never seen and dots are never
  read.
- Chord members arrive one after the other in document order, and each
  advances the cursor.
- Highlighting works per note id, not per onset group.
- `playScore` on a playing or paused player stops it first. It therefore
  changes state even when the score then has no playable note.
- `selectedModeName` returns no name (`null`) for the first entry. Its doc
  comment says the empty string.

## Model

| member | source | states |
|---|---|---|
| AudioPlayer.ConvertMeiDurationToToneTable | src/composables/useAudioPlayer.ts:85-96 | codes 1, 2, 4, 8, 16, 32 map to the code followed by `n`; every other code maps to `4n` |
| AudioPlayer.CodeTicksDivideWholeNote | src/composables/useAudioPlayer.ts:86-93 | the token of code `d` lasts 32/d ticks: it divides a whole note into `d` parts |
| AudioPlayer.NoteDurationDefault | src/composables/useAudioPlayer.ts:57-62 | a missing or empty `dur` is read as `4` and gives `4n`; a present one goes through the lookup |
| AudioPlayer.ParseStaff | src/composables/useAudioPlayer.ts:50-72 | the loop over a staff's note elements yields exactly the staff's specified notes |
| AudioPlayer.ParseMeiToTracks | src/composables/useAudioPlayer.ts:43-80 | the tracks are the specified ones; every returned track is non-empty; there is at most one per staff |
| AudioPlayer.StaffTimesAreRunningSums | src/composables/useAudioPlayer.ts:52-71 | each note's time is the sum of the lengths of the accepted notes before it, and the final cursor is the sum of all of them |
| AudioPlayer.StaffTimesIncrease | src/composables/useAudioPlayer.ts:52-71 | the first note starts at 0; each note starts where the previous one ends; times strictly increase |
| AudioPlayer.StaffNotesAreAcceptedElements | src/composables/useAudioPlayer.ts:54-71 | the notes are exactly the elements having `pname` and `oct`, in order. Each note has the upper-cased pitch name followed by the octave, and the element's id or `staff-{s+1}-note-{i}`, where `i` counts skipped elements too. Skipped elements leave the cursor unchanged |
| AudioPlayer.TotalDuration | src/composables/useAudioPlayer.ts:129-134 | the total duration is at least the end of every track |
| AudioPlayer.TotalDurationIsAttained | src/composables/useAudioPlayer.ts:129-134 | the total duration is 0 or the end of some track, so it is their maximum |
| AudioPlayer.TrackEndCoversNotes | src/composables/useAudioPlayer.ts:131-133 | in a contiguous track the last note's end is at least every note's end |
| AudioPlayer.TracksAreContiguous | src/composables/useAudioPlayer.ts:74-76 | every parsed track is non-empty and contiguous |
| AudioPlayer.TotalDurationCoversEveryNote | src/composables/useAudioPlayer.ts:128-138 | the auto-stop time is at least the end of every note of the score; it is positive exactly when some track exists |
| AudioPlayer.EqualTimesRemoveOnce | src/composables/useAudioPlayer.ts:147-154 | firings at one time remove the previous highlight at most once (once if the time is new, never otherwise); they highlight every id in order; the last time becomes that time |
| AudioPlayer.Player.Valid | src/composables/useAudioPlayer.ts:17-19 | in every valid state exactly one of playing, paused and stopped holds, mirroring the transport |
| AudioPlayer.Player.constructor | src/composables/useAudioPlayer.ts:17-25 | a new player is stopped, has no callbacks and no parts |
| AudioPlayer.Player.SetHighlightCallbacks | src/composables/useAudioPlayer.ts:229-232 | callbacks become registered and nothing else changes |
| AudioPlayer.Player.StopScore | src/composables/useAudioPlayer.ts:198-217 | from any state: no parts, no last highlight time, no auto-stop, only the stopped flag set. The remove callback is invoked when registered. The new state does not depend on the old one, so a second stop gives the same state |
| AudioPlayer.Player.PlayScore | src/composables/useAudioPlayer.ts:101-169 | stops first when playing or paused. Without audio or without tracks it ends stopped. Otherwise it plays exactly the parsed tracks, with the auto-stop at their total duration and only the playing flag set |
| AudioPlayer.Player.StartTracks | src/composables/useAudioPlayer.ts:128-166 | a stopped player given non-empty tracks plays exactly them. The auto-stop is armed at their total duration and only the playing flag is set; callbacks, effects and the last highlight time are kept |
| AudioPlayer.Player.PauseScore | src/composables/useAudioPlayer.ts:174-181 | a started transport becomes paused with only the paused flag set; in any other state nothing changes |
| AudioPlayer.Player.ResumeScore | src/composables/useAudioPlayer.ts:186-193 | a paused transport becomes started with only the playing flag set; in any other state nothing changes |
| AudioPlayer.Player.FireNote | src/composables/useAudioPlayer.ts:142-155 | the note sounds. With callbacks registered, the remove callback runs only when the time differs from the last highlight time, which then becomes that time, and the highlight callback always runs |
| Strings.NatToString | src/composables/useAudioPlayer.ts:67 | the rendering of a natural is non-empty, all digits, without leading zero |
| Strings.NatToStringRoundTrip | src/composables/useAudioPlayer.ts:67 | reading the rendering back gives the number |
| Strings.UpperCase | src/composables/useAudioPlayer.ts:61 | same length; every ASCII lower-case letter becomes upper case, and other characters are kept |
| Strings.LowerCase | src/services/dataManagerServices.ts:99 | same length; every ASCII upper-case letter becomes lower case, and other characters are kept |
| LazyMatch.Find | src/services/dataManagerServices.ts:104 | the first occurrence of a literal at or after a position, or none when there is none |
| LazyMatch.Search | src/services/dataManagerServices.ts:104 | a found match starts with the first piece and ends with the last |
| LazyMatch.SearchIsLeftmostShortest | src/services/dataManagerServices.ts:104 | the search result is a match; no match starts earlier; no match from that start is shorter; no result means no match at all |
| LazyMatch.SearchFindsFirstMatch | src/services/dataManagerServices.ts:104 | conversely, a match that no match starts before and no match from the same start ends before is exactly the search result |
| LazyMatch.NthMatchesDoNotOverlap | src/services/dataManagerServices.ts:122 | in a global search, match n+1 exists only if match n does, and starts at or after its end |
| LazyMatch.NthMatchText | src/services/dataManagerServices.ts:122 | the text of a global match begins with the pattern's first piece |
| DataManager.JsSlice | src/services/dataManagerServices.ts:22 | `slice` never yields more elements than it is given |
| DataManager.DropLastTwo | src/services/dataManagerServices.ts:93 | `slice(0, -2)` removes exactly the last two characters |
| DataManager.GetPageNIsWindow | src/services/dataManagerServices.ts:21-23 | for a page from 1, page p is the items from (p-1)n to pn, cut at the end. It has at most n items and is empty past the end |
| DataManager.PagesCoverData | src/services/dataManagerServices.ts:21-23 | pages 1 to k together are the first kn items, in order |
| DataManager.CutAfterKeys | src/services/dataManagerServices.ts:81 | the cut after the keys removes the last separator, or the opening `([` when a note has no keys |
| DataManager.AppendKeys | src/services/dataManagerServices.ts:68-80 | appends `([` and each key's rendering followed by `, ` |
| DataManager.AppendTuple | src/services/dataManagerServices.ts:68-90 | appends one note's tuple followed by `, ` |
| DataManager.CreateNotesQueryParam | src/services/dataManagerServices.ts:65-96 | the serialiser's result is `[` + the tuples joined by `, ` + `]`, one tuple per note in order; an empty melody gives `]` |
| DataManager.IgnoredPitchForgetsKeys | src/services/dataManagerServices.ts:75 | with pitch ignored, the parameter depends only on how many keys each note has, not on their values or on rests |
| DataManager.IgnoredRhythmForgetsDurations | src/services/dataManagerServices.ts:84 | with rhythm ignored, the parameter does not depend on durations or dots |
| DataManager.InnerText | src/services/dataManagerServices.ts:106-107 | the text between the first `>` and the next `<` never contains `<` |
| DataManager.StripMeiExtensionInverts | src/services/dataManagerServices.ts:99 | removing `.mei`, in any case, undoes adding it; names without it are unchanged |
| DataManager.ExtractTitleFromMeiXML | src/services/dataManagerServices.ts:98-115 | the title is the first of: the first `rend` text of the `pgHead`, the `title` text, the file name without `.mei`, `Titre inconnu`. An empty text found earlier wins |
| DataManager.ExtractAuthorFromMeiXML | src/services/dataManagerServices.ts:117-131 | the author is the second `rend` text of the `pgHead`, else the `author` text, else empty |
| DataManager.ExtractCommentFromMeiXML | src/services/dataManagerServices.ts:133-147 | the comment is the third `rend` text of the `pgHead`, else the `author` text, else empty |
| DataManager.ExtractedFieldsAreTagFree | src/services/dataManagerServices.ts:98-147 | the author, the comment, and a title not taken from the file name never contain `<` |
| DataManager.ExtractTitleAuthorComment | src/services/dataManagerServices.ts:156-167 | the three fields are those of the three extractors |
| DataManager.RemovePgHead | src/services/dataManagerServices.ts:174-176 | removal never lengthens the document |
| DataManager.RemovePgHeadChangesOnlyWithSpan | src/services/dataManagerServices.ts:174-176 | the document is returned unchanged exactly when it has no `<pgHead…</pgHead>` span |
| DataManager.RemovePgHeadDeletesFirstSpan | src/services/dataManagerServices.ts:174-176 | exactly the leftmost, shortest span is deleted and everything around it is kept |
| PolyphonicSearch.ToNumber | src/stores/polyphonicSearchStore.ts:32-35 | numbers pass through, text is parsed, and NaN becomes 0 |
| PolyphonicSearch.Store.constructor | src/stores/polyphonicSearchStore.ts:38-53 | initial state: no voices, at most four, the initial active parameters, alpha 0, no locks |
| PolyphonicSearch.Store.SharedParametersLocked | src/stores/polyphonicSearchStore.ts:55 | true exactly when a voice is frozen |
| PolyphonicSearch.Store.SharedCollection | src/stores/polyphonicSearchStore.ts:56 | the locked collection; when the locks follow the voices, it is present exactly while voices are frozen |
| PolyphonicSearch.Store.SharedAlpha | src/stores/polyphonicSearchStore.ts:57-59 | the locked alpha when set, else alpha; never negative |
| PolyphonicSearch.Store.SharedIncipit | src/stores/polyphonicSearchStore.ts:60-62 | the locked flag when set, else the incipit-only flag |
| PolyphonicSearch.Store.FrozenVoicesPayload | src/stores/polyphonicSearchStore.ts:66-77 | one payload per voice, in order, with the voice's notes and snapshot |
| PolyphonicSearch.Store.SetPitchEnabled | src/stores/polyphonicSearchStore.ts:80-85 | disabling pitch forces transposition off; enabling it leaves transposition alone; nothing else changes |
| PolyphonicSearch.Store.SetRhythmEnabled | src/stores/polyphonicSearchStore.ts:86-91 | disabling rhythm forces homothety off; enabling it leaves homothety alone; nothing else changes |
| PolyphonicSearch.Store.SetAllowTransposition | src/stores/polyphonicSearchStore.ts:92-94 | sets transposition unconditionally and nothing else |
| PolyphonicSearch.Store.SetAllowHomothety | src/stores/polyphonicSearchStore.ts:95-97 | sets homothety unconditionally and nothing else |
| PolyphonicSearch.Store.SetPitchDistance | src/stores/polyphonicSearchStore.ts:98-100 | stores the input as a number and nothing else |
| PolyphonicSearch.Store.SetDurationFactor | src/stores/polyphonicSearchStore.ts:101-104 | the factor is never 0: zero or unparsable input becomes 1 |
| PolyphonicSearch.Store.SetDurationGap | src/stores/polyphonicSearchStore.ts:105-107 | stores the input as a number and nothing else |
| PolyphonicSearch.Store.SetAlpha | src/stores/polyphonicSearchStore.ts:108-114 | negative input becomes 0. The locked alpha follows only when voices are frozen and it is already set |
| PolyphonicSearch.Store.SetIncipitOnly | src/stores/polyphonicSearchStore.ts:115-120 | the locked flag follows only when voices are frozen and it is already set |
| PolyphonicSearch.Store.ResetActiveParameters | src/stores/polyphonicSearchStore.ts:121-129 | the seven active parameters get their initial values; voices, locks, alpha and the incipit flag are untouched |
| PolyphonicSearch.Store.NextVoice | src/stores/polyphonicSearchStore.ts:142-157 | the new voice's id is the previous count + 1, and it snapshots the five active parameters and the payload's mode, label and note count |
| PolyphonicSearch.Store.AddFrozenVoiceAsWritten | src/stores/polyphonicSearchStore.ts:130-166 | when full it returns false and changes nothing. Otherwise it appends exactly the next voice and returns true. The locks never change |
| PolyphonicSearch.Store.AddFrozenVoice | src/stores/polyphonicSearchStore.ts:130-166 | as above, but freezing the first voice sets all three locks, so the locks keep following the voices |
| PolyphonicSearch.Store.ClearFrozenVoices | src/stores/polyphonicSearchStore.ts:167-172 | no voices and no locks; the parameters are untouched |
| PolyphonicSearch.AsWrittenFirstVoiceLocksNothing | src/stores/polyphonicSearchStore.ts:159-163 | as written, a new store with one frozen voice has no lock set |
| PolyphonicSearch.FirstVoiceLocksSharedParameters | src/stores/polyphonicSearchStore.ts:159-163 | with the guard read before the push, the first voice pins the collection |
| ResultProcessing.NormalizeNote | src/services/resultProcessingService.ts:13-22 | a note keeps its own id; one without takes its inner note's id when set; otherwise it is unchanged |
| ResultProcessing.NormalizeNotes | src/services/resultProcessingService.ts:11-23 | never longer than its input, and every output note has a non-empty id |
| ResultProcessing.NormalizeNotesMembership | src/services/resultProcessingService.ts:11-23 | every output note is an input note normalised, and every input note that gets an id is kept |
| ResultProcessing.NormalizeNotesKeepsIdentified | src/services/resultProcessingService.ts:14 | notes that all have ids are returned unchanged |
| ResultProcessing.NormalizeNotesIdempotent | src/services/resultProcessingService.ts:11-23 | normalising twice equals normalising once |
| ResultProcessing.NormalizeNotesAppend | src/services/resultProcessingService.ts:12-23 | normalisation distributes over concatenation, so order is preserved |
| ResultProcessing.NormalizeNotesDropsUnidentified | src/services/resultProcessingService.ts:23 | notes none of which gets an id normalise to nothing |
| ResultProcessing.FlattenVoiceNotes | src/services/resultProcessingService.ts:25-26 | every flattened note has a non-empty id |
| ResultProcessing.FlattenVoiceNotesAppend | src/services/resultProcessingService.ts:25-26 | flattening distributes over concatenation of voices |
| ResultProcessing.GetMatchNotes | src/services/resultProcessingService.ts:28-40 | a non-empty `notes` array is used, normalised; otherwise non-empty `voices` give their flattened notes; without notes or voices there are none; every note has an id |
| ResultProcessing.MatchNotesDoNotFallBackToVoices | src/services/resultProcessingService.ts:31-33 | a non-empty `notes` array without ids yields no note, even when voices carry some |
| ResultProcessing.GetScoreMatches | src/services/resultProcessingService.ts:42-60 | the score's matches when non-empty. Otherwise it builds one match from the voices, with degree = the score's overall degree, else the first voice's degree, else 0. It is empty exactly when there are neither matches nor voices |
| ResultProcessing.MatchesNotes | src/services/resultProcessingService.ts:63 | every collected note has an id |
| ResultProcessing.GetAllScoreNotes | src/services/resultProcessingService.ts:62-63 | every note has an id; for a score with matches it is their notes, match after match |
| ResultProcessing.VoicesScoreNotes | src/services/resultProcessingService.ts:62-63 | a score given only as voices has exactly its voices' flattened notes |
| ResultProcessing.NormalizeResultMatches | src/services/resultProcessingService.ts:65-81 | as for scores, but the fallback degree is the overall degree, else the maximum match degree, else 0 |
| ResultProcessing.NormalizationsAgreeWithOverallDegree | src/services/resultProcessingService.ts:52 | the two normalisations agree whenever the overall degree is present |
| ResultProcessing.MatchesMax | src/services/resultProcessingService.ts:84 | the fold is at least 0 and every degree (missing ones read as 0), and is 0 or one of them |
| ResultProcessing.MatchesMaxGrows | src/services/resultProcessingService.ts:107-112 | appending matches never lowers the largest degree |
| ResultProcessing.GetMaxMatchDegree | src/services/resultProcessingService.ts:83-86 | at least 0, the current maximum and every match degree, and equal to one of them |
| ResultProcessing.SourcesAreKeys | src/services/resultProcessingService.ts:88-117 | the merged keys are distinct, non-empty, and exactly the sources listed |
| ResultProcessing.KeysAreSeenSources | src/services/resultProcessingService.ts:95-97 | a source has an entry exactly when some result comes from it |
| ResultProcessing.MergedMapEntry | src/services/resultProcessingService.ts:97-113 | each entry is the first result from its source, with all that source's normalised matches in order. Its count is the match count, else the first result's count when non-zero, else 0. Its maximum degree is the largest of the merged match degrees and the first result's `max_match_degree`. Later results' counts and maximum degrees are ignored |
| ResultProcessing.MergeResultsBySource | src/services/resultProcessingService.ts:88-117 | one entry per distinct source, in order of first appearance, each the merged dictionary's entry |
| ResultProcessing.MergedEntries | src/services/resultProcessingService.ts:97-113 | each merged entry has its source and the first result's fields. Its matches are all the source's matches. Its count is the match count, else the first result's count when non-zero, else 0. Its maximum degree is at least every merged match's degree and the first result's `max_match_degree`. Later results' counts and maximum degrees are never read |
| ResultProcessing.EverySourceMerged | src/services/resultProcessingService.ts:92 | every non-empty source gets an entry; a result without source leaves the merge unchanged |
| ResultProcessing.SkippedResultIgnored | src/services/resultProcessingService.ts:92 | removing a result without source does not change the merged dictionary |
| ResultProcessing.EscapeCssId | src/services/resultProcessingService.ts:128 | never shorter; an id without special characters is unchanged |
| ResultProcessing.EscapeCssIdChar | src/services/resultProcessingService.ts:128 | a control character, DEL or one of the listed punctuation characters gets a backslash before it; every other character is left as is |
| ResultProcessing.EscapeCssIdAppend | src/services/resultProcessingService.ts:128 | the escaper works character by character: escaping a concatenation concatenates the escapes |
| ResultProcessing.EscapeCssIdRoundTrip | src/services/resultProcessingService.ts:128 | reading backslash escapes back gives the original id |
| Modes.ModesStore.constructor | src/stores/modesStore.ts:5-19 | eight modes, the first `Tous les modes`, index 0 |
| Modes.ModesStore.SelectedModeName | src/stores/modesStore.ts:27-32 | no name exactly at index 0; otherwise the selected entry, which is a non-empty mode other than the first |
| Modes.ModesStore.SetMode | src/stores/modesStore.ts:39-43 | an index inside the list is selected and any other is ignored; the list never changes and the index stays in bounds |

## Left out

- Tone.js is not part of this model. That covers:
  - `initializeTone`, `Tone.start` and the synthesizer: a failed start is the
    `audioReady` parameter of `PlayScore`;
  - part scheduling, the draw channel's timing and the transport's internal
    clock: a part's callback is `FireNote`, called while started;
  - `updateTempo`, `playNote` and the disposal on unmount.
- Seconds are not modelled. Durations are thirty-second-note ticks, and
  `Tone.Time(token).toSeconds()` is the same multiple of the tick count at any
  one tempo.
- AudioPlayer.StaffTimesIncrease and AudioPlayer.TotalDurationCoversEveryNote
  assume the transport's bpm already equals `tempo` when the score is parsed.
  `playScore` converts note times and durations to seconds at the previous
  bpm (useAudioPlayer.ts:109), and only then sets `bpm.value = tempo` (:117).
  With a different `tempo`, the Part times and the auto-stop are read at the
  new bpm, so the seconds are not one multiple of the ticks.
- AudioPlayer.Player.PlayScore runs as one step. The source stops a running
  session (useAudioPlayer.ts:102-104) before `await initializeTone()` (:106),
  and it assigns `parts` only at :141. Two overlapping calls can both pass
  the guard, and the second then overwrites `parts` without disposing the
  first call's Parts. The model does not capture this interleaving across
  the await.
- The XML parsing with `DOMParser` / `querySelectorAll` is not modelled. A
  score is given as its `<staff>` elements (one per measure and staff), each
  with its `<note>` elements, all layers in document order, and the
  attributes read. Every such element starts a track at time 0, so in
  measured MEI the measures of a score are scheduled at once.
- AudioPlayer.Player.Valid describes one player alone on the transport. Tone's
  transport is one object for the whole page (useAudioPlayer.ts:175, :187,
  :207-208), while each player here owns its `transport` field. Another
  instance's `stopScore`, `pauseScore` or `playScore`, including the
  `stopScore` run when it unmounts (:245-247), changes the transport under
  this player's flags and cancels its auto-stop. That is not modelled, and
  neither are `PauseScore` and `ResumeScore` acting on a transport that
  another instance moved.
- AudioPlayer.FireNote: the auto-stop firing is not a separate operation. It
  is `StopScore`, and the model records only the time it is armed at.
- The DOM side of colouring is not modelled: `colorMatches`,
  `applyColorToNote`, `getNoteColor` and the `CSS.escape` branch of
  `escapeCssId`. Only the fallback escaper is modelled.
- `src/lib/stave.js` is not part of this model. The note fields the
  serialiser reads (`keys`, `noteType`, `duration`, `dots`) are inputs.
- DataManager.CreateNotesQueryParam: the `durationNote` table and the
  rendering of `1/durationNote[d]` are not modelled. They are the parameter
  `durationText`.
- PolyphonicSearch.ToNumber: JavaScript's `Number(text)` grammar is not
  modelled. It is the parameter `parse`. Infinities are not represented.
- `normalizedAlpha` is left out: it is a floating-point division by 100.
- Numbers are reals or integers without rounding. Page numbers, page sizes
  and mode indices are integers; the source's non-integer cases are not
  modelled.
- Strings.UpperCase and Strings.LowerCase map ASCII letters only. The
  source's Unicode case mapping of other letters is not modelled.
- AudioPlayer.ConvertMeiDurationToToneTable: codes that name inherited properties
  of a JavaScript object, such as `constructor`, are treated like any other
  unknown code.
- ResultProcessing.MergeResultsBySource: entries come in order of first
  appearance. JavaScript lists integer-like keys first, and sources that name
  inherited object properties find an existing value; neither is modelled.
- The draw channel's lag behind the audio clock is not modelled. Draw
  callbacks run at the firing itself.

## Findings

| source | as written | input that shows it | evidently intended | confidence | as-written member | corrected member |
|---|---|---|---|---|---|---|
| src/stores/polyphonicSearchStore.ts:143-163 | the lock guard `!sharedParametersLocked` is read after the new voice is pushed, when at least one voice is always frozen, so the branch never runs | a new store, then `addFrozenVoice` with any payload: one voice frozen, and `lockedCollection`, `lockedAlpha`, `lockedIncipitOnly` are all still null | freezing the first voice pins the collection, alpha and incipit-only flag of that moment | not executed | PolyphonicSearch.AsWrittenFirstVoiceLocksNothing | PolyphonicSearch.FirstVoiceLocksSharedParameters |

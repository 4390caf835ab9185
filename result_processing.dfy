/**
 * Normalisation of the search results the server returns, and their merging
 * by score. A result carries its matches either directly or as polyphonic
 * voices; notes are identified by an id that may sit on the note itself or on
 * the inner note it wraps. Optional fields of the server's records are
 * `Option`s; degrees are reals.
 */
module ResultProcessing {
  import opened Wrappers

  /** The inner note a matched note may wrap; only its id is read. */
  datatype InnerNote = InnerNote(id: Option<string>)

  datatype Note = Note(
    inner: Option<InnerNote>,
    noteDeg: real,
    pitchDeg: real,
    durationDeg: real,
    sequencingDeg: real,
    id: Option<string>)

  datatype PolyphonicVoice = PolyphonicVoice(
    voiceIndex: int,
    start: int,
    end: int,
    voiceDegree: Option<real>,
    notes: Option<seq<Note>>)

  datatype Match = Match(overallDegree: Option<real>, notes: Option<seq<Note>>, voices: Option<seq<PolyphonicVoice>>)

  /**
   * A result of the search for one score. It also serves as the carrier of
   * matches that colouring reads, whose fields are a subset of these.
   */
  datatype DataResults = DataResults(
    source: Option<string>,
    numberOfOccurrences: Option<int>,
    maxMatchDegree: Option<real>,
    overallDegree: Option<real>,
    matches: Option<seq<Match>>,
    voices: Option<seq<PolyphonicVoice>>)

  /** A present, non-empty array. */
  predicate NonEmpty<T>(a: Option<seq<T>>) {
    a.Some? && |a.value| > 0
  }

  predicate Identified(n: Note) {
    Truthy(n.id)
  }

  /** A note without an id of its own takes its inner note's id when that one is set. */
  function NormalizeNote(n: Note): (r: Note)
    ensures Identified(n) ==> r == n
    ensures !Identified(n) && n.inner.Some? && Truthy(n.inner.value.id) ==> r == n.(id := n.inner.value.id)
    ensures !Identified(r) ==> r == n
  {
    if Truthy(n.id) then n
    else if n.inner.Some? && Truthy(n.inner.value.id) then n.(id := n.inner.value.id)
    else n
  }

  /**
   * `normalizeNotes` (resultProcessingService.ts:11-23): every note normalised,
   * in order, and those still without an id dropped.
   */
  function NormalizeNotes(notes: seq<Note>): (r: seq<Note>)
    ensures |r| <= |notes|
    ensures forall i | 0 <= i < |r| :: Identified(r[i])
  {
    if notes == [] then []
    else
      var n := NormalizeNote(notes[0]);
      (if Identified(n) then [n] else []) + NormalizeNotes(notes[1..])
  }

  /** Every normalised note comes from an input note, and every input note that gets an id is kept. */
  lemma {:induction false} NormalizeNotesMembership(notes: seq<Note>)
    ensures forall n | n in NormalizeNotes(notes) :: exists m | m in notes :: NormalizeNote(m) == n
    ensures forall m | m in notes && Identified(NormalizeNote(m)) :: NormalizeNote(m) in NormalizeNotes(notes)
  {
    if notes != [] {
      NormalizeNotesMembership(notes[1..]);
      assert notes == [notes[0]] + notes[1..];
      forall n | n in NormalizeNotes(notes) ensures exists m | m in notes :: NormalizeNote(m) == n {
        if n in NormalizeNotes(notes[1..]) {
          var m :| m in notes[1..] && NormalizeNote(m) == n;
          assert m in notes;
        } else {
          assert NormalizeNote(notes[0]) == n;
        }
      }
    }
  }

  /** Notes that all have ids are left exactly as they are. */
  lemma {:induction false} NormalizeNotesKeepsIdentified(notes: seq<Note>)
    requires forall i | 0 <= i < |notes| :: Identified(notes[i])
    ensures NormalizeNotes(notes) == notes
  {
    if notes != [] {
      NormalizeNotesKeepsIdentified(notes[1..]);
    }
  }

  /** Normalising twice is normalising once. */
  lemma NormalizeNotesIdempotent(notes: seq<Note>)
    ensures NormalizeNotes(NormalizeNotes(notes)) == NormalizeNotes(notes)
  {
    NormalizeNotesKeepsIdentified(NormalizeNotes(notes));
  }

  /** Normalisation works note by note, so it distributes over concatenation. */
  lemma {:induction false} NormalizeNotesAppend(a: seq<Note>, b: seq<Note>)
    ensures NormalizeNotes(a + b) == NormalizeNotes(a) + NormalizeNotes(b)
  {
    if a != [] {
      assert (a + b)[1..] == a[1..] + b;
      NormalizeNotesAppend(a[1..], b);
    } else {
      assert a + b == b;
    }
  }

  /** `flattenVoiceNotes` (resultProcessingService.ts:25-26): the voices' normalised notes, voice after voice. */
  function FlattenVoiceNotes(voices: seq<PolyphonicVoice>): (r: seq<Note>)
    ensures forall i | 0 <= i < |r| :: Identified(r[i])
  {
    if voices == [] then []
    else NormalizeNotes(voices[0].notes.GetOr([])) + FlattenVoiceNotes(voices[1..])
  }

  /** Flattening distributes over concatenation of the voices. */
  lemma {:induction false} FlattenVoiceNotesAppend(a: seq<PolyphonicVoice>, b: seq<PolyphonicVoice>)
    ensures FlattenVoiceNotes(a + b) == FlattenVoiceNotes(a) + FlattenVoiceNotes(b)
  {
    if a != [] {
      assert (a + b)[1..] == a[1..] + b;
      FlattenVoiceNotesAppend(a[1..], b);
    } else {
      assert a + b == b;
    }
  }

  /**
   * `getMatchNotes` (resultProcessingService.ts:28-40): a non-empty `notes`
   * array wins, normalised; otherwise the voices' notes; otherwise nothing.
   */
  function GetMatchNotes(m: Option<Match>): (r: seq<Note>)
    ensures forall i | 0 <= i < |r| :: Identified(r[i])
    ensures m.None? ==> r == []
    ensures m.Some? && NonEmpty(m.value.notes) ==> r == NormalizeNotes(m.value.notes.value)
    ensures m.Some? && !NonEmpty(m.value.notes) && NonEmpty(m.value.voices) ==> r == FlattenVoiceNotes(m.value.voices.value)
    ensures m.Some? && !NonEmpty(m.value.notes) && !NonEmpty(m.value.voices) ==> r == []
  {
    if m.None? then []
    else if NonEmpty(m.value.notes) then NormalizeNotes(m.value.notes.value)
    else if NonEmpty(m.value.voices) then FlattenVoiceNotes(m.value.voices.value)
    else []
  }

  /**
   * A match whose `notes` all lack ids yields no note, even when its voices
   * carry identified notes: the voices are read only when `notes` is empty.
   */
  lemma MatchNotesDoNotFallBackToVoices(m: Match)
    requires NonEmpty(m.notes)
    requires forall i | 0 <= i < |m.notes.value| :: !Identified(NormalizeNote(m.notes.value[i]))
    ensures GetMatchNotes(Some(m)) == []
  {
    NormalizeNotesDropsUnidentified(m.notes.value);
  }

  /** Notes none of which gets an id normalise to nothing. */
  lemma {:induction false} NormalizeNotesDropsUnidentified(notes: seq<Note>)
    requires forall i | 0 <= i < |notes| :: !Identified(NormalizeNote(notes[i]))
    ensures NormalizeNotes(notes) == []
  {
    if notes != [] {
      NormalizeNotesDropsUnidentified(notes[1..]);
    }
  }

  /** The match built from voices alone, with the degree given. */
  function VoicesMatch(degree: real, voices: seq<PolyphonicVoice>): Match {
    Match(Some(degree), Some(FlattenVoiceNotes(voices)), Some(voices))
  }

  /**
   * `getScoreMatches` (resultProcessingService.ts:42-60): the score's own
   * matches when there are some; otherwise one match made of its voices,
   * whose degree is the score's overall degree, else the first voice's, else 0.
   */
  function GetScoreMatches(score: Option<DataResults>): (r: seq<Match>)
    ensures score.Some? && NonEmpty(score.value.matches) ==> r == score.value.matches.value
    ensures score.Some? && !NonEmpty(score.value.matches) && NonEmpty(score.value.voices) ==>
      var vs := score.value.voices.value;
      && |r| == 1 && r[0].voices == Some(vs) && r[0].notes == Some(FlattenVoiceNotes(vs))
      && r[0].overallDegree == Some(score.value.overallDegree.GetOr(vs[0].voiceDegree.GetOr(0.0)))
    ensures r == [] <==> score.None? || (!NonEmpty(score.value.matches) && !NonEmpty(score.value.voices))
  {
    if score.None? then []
    else if NonEmpty(score.value.matches) then score.value.matches.value
    else if NonEmpty(score.value.voices) then
      var vs := score.value.voices.value;
      [VoicesMatch(score.value.overallDegree.GetOr(vs[0].voiceDegree.GetOr(0.0)), vs)]
    else []
  }

  /** The notes of the matches, match after match. */
  function MatchesNotes(ms: seq<Match>): (r: seq<Note>)
    ensures forall i | 0 <= i < |r| :: Identified(r[i])
  {
    if ms == [] then [] else GetMatchNotes(Some(ms[0])) + MatchesNotes(ms[1..])
  }

  /** `getAllScoreNotes` (resultProcessingService.ts:62-63): the notes of all the score's matches. */
  function GetAllScoreNotes(score: Option<DataResults>): (r: seq<Note>)
    ensures forall i | 0 <= i < |r| :: Identified(r[i])
    ensures score.Some? && NonEmpty(score.value.matches) ==> r == MatchesNotes(score.value.matches.value)
  {
    MatchesNotes(GetScoreMatches(score))
  }

  /** A score given only as voices has, as notes, exactly its voices' flattened notes. */
  lemma VoicesScoreNotes(score: DataResults)
    requires !NonEmpty(score.matches) && NonEmpty(score.voices)
    ensures GetAllScoreNotes(Some(score)) == FlattenVoiceNotes(score.voices.value)
  {
    var ms := GetScoreMatches(Some(score));
    assert ms[1..] == [];
    NormalizeNotesKeepsIdentified(FlattenVoiceNotes(score.voices.value));
    assert MatchesNotes(ms[1..]) == [];
    assert MatchesNotes(ms) == GetMatchNotes(Some(ms[0])) + MatchesNotes(ms[1..]);
  }

  /**
   * `normalizeResultMatches` (resultProcessingService.ts:65-81): as
   * GetScoreMatches, but a voices-only result takes its maximum match degree
   * before 0 as the fallback degree.
   */
  function NormalizeResultMatches(result: DataResults): (r: seq<Match>)
    ensures NonEmpty(result.matches) ==> r == result.matches.value
    ensures !NonEmpty(result.matches) && NonEmpty(result.voices) ==>
      var vs := result.voices.value;
      && |r| == 1 && r[0].voices == Some(vs) && r[0].notes == Some(FlattenVoiceNotes(vs))
      && r[0].overallDegree == Some(result.overallDegree.GetOr(result.maxMatchDegree.GetOr(0.0)))
    ensures r == [] <==> !NonEmpty(result.matches) && !NonEmpty(result.voices)
  {
    if NonEmpty(result.matches) then result.matches.value
    else if NonEmpty(result.voices) then
      VoicesResultMatches(result)
    else []
  }

  function VoicesResultMatches(result: DataResults): seq<Match>
    requires NonEmpty(result.voices)
  {
    [VoicesMatch(result.overallDegree.GetOr(result.maxMatchDegree.GetOr(0.0)), result.voices.value)]
  }

  /** The two normalisations agree whenever the result states its overall degree. */
  lemma NormalizationsAgreeWithOverallDegree(result: DataResults)
    requires result.overallDegree.Some?
    ensures NormalizeResultMatches(result) == GetScoreMatches(Some(result))
  {
  }

  function Max(a: real, b: real): (r: real)
    ensures r >= a && r >= b && (r == a || r == b)
  {
    if a >= b then a else b
  }

  /** The reduce of `getMaxMatchDegree`: the largest overall degree, missing ones read as 0, from 0. */
  function MatchesMax(ms: seq<Match>): (r: real)
    ensures r >= 0.0
    ensures forall i | 0 <= i < |ms| :: r >= ms[i].overallDegree.GetOr(0.0)
    ensures r == 0.0 || exists i | 0 <= i < |ms| :: r == ms[i].overallDegree.GetOr(0.0)
  {
    if ms == [] then 0.0
    else Max(MatchesMax(ms[..|ms| - 1]), ms[|ms| - 1].overallDegree.GetOr(0.0))
  }

  /** The largest degree of a longer list of matches is no smaller. */
  lemma MatchesMaxGrows(a: seq<Match>, b: seq<Match>)
    ensures MatchesMax(a + b) >= MatchesMax(a)
  {
    if MatchesMax(a) != 0.0 {
      var i :| 0 <= i < |a| && MatchesMax(a) == a[i].overallDegree.GetOr(0.0);
      assert (a + b)[i] == a[i];
    }
  }

  /**
   * `getMaxMatchDegree` (resultProcessingService.ts:83-86): the largest of 0,
   * every match's overall degree and the current maximum.
   */
  function GetMaxMatchDegree(ms: seq<Match>, currentMax: Option<real>): (r: real)
    ensures r >= 0.0 && r >= currentMax.GetOr(0.0)
    ensures forall i | 0 <= i < |ms| :: r >= ms[i].overallDegree.GetOr(0.0)
    ensures || r == 0.0 || r == currentMax.GetOr(0.0)
            || exists i | 0 <= i < |ms| :: r == ms[i].overallDegree.GetOr(0.0)
  {
    Max(MatchesMax(ms), currentMax.GetOr(0.0))
  }

  // ------------------------------------------------------------ merging

  /** `a || b || 0` on counts: the first non-zero one. */
  function CountOr(count: nat, earlier: Option<int>): int {
    if count != 0 then count else if earlier.Some? && earlier.value != 0 then earlier.value else 0
  }

  /** Merges one result with a source into the entry already held for that source, if any (resultProcessingService.ts:94-113). */
  function MergeStep(existing: Option<DataResults>, result: DataResults): DataResults {
    var normalized := NormalizeResultMatches(result);
    match existing
    case None =>
      result.(matches := Some(normalized),
              numberOfOccurrences := Some(CountOr(|normalized|, result.numberOfOccurrences)),
              maxMatchDegree := Some(GetMaxMatchDegree(normalized, result.maxMatchDegree)))
    case Some(e) =>
      var merged := e.matches.GetOr([]) + normalized;
      e.(matches := Some(merged),
         numberOfOccurrences := Some(CountOr(|merged|, e.numberOfOccurrences)),
         maxMatchDegree := Some(GetMaxMatchDegree(merged, e.maxMatchDegree)))
  }

  /** The dictionary after the results so far, keyed by source. */
  function MergedMap(results: seq<DataResults>): map<string, DataResults> {
    if results == [] then map[]
    else
      var m := MergedMap(results[..|results| - 1]);
      var r := results[|results| - 1];
      if !Truthy(r.source) then m
      else m[r.source.value := MergeStep(if r.source.value in m then Some(m[r.source.value]) else None, r)]
  }

  /** The distinct non-empty sources in order of first appearance: the dictionary's key order. */
  function Sources(results: seq<DataResults>): seq<string> {
    if results == [] then []
    else
      var s := Sources(results[..|results| - 1]);
      var r := results[|results| - 1];
      if !Truthy(r.source) || r.source.value in s then s else s + [r.source.value]
  }

  /** The first result from `src`. */
  function FirstFor(results: seq<DataResults>, src: string): Option<DataResults> {
    if results == [] then None
    else
      var first := FirstFor(results[..|results| - 1], src);
      if first.Some? then first
      else if results[|results| - 1].source == Some(src) then Some(results[|results| - 1])
      else None
  }

  /** The normalised matches of every result from `src`, in input order. */
  function MatchesFor(results: seq<DataResults>, src: string): seq<Match> {
    if results == [] then []
    else
      var earlier := MatchesFor(results[..|results| - 1], src);
      var r := results[|results| - 1];
      if r.source == Some(src) then earlier + NormalizeResultMatches(r) else earlier
  }

  /**
   * What the merged entry of `src` is: the first result from `src` with all
   * matches of `src`, the match count (or the first result's non-zero count,
   * or 0) and the largest of the match degrees and the first result's
   * maximum degree. Later results' counts and maximum degrees are not read.
   */
  function MergedEntry(first: DataResults, matches: seq<Match>): DataResults {
    first.(matches := Some(matches),
           numberOfOccurrences := Some(CountOr(|matches|, first.numberOfOccurrences)),
           maxMatchDegree := Some(GetMaxMatchDegree(matches, first.maxMatchDegree)))
  }

  /** The sources are distinct, non-empty, and exactly the dictionary's keys. */
  lemma {:induction false} SourcesAreKeys(results: seq<DataResults>)
    ensures forall i, j | 0 <= i < j < |Sources(results)| :: Sources(results)[i] != Sources(results)[j]
    ensures forall s :: s in Sources(results) <==> s in MergedMap(results)
    ensures forall s | s in Sources(results) :: s != ""
  {
    if results != [] {
      SourcesAreKeys(results[..|results| - 1]);
    }
  }

  /** A source is a key exactly when some result comes from it. */
  lemma {:induction false} KeysAreSeenSources(results: seq<DataResults>, src: string)
    requires src != ""
    ensures src in MergedMap(results) <==> FirstFor(results, src).Some?
    ensures FirstFor(results, src).None? ==> MatchesFor(results, src) == []
    ensures FirstFor(results, src).Some? ==> FirstFor(results, src).value.source == Some(src)
  {
    if results != [] {
      KeysAreSeenSources(results[..|results| - 1], src);
    }
  }

  /** Closed form of every dictionary entry. */
  lemma {:induction false} MergedMapEntry(results: seq<DataResults>, src: string)
    requires src in MergedMap(results)
    ensures src != "" && FirstFor(results, src).Some?
    ensures MergedMap(results)[src] == MergedEntry(FirstFor(results, src).value, MatchesFor(results, src))
  {
    SourcesAreKeys(results);
    KeysAreSeenSources(results, src);
    var prefix := results[..|results| - 1];
    var r := results[|results| - 1];
    var m := MergedMap(prefix);
    if r.source != Some(src) {
      MergedMapEntry(prefix, src);
    } else if src in m {
      MergedMapEntry(prefix, src);
      var before := MatchesFor(prefix, src);
      var first := FirstFor(prefix, src).value;
      var merged := before + NormalizeResultMatches(r);
      MatchesMaxGrows(before, NormalizeResultMatches(r));
      assert MergedMap(results)[src] == MergeStep(Some(m[src]), r);
      if |merged| == 0 {
        assert |before| == 0;
      }
      assert MergedMap(results)[src] == MergedEntry(first, merged);
    } else {
      KeysAreSeenSources(prefix, src);
      assert FirstFor(results, src) == Some(r);
      assert MatchesFor(results, src) == NormalizeResultMatches(r) by {
        assert MatchesFor(prefix, src) == [];
      }
      assert MergedMap(results)[src] == MergeStep(None, r);
    }
  }

  /**
   * `mergeResultsBySource` (resultProcessingService.ts:88-117): one entry per
   * distinct non-empty source, in order of first appearance.
   */
  method MergeResultsBySource(results: seq<DataResults>) returns (merged: seq<DataResults>)
    ensures |merged| == |Sources(results)|
    ensures forall j | 0 <= j < |merged| :: Sources(results)[j] in MergedMap(results) && merged[j] == MergedMap(results)[Sources(results)[j]]
  {
    var mergedResults: map<string, DataResults> := map[];
    var keys: seq<string> := [];
    var i := 0;
    while i < |results|
      invariant i <= |results|
      invariant mergedResults == MergedMap(results[..i])
      invariant keys == Sources(results[..i])
    {
      assert results[..i + 1][..i] == results[..i];
      var result := results[i];
      if Truthy(result.source) {
        var src := result.source.value;
        var normalizedMatches := NormalizeResultMatches(result);
        SourcesAreKeys(results[..i]);
        if src !in mergedResults {
          mergedResults := mergedResults[src := result.(
            matches := Some(normalizedMatches),
            numberOfOccurrences := Some(CountOr(|normalizedMatches|, result.numberOfOccurrences)),
            maxMatchDegree := Some(GetMaxMatchDegree(normalizedMatches, result.maxMatchDegree)))];
          keys := keys + [src];
        } else {
          var existingResult := mergedResults[src];
          var mergedMatches := existingResult.matches.GetOr([]) + normalizedMatches;
          mergedResults := mergedResults[src := existingResult.(
            matches := Some(mergedMatches),
            numberOfOccurrences := Some(CountOr(|mergedMatches|, existingResult.numberOfOccurrences)),
            maxMatchDegree := Some(GetMaxMatchDegree(mergedMatches, existingResult.maxMatchDegree)))];
        }
      }
      i := i + 1;
    }
    assert results[..i] == results;
    SourcesAreKeys(results);
    merged := seq(|keys|, j requires 0 <= j < |keys| && keys[j] in mergedResults => mergedResults[keys[j]]);
  }

  /**
   * What each merged entry holds: the source it is for, the fields of the
   * first result from it, and all its normalised matches in input order.
   * Its count is the match count, else the first result's count when that
   * is non-zero, else 0. Its maximum degree is at least every merged match's
   * degree and the first result's maximum degree. Later results' counts and
   * maximum degrees are never read.
   */
  lemma MergedEntries(results: seq<DataResults>, j: nat)
    requires j < |Sources(results)|
    ensures Sources(results)[j] in MergedMap(results) && FirstFor(results, Sources(results)[j]).Some?
    ensures MergedMap(results)[Sources(results)[j]].maxMatchDegree.Some?
    ensures var src := Sources(results)[j];
      var e := MergedMap(results)[src];
      var first := FirstFor(results, src).value;
      && e.source == Some(src) && e.overallDegree == first.overallDegree && e.voices == first.voices
      && e.matches == Some(MatchesFor(results, src))
      && e.numberOfOccurrences == Some(CountOr(|MatchesFor(results, src)|, first.numberOfOccurrences))
      && (forall k | 0 <= k < |MatchesFor(results, src)| ::
            e.maxMatchDegree.value >= MatchesFor(results, src)[k].overallDegree.GetOr(0.0))
      && e.maxMatchDegree.value >= first.maxMatchDegree.GetOr(0.0)
  {
    var src := Sources(results)[j];
    SourcesAreKeys(results);
    MergedMapEntry(results, src);
    KeysAreSeenSources(results, src);
  }

  /** Every non-empty source of the input has an entry, and a result without one contributes nothing. */
  lemma {:induction false} EverySourceMerged(results: seq<DataResults>, i: nat)
    requires i < |results|
    ensures Truthy(results[i].source) ==> results[i].source.value in Sources(results)
    ensures !Truthy(results[i].source) ==> MergedMap(results) == MergedMap(results[..i] + results[i + 1..])
  {
    if Truthy(results[i].source) {
      SourcesAreKeys(results);
      KeysAreSeenSources(results, results[i].source.value);
      FirstForFinds(results, i);
    } else {
      SkippedResultIgnored(results, i);
    }
  }

  lemma {:induction false} FirstForFinds(results: seq<DataResults>, i: nat)
    requires i < |results| && results[i].source.Some?
    ensures FirstFor(results, results[i].source.value).Some?
  {
    if i < |results| - 1 {
      FirstForFinds(results[..|results| - 1], i);
    }
  }

  lemma {:induction false} SkippedResultIgnored(results: seq<DataResults>, i: nat)
    requires i < |results| && !Truthy(results[i].source)
    ensures MergedMap(results) == MergedMap(results[..i] + results[i + 1..])
  {
    var without := results[..i] + results[i + 1..];
    if i == |results| - 1 {
      assert without == results[..|results| - 1];
    } else {
      var prefix := results[..|results| - 1];
      SkippedResultIgnored(prefix, i);
      assert without[..|without| - 1] == prefix[..i] + prefix[i + 1..];
      assert without[|without| - 1] == results[|results| - 1];
      assert MergedMap(without[..|without| - 1]) == MergedMap(prefix);
    }
  }

  // ------------------------------------------------------------ CSS ids

  /** The characters the fallback of `escapeCssId` escapes: controls, DEL and the listed punctuation. */
  predicate NeedsEscape(c: char) {
    c <= 0x1F as char || c == 0x7F as char
    || c in "!\"#$%&'()*+,./:;<=>?@[\\]^`{|}~"
  }

  /** The fallback branch of `escapeCssId` (resultProcessingService.ts:128): a backslash before each such character. */
  function EscapeCssId(id: string): (r: string)
    ensures |r| >= |id|
    ensures (forall i | 0 <= i < |id| :: !NeedsEscape(id[i])) ==> r == id
  {
    if id == [] then []
    else (if NeedsEscape(id[0]) then ['\\', id[0]] else [id[0]]) + EscapeCssId(id[1..])
  }

  /** One character escapes to a backslash and itself exactly when it needs escaping, else to itself. */
  lemma EscapeCssIdChar(c: char)
    ensures NeedsEscape(c) ==> EscapeCssId([c]) == ['\\', c]
    ensures !NeedsEscape(c) ==> EscapeCssId([c]) == [c]
  {
    assert [c][1..] == [];
  }

  /** Escaping works character by character: it distributes over concatenation. */
  lemma {:induction false} EscapeCssIdAppend(a: string, b: string)
    ensures EscapeCssId(a + b) == EscapeCssId(a) + EscapeCssId(b)
  {
    if a == [] {
      assert a + b == b;
    } else {
      assert (a + b)[0] == a[0];
      assert (a + b)[1..] == a[1..] + b;
      EscapeCssIdAppend(a[1..], b);
    }
  }

  /** Reading an escaped identifier: a backslash stands for the character after it. */
  function UnescapeCssId(s: string): string
    decreases |s|
  {
    if s == [] then []
    else if s[0] == '\\' && |s| >= 2 then [s[1]] + UnescapeCssId(s[2..])
    else [s[0]] + UnescapeCssId(s[1..])
  }

  /** Escaping loses nothing: the identifier reads back unchanged. */
  lemma {:induction false} EscapeCssIdRoundTrip(id: string)
    ensures UnescapeCssId(EscapeCssId(id)) == id
  {
    if id != [] {
      EscapeCssIdRoundTrip(id[1..]);
      var e := EscapeCssId(id);
      if NeedsEscape(id[0]) {
        assert e[2..] == EscapeCssId(id[1..]);
      } else {
        assert id[0] != '\\';
        assert e[1..] == EscapeCssId(id[1..]);
      }
      assert id == [id[0]] + id[1..];
    }
  }
}

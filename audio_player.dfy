/**
 * The playback core of the score player (src/composables/useAudioPlayer.ts)
 * without Tone.js and the DOM: the MEI duration lookup, the per-staff time
 * cursor that turns note elements into timed notes, the total duration that
 * arms the auto-stop, and the transport's three observable flags.
 *
 * Times and durations are counted in thirty-second-note ticks: a whole note
 * lasts 32 ticks, a quarter note 8. The player measures them in seconds at
 * the transport's tempo; every length is the same multiple of its tick count.
 */
module AudioPlayer {
  import opened Wrappers
  import opened Strings

  // ---------------------------------------------------------------- durations

  /** The MEI `dur` codes the lookup table knows. */
  const KnownCodes: seq<string> := ["1", "2", "4", "8", "16", "32"]

  /** Maps an MEI `dur` code to a Tone.js duration token; unknown codes become a quarter note. */
  function ConvertMeiDurationToTone(meiDuration: string): string {
    if meiDuration == "1" then "1n"
    else if meiDuration == "2" then "2n"
    else if meiDuration == "4" then "4n"
    else if meiDuration == "8" then "8n"
    else if meiDuration == "16" then "16n"
    else if meiDuration == "32" then "32n"
    else "4n"
  }

  /** The lookup appends `n` to every known code and sends every other code to a quarter note. */
  lemma ConvertMeiDurationToToneTable(meiDuration: string)
    ensures meiDuration in KnownCodes ==> ConvertMeiDurationToTone(meiDuration) == meiDuration + "n"
    ensures meiDuration !in KnownCodes ==> ConvertMeiDurationToTone(meiDuration) == "4n"
  {
  }

  /** Length of a duration token in thirty-second-note ticks. */
  function TokenTicks(token: string): (t: nat)
    ensures t >= 1
  {
    if token == "1n" then 32
    else if token == "2n" then 16
    else if token == "4n" then 8
    else if token == "8n" then 4
    else if token == "16n" then 2
    else if token == "32n" then 1
    else 8
  }

  /** A code of `d` divides a whole note into `d` parts: the token lasts 32/d ticks. */
  lemma CodeTicksDivideWholeNote(code: string)
    requires code in KnownCodes
    ensures TokenTicks(ConvertMeiDurationToTone(code)) * DecimalValue(code) == 32
  {
  }

  /** The token of a note's `dur` attribute, read as "4" when absent or empty. */
  function NoteDuration(dur: Option<string>): string {
    ConvertMeiDurationToTone(if Truthy(dur) then dur.value else "4")
  }

  /** A missing or empty `dur` gives a quarter note; a present one goes through the lookup. */
  lemma NoteDurationDefault(dur: Option<string>)
    ensures !Truthy(dur) ==> NoteDuration(dur) == "4n"
    ensures Truthy(dur) ==> NoteDuration(dur) == ConvertMeiDurationToTone(dur.value)
  {
  }

  // ------------------------------------------------------------ the timeline

  /** A `<note>` element of a staff, with the attributes the parser reads. */
  datatype NoteElement = NoteElement(pname: Option<string>, oct: Option<string>, dur: Option<string>, xmlId: Option<string>)

  /** A playable note: pitch such as "C4", duration token, onset in ticks, element id. */
  datatype ParsedNote = ParsedNote(pitch: string, duration: string, time: nat, id: string)

  type Track = seq<ParsedNote>

  /** Only notes with both a pitch name and an octave are played. */
  predicate Accepted(e: NoteElement) {
    Truthy(e.pname) && Truthy(e.oct)
  }

  /** Identifier given to a note element without `xml:id`: staffs are numbered from 1, notes from 0. */
  function FallbackId(staffIndex: nat, noteIndex: nat): string {
    "staff-" + NatToString(staffIndex + 1) + "-note-" + NatToString(noteIndex)
  }

  /** The note parsed from accepted element `e`, the `noteIndex`-th note element of its staff. */
  function MakeNote(e: NoteElement, staffIndex: nat, noteIndex: nat, time: nat): (n: ParsedNote)
    requires Accepted(e)
    ensures n.time == time && n.duration == NoteDuration(e.dur)
  {
    ParsedNote(
      UpperCase(e.pname.value) + e.oct.value,
      NoteDuration(e.dur),
      time,
      if Truthy(e.xmlId) then e.xmlId.value else FallbackId(staffIndex, noteIndex))
  }

  /** Ticks taken by a note element: its duration when accepted, nothing when skipped. */
  function ElementTicks(e: NoteElement): nat {
    if Accepted(e) then TokenTicks(NoteDuration(e.dur)) else 0
  }

  /** The cursor after the first `k` note elements of a staff. */
  function CursorAfter(staff: seq<NoteElement>, k: nat): nat
    requires k <= |staff|
  {
    if k == 0 then 0 else CursorAfter(staff, k - 1) + ElementTicks(staff[k - 1])
  }

  /** The notes parsed from the first `k` note elements of the staff numbered `staffIndex`. */
  function StaffNotes(staff: seq<NoteElement>, staffIndex: nat, k: nat): Track
    requires k <= |staff|
  {
    if k == 0 then []
    else
      StaffNotes(staff, staffIndex, k - 1)
      + (if Accepted(staff[k - 1]) then [MakeNote(staff[k - 1], staffIndex, k - 1, CursorAfter(staff, k - 1))] else [])
  }

  /** Parses one staff, advancing the cursor by each accepted note's length (useAudioPlayer.ts:51-72). */
  method ParseStaff(staff: seq<NoteElement>, staffIndex: nat) returns (parsedNotes: Track)
    ensures parsedNotes == StaffNotes(staff, staffIndex, |staff|)
  {
    parsedNotes := [];
    var currentTime: nat := 0;
    var noteIndex := 0;
    while noteIndex < |staff|
      invariant noteIndex <= |staff|
      invariant parsedNotes == StaffNotes(staff, staffIndex, noteIndex)
      invariant currentTime == CursorAfter(staff, noteIndex)
    {
      var noteEl := staff[noteIndex];
      if Truthy(noteEl.pname) && Truthy(noteEl.oct) {
        var tonePitch := UpperCase(noteEl.pname.value) + noteEl.oct.value;
        var toneDuration := ConvertMeiDurationToTone(if Truthy(noteEl.dur) then noteEl.dur.value else "4");
        var id := if Truthy(noteEl.xmlId) then noteEl.xmlId.value else FallbackId(staffIndex, noteIndex);
        parsedNotes := parsedNotes + [ParsedNote(tonePitch, toneDuration, currentTime, id)];
        currentTime := currentTime + TokenTicks(toneDuration);
      }
      noteIndex := noteIndex + 1;
    }
  }

  /** The tracks parsed from the first `k` staffs: staffs without an accepted note give none. */
  function Tracks(staffs: seq<seq<NoteElement>>, k: nat): seq<Track>
    requires k <= |staffs|
  {
    if k == 0 then []
    else
      var notes := StaffNotes(staffs[k - 1], k - 1, |staffs[k - 1]|);
      Tracks(staffs, k - 1) + (if |notes| > 0 then [notes] else [])
  }

  /** Turns a score, given as its staffs' note elements in document order, into tracks (useAudioPlayer.ts:43-80). */
  method ParseMeiToTracks(staffs: seq<seq<NoteElement>>) returns (parsedTracks: seq<Track>)
    ensures parsedTracks == Tracks(staffs, |staffs|)
    ensures forall t | 0 <= t < |parsedTracks| :: parsedTracks[t] != []
    ensures |parsedTracks| <= |staffs|
  {
    parsedTracks := [];
    var staffIndex := 0;
    while staffIndex < |staffs|
      invariant staffIndex <= |staffs|
      invariant parsedTracks == Tracks(staffs, staffIndex)
      invariant forall t | 0 <= t < |parsedTracks| :: parsedTracks[t] != []
      invariant |parsedTracks| <= staffIndex
    {
      var parsedNotes := ParseStaff(staffs[staffIndex], staffIndex);
      if |parsedNotes| > 0 {
        parsedTracks := parsedTracks + [parsedNotes];
      }
      staffIndex := staffIndex + 1;
    }
  }

  // ------------------------------------------------- properties of a staff

  /** Sum of the lengths of the first `j` notes of a track. */
  function TicksBefore(track: Track, j: nat): nat
    requires j <= |track|
  {
    if j == 0 then 0 else TicksBefore(track, j - 1) + TokenTicks(track[j - 1].duration)
  }

  /** The moment a note stops sounding. */
  function NoteEnd(n: ParsedNote): nat {
    n.time + TokenTicks(n.duration)
  }

  /** Every note of a track starts when the notes before it have sounded: its onset is the sum of their lengths. */
  predicate RunningSums(track: Track) {
    forall j {:trigger track[j].time} | 0 <= j < |track| :: track[j].time == TicksBefore(track, j)
  }

  /**
   * Each note of a staff starts when the notes before it have sounded: its time
   * is the sum of their lengths, so the first starts at 0 and each one at the
   * end of its predecessor; the cursor after the staff is the sum of them all.
   */
  lemma {:induction false} StaffTimesAreRunningSums(staff: seq<NoteElement>, staffIndex: nat, k: nat)
    requires k <= |staff|
    ensures var out := StaffNotes(staff, staffIndex, k);
      CursorAfter(staff, k) == TicksBefore(out, |out|) && RunningSums(out)
  {
    if k > 0 {
      StaffTimesAreRunningSums(staff, staffIndex, k - 1);
      var prev, out := StaffNotes(staff, staffIndex, k - 1), StaffNotes(staff, staffIndex, k);
      if Accepted(staff[k - 1]) {
        var n := MakeNote(staff[k - 1], staffIndex, k - 1, CursorAfter(staff, k - 1));
        assert out == prev + [n];
        RunningSumsExtend(prev, n, out, CursorAfter(staff, k));
      } else {
        assert out == prev;
        assert CursorAfter(staff, k) == CursorAfter(staff, k - 1);
      }
    }
  }

  /** Onsets start at 0 and each note starts where the previous one ends. */
  predicate Contiguous(track: Track) {
    && (|track| > 0 ==> track[0].time == 0)
    && (forall j | 0 < j < |track| :: track[j].time == NoteEnd(track[j - 1]))
  }

  /** Appending a note that starts when the others have sounded keeps every onset a running sum. */
  lemma RunningSumsExtend(prev: Track, n: ParsedNote, out: Track, cursor: nat)
    requires RunningSums(prev) && n.time == TicksBefore(prev, |prev|)
    requires out == prev + [n] && cursor == n.time + TokenTicks(n.duration)
    ensures cursor == TicksBefore(out, |out|) && RunningSums(out)
  {
    TicksBeforeIgnoresLater(prev, n, |prev|);
    assert TicksBefore(out, |out|) == TicksBefore(out, |prev|) + TokenTicks(n.duration);
    forall j | 0 <= j < |out| ensures out[j].time == TicksBefore(out, j) {
      TicksBeforeIgnoresLater(prev, n, j);
      if j < |prev| {
        assert out[j] == prev[j];
      }
    }
  }

  /** Appending a note does not change the lengths of the notes before it. */
  lemma {:induction false} TicksBeforeIgnoresLater(prev: Track, n: ParsedNote, j: nat)
    requires j <= |prev|
    ensures TicksBefore(prev + [n], j) == TicksBefore(prev, j)
  {
    if j > 0 {
      TicksBeforeIgnoresLater(prev, n, j - 1);
      assert (prev + [n])[j - 1] == prev[j - 1];
    }
  }

  /** Within a staff onsets start at 0 and strictly increase, each note starting where the previous one ends. */
  lemma StaffTimesIncrease(staff: seq<NoteElement>, staffIndex: nat)
    ensures var out := StaffNotes(staff, staffIndex, |staff|);
      && Contiguous(out)
      && (forall i, j | 0 <= i < j < |out| :: out[i].time < out[j].time)
  {
    var out := StaffNotes(staff, staffIndex, |staff|);
    StaffTimesAreRunningSums(staff, staffIndex, |staff|);
    RunningSumsAreContiguous(out);
    forall i, j | 0 <= i < j < |out| ensures out[i].time < out[j].time {
      NoteEndsBeforeLater(out, i, j);
    }
  }

  /** Onsets that are running sums start at 0 and follow each other without gap. */
  lemma RunningSumsAreContiguous(track: Track)
    requires RunningSums(track)
    ensures Contiguous(track)
  {
    if |track| > 0 {
      assert track[0].time == TicksBefore(track, 0);
    }
    forall j | 0 < j < |track| ensures track[j].time == NoteEnd(track[j - 1]) {
      assert track[j].time == TicksBefore(track, j);
      assert track[j - 1].time == TicksBefore(track, j - 1);
    }
  }

  lemma {:induction false} NoteEndsBeforeLater(out: Track, i: nat, j: nat)
    requires i < j < |out|
    requires Contiguous(out)
    ensures NoteEnd(out[i]) <= out[j].time
    decreases j - i
  {
    if i + 1 < j {
      NoteEndsBeforeLater(out, i + 1, j);
    }
  }

  /** Positions of the accepted elements among the first `k` note elements of a staff. */
  function AcceptedIndices(staff: seq<NoteElement>, k: nat): seq<nat>
    requires k <= |staff|
  {
    if k == 0 then [] else AcceptedIndices(staff, k - 1) + (if Accepted(staff[k - 1]) then [k - 1] else [])
  }

  /**
   * A staff's notes are exactly its accepted elements in document order: the
   * j-th note comes from the j-th accepted element, with the upper-cased pitch
   * name followed by the octave, the looked-up duration, and the element's id
   * or the fallback numbered by the element's position among ALL note
   * elements, skipped ones included. Skipped elements leave the cursor alone.
   */
  lemma {:induction false} StaffNotesAreAcceptedElements(staff: seq<NoteElement>, staffIndex: nat, k: nat)
    requires k <= |staff|
    ensures var out, idx := StaffNotes(staff, staffIndex, k), AcceptedIndices(staff, k);
      && |out| == |idx|
      && (forall j | 0 <= j < |idx| :: idx[j] < k && Accepted(staff[idx[j]]))
      && (forall j | 0 <= j < |out| :: out[j] == MakeNote(staff[idx[j]], staffIndex, idx[j], out[j].time))
      && (forall a, b | 0 <= a < b < |idx| :: idx[a] < idx[b])
      && (forall m | 0 <= m < k && Accepted(staff[m]) :: m in idx)
      && (forall m | 0 <= m < k && !Accepted(staff[m]) :: CursorAfter(staff, m + 1) == CursorAfter(staff, m))
  {
    AcceptedIndicesAreOrdered(staff, k);
    StaffNotesFollowAcceptedIndices(staff, staffIndex, k);
    forall m | 0 <= m < k && !Accepted(staff[m]) ensures CursorAfter(staff, m + 1) == CursorAfter(staff, m) {
    }
  }

  /** The accepted positions are increasing, below `k`, and include every accepted element. */
  lemma {:induction false} AcceptedIndicesAreOrdered(staff: seq<NoteElement>, k: nat)
    requires k <= |staff|
    ensures var idx := AcceptedIndices(staff, k);
      && (forall j | 0 <= j < |idx| :: idx[j] < k && Accepted(staff[idx[j]]))
      && (forall a, b | 0 <= a < b < |idx| :: idx[a] < idx[b])
      && (forall m | 0 <= m < k && Accepted(staff[m]) :: m in idx)
  {
    if k > 0 {
      AcceptedIndicesAreOrdered(staff, k - 1);
    }
  }

  /** The j-th note is made from the j-th accepted element. */
  lemma {:induction false} StaffNotesFollowAcceptedIndices(staff: seq<NoteElement>, staffIndex: nat, k: nat)
    requires k <= |staff|
    ensures var out, idx := StaffNotes(staff, staffIndex, k), AcceptedIndices(staff, k);
      && |out| == |idx|
      && (forall j | 0 <= j < |idx| :: idx[j] < k && Accepted(staff[idx[j]]))
      && (forall j | 0 <= j < |out| :: out[j] == MakeNote(staff[idx[j]], staffIndex, idx[j], out[j].time))
  {
    if k > 0 {
      StaffNotesFollowAcceptedIndices(staff, staffIndex, k - 1);
    }
  }

  // -------------------------------------------------------- total duration

  /** End of a track: its last note's onset plus that note's length (0 for an empty track). */
  function TrackEnd(track: Track): nat {
    if |track| == 0 then 0 else NoteEnd(track[|track| - 1])
  }

  /** The largest track end, 0 when there is no track (useAudioPlayer.ts:129-134). */
  function TotalDuration(tracks: seq<Track>): (r: nat)
    ensures forall t | 0 <= t < |tracks| :: TrackEnd(tracks[t]) <= r
  {
    if tracks == [] then 0
    else
      var maxDuration := TotalDuration(tracks[..|tracks| - 1]);
      var track := tracks[|tracks| - 1];
      if |track| == 0 then maxDuration
      else if TrackEnd(track) > maxDuration then TrackEnd(track) else maxDuration
  }

  /** The total duration is 0 or the end of one of the tracks: it is their maximum. */
  lemma {:induction false} TotalDurationIsAttained(tracks: seq<Track>)
    ensures TotalDuration(tracks) == 0 || exists t | 0 <= t < |tracks| :: TotalDuration(tracks) == TrackEnd(tracks[t])
  {
    if tracks != [] {
      var prefix := tracks[..|tracks| - 1];
      TotalDurationIsAttained(prefix);
      if TotalDuration(tracks) != 0 && TotalDuration(tracks) == TotalDuration(prefix) {
        var t :| 0 <= t < |prefix| && TotalDuration(prefix) == TrackEnd(prefix[t]);
        assert tracks[t] == prefix[t];
      }
    }
  }

  /** A contiguous track's last note ends last, so the end of the track covers every note in it. */
  lemma TrackEndCoversNotes(track: Track)
    requires Contiguous(track)
    ensures forall j | 0 <= j < |track| :: NoteEnd(track[j]) <= TrackEnd(track)
  {
    forall j | 0 <= j < |track| ensures NoteEnd(track[j]) <= TrackEnd(track) {
      if j + 1 < |track| {
        NoteEndsBeforeLater(track, j, |track| - 1);
      }
    }
  }

  /** Every parsed track is contiguous and non-empty. */
  lemma {:induction false} TracksAreContiguous(staffs: seq<seq<NoteElement>>, k: nat)
    requires k <= |staffs|
    ensures forall t | 0 <= t < |Tracks(staffs, k)| :: Tracks(staffs, k)[t] != [] && Contiguous(Tracks(staffs, k)[t])
  {
    if k > 0 {
      TracksAreContiguous(staffs, k - 1);
      StaffTimesIncrease(staffs[k - 1], k - 1);
    }
  }

  /**
   * The auto-stop falls no earlier than the end of any note of a parsed score,
   * and is positive exactly when some staff has an accepted note.
   */
  lemma TotalDurationCoversEveryNote(staffs: seq<seq<NoteElement>>)
    ensures var tracks := Tracks(staffs, |staffs|);
      && (forall t, j | 0 <= t < |tracks| && 0 <= j < |tracks[t]| :: NoteEnd(tracks[t][j]) <= TotalDuration(tracks))
      && (TotalDuration(tracks) > 0 <==> tracks != [])
  {
    var tracks := Tracks(staffs, |staffs|);
    TracksAreContiguous(staffs, |staffs|);
    forall t | 0 <= t < |tracks| ensures forall j | 0 <= j < |tracks[t]| :: NoteEnd(tracks[t][j]) <= TotalDuration(tracks) {
      TrackEndCoversNotes(tracks[t]);
    }
    if tracks != [] {
      assert NoteEnd(tracks[0][|tracks[0]| - 1]) > 0;
    }
  }

  // ------------------------------------------------------ highlight firings

  /** What the player asks of the outside world: a sound, or one of the two highlight callbacks. */
  datatype Effect = Sound(pitch: string, duration: string, time: nat) | RemoveHighlight | Highlight(id: string)

  /**
   * One draw firing for note `id` at `time` (useAudioPlayer.ts:148-154): the
   * previous highlight is removed only when the time differs from the last
   * highlighted one, and the note is highlighted in any case. Gives the new
   * last highlighted time and the callbacks invoked, in order.
   */
  function DrawFiring(last: Option<nat>, time: nat, id: string): (Option<nat>, seq<Effect>)
  {
    if last != Some(time) then (Some(time), [RemoveHighlight, Highlight(id)])
    else (last, [Highlight(id)])
  }

  /** Successive draw firings, given as (time, id) pairs. */
  function DrawFirings(last: Option<nat>, firings: seq<(nat, string)>): (Option<nat>, seq<Effect>)
    decreases |firings|
  {
    if firings == [] then (last, [])
    else
      var (last', effects) := DrawFiring(last, firings[0].0, firings[0].1);
      var (last'', more) := DrawFirings(last', firings[1..]);
      (last'', effects + more)
  }

  function CountRemovals(effects: seq<Effect>): nat {
    if effects == [] then 0 else (if effects[0] == RemoveHighlight then 1 else 0) + CountRemovals(effects[1..])
  }

  /** The ids highlighted, in order. */
  function Highlighted(effects: seq<Effect>): seq<string> {
    if effects == [] then []
    else (if effects[0].Highlight? then [effects[0].id] else []) + Highlighted(effects[1..])
  }

  lemma {:induction false} CountsOfConcat(a: seq<Effect>, b: seq<Effect>)
    ensures CountRemovals(a + b) == CountRemovals(a) + CountRemovals(b)
    ensures Highlighted(a + b) == Highlighted(a) + Highlighted(b)
  {
    if a != [] {
      assert (a + b)[1..] == a[1..] + b;
      CountsOfConcat(a[1..], b);
    } else {
      assert a + b == b;
    }
  }

  /**
   * Notes that fire at one and the same time clear the previous highlight at
   * most once: once if the time differs from the last highlighted time, not
   * at all otherwise. Every note is highlighted, in firing order, and the
   * last highlighted time becomes that time.
   */
  lemma {:induction false} EqualTimesRemoveOnce(last: Option<nat>, time: nat, ids: seq<string>)
    requires ids != []
    ensures var (last', effects) := DrawFirings(last, seq(|ids|, j requires 0 <= j < |ids| => (time, ids[j])));
      && last' == Some(time)
      && CountRemovals(effects) == (if last == Some(time) then 0 else 1)
      && Highlighted(effects) == ids
    decreases |ids|
  {
    var firings := seq(|ids|, j requires 0 <= j < |ids| => (time, ids[j]));
    var (last1, first) := DrawFiring(last, time, ids[0]);
    var rest := seq(|ids| - 1, j requires 0 <= j < |ids| - 1 => (time, ids[1..][j]));
    assert firings[1..] == rest;
    if |ids| > 1 {
      EqualTimesRemoveOnce(last1, time, ids[1..]);
    }
    var (last2, more) := DrawFirings(last1, rest);
    CountsOfConcat(first, more);
    assert ids == [ids[0]] + ids[1..];
  }

  // --------------------------------------------------------------- transport

  /** The state of Tone's transport. */
  datatype TransportState = Started | Paused | Stopped

  /** The player: the three observable flags, the transport, the scheduled parts and the highlight state. */
  class Player {
    var isPlayingAudio: bool
    var isPausedAudio: bool
    var isStoppedAudio: bool
    var transport: TransportState
    /** Whether highlight and remove callbacks have been registered. */
    var hasCallbacks: bool
    /** One scheduled part per track. */
    var parts: seq<Track>
    var lastHighlightTime: Option<nat>
    /** The auto-stop armed on the transport, in ticks. */
    var autoStopAt: Option<nat>
    /** Everything the player has made sound or highlight so far. */
    var effects: seq<Effect>

    predicate ExactlyOneFlag()
      reads this
    {
      || (isPlayingAudio && !isPausedAudio && !isStoppedAudio)
      || (!isPlayingAudio && isPausedAudio && !isStoppedAudio)
      || (!isPlayingAudio && !isPausedAudio && isStoppedAudio)
    }

    /**
     * The flags mirror the transport; a stopped player holds no parts, no
     * auto-stop and no last highlight time; a started or paused one holds the
     * non-empty tracks it plays and the auto-stop at their total duration.
     */
    ghost predicate Valid()
      reads this
      ensures Valid() ==> ExactlyOneFlag()
    {
      && (isPlayingAudio <==> transport == Started)
      && (isPausedAudio <==> transport == Paused)
      && (isStoppedAudio <==> transport == Stopped)
      && (transport == Stopped ==> parts == [] && lastHighlightTime == None && autoStopAt == None)
      && (transport != Stopped ==> parts != [] && autoStopAt == Some(TotalDuration(parts)))
    }

    /** A new player is stopped, has no callbacks and has done nothing. */
    constructor ()
      ensures Valid()
      ensures isStoppedAudio && !isPlayingAudio && !isPausedAudio
      ensures !hasCallbacks && effects == []
    {
      isPlayingAudio, isPausedAudio, isStoppedAudio := false, false, true;
      transport := Stopped;
      hasCallbacks := false;
      parts, lastHighlightTime, autoStopAt := [], None, None;
      effects := [];
    }

    /** Registers the highlight and remove callbacks (useAudioPlayer.ts:229-232). */
    method SetHighlightCallbacks()
      requires Valid()
      modifies this
      ensures Valid() && hasCallbacks
      ensures transport == old(transport) && parts == old(parts) && effects == old(effects)
      ensures lastHighlightTime == old(lastHighlightTime) && autoStopAt == old(autoStopAt)
      ensures isPlayingAudio == old(isPlayingAudio) && isPausedAudio == old(isPausedAudio) && isStoppedAudio == old(isStoppedAudio)
    {
      hasCallbacks := true;
    }

    /**
     * Stops from any state (useAudioPlayer.ts:198-217): drops the parts and the
     * auto-stop, forgets the last highlight time, clears the highlight when a
     * remove callback is registered and raises only the stopped flag. The new
     * state does not depend on the old one, so stopping twice changes nothing more.
     */
    method StopScore()
      requires Valid()
      modifies this
      ensures Valid()
      ensures transport == Stopped && isStoppedAudio && !isPlayingAudio && !isPausedAudio
      ensures parts == [] && lastHighlightTime == None && autoStopAt == None
      ensures effects == old(effects) + (if hasCallbacks then [RemoveHighlight] else [])
      ensures hasCallbacks == old(hasCallbacks)
    {
      parts := [];
      lastHighlightTime := None;
      transport := Stopped;
      autoStopAt := None;
      if hasCallbacks {
        effects := effects + [RemoveHighlight];
      }
      isPlayingAudio := false;
      isPausedAudio := false;
      isStoppedAudio := true;
    }

    /**
     * Plays a score (useAudioPlayer.ts:101-169), given as its staffs' note
     * elements; `audioReady` says whether starting the audio context succeeded.
     * A playing or paused player is stopped first. Without audio, or when no
     * staff has a playable note, the player is left stopped; otherwise the
     * tracks are scheduled, the auto-stop is armed at their total duration and
     * only the playing flag is raised.
     */
    method PlayScore(staffs: seq<seq<NoteElement>>, audioReady: bool)
      requires Valid()
      modifies this
      ensures Valid() && hasCallbacks == old(hasCallbacks) && lastHighlightTime == None
      ensures effects == old(effects) + (if old(transport) != Stopped && hasCallbacks then [RemoveHighlight] else [])
      ensures audioReady && Tracks(staffs, |staffs|) != [] ==>
        && transport == Started && isPlayingAudio && !isPausedAudio && !isStoppedAudio
        && parts == Tracks(staffs, |staffs|) && autoStopAt == Some(TotalDuration(parts))
      ensures !audioReady || Tracks(staffs, |staffs|) == [] ==>
        transport == Stopped && isStoppedAudio && !isPlayingAudio && !isPausedAudio
    {
      if isPausedAudio || isPlayingAudio {
        StopScore();
      }
      assert Valid() && transport == Stopped && lastHighlightTime == None;
      assert effects == old(effects) + (if old(transport) != Stopped && hasCallbacks then [RemoveHighlight] else []);
      if !audioReady {
        return;
      }
      var parsedTracks := ParseMeiToTracks(staffs);
      if |parsedTracks| == 0 {
        return;
      }
      StartTracks(parsedTracks);
    }

    /** Schedules non-empty tracks on a stopped player, arms the auto-stop and raises only the playing flag. */
    method StartTracks(parsedTracks: seq<Track>)
      requires Valid() && transport == Stopped && parsedTracks != []
      modifies this
      ensures Valid() && transport == Started && isPlayingAudio && !isPausedAudio && !isStoppedAudio
      ensures parts == parsedTracks && autoStopAt == Some(TotalDuration(parsedTracks))
      ensures lastHighlightTime == old(lastHighlightTime) && effects == old(effects) && hasCallbacks == old(hasCallbacks)
    {
      var totalDuration := TotalDuration(parsedTracks);
      autoStopAt := Some(totalDuration);
      parts := parsedTracks;
      transport := Started;
      isPlayingAudio := true;
      isPausedAudio := false;
      isStoppedAudio := false;
    }

    /** Pauses only a started transport (useAudioPlayer.ts:174-181); otherwise nothing changes. */
    method PauseScore()
      requires Valid()
      modifies this
      ensures Valid()
      ensures old(transport) == Started ==>
        transport == Paused && isPausedAudio && !isPlayingAudio && !isStoppedAudio
        && parts == old(parts) && lastHighlightTime == old(lastHighlightTime)
        && autoStopAt == old(autoStopAt) && effects == old(effects) && hasCallbacks == old(hasCallbacks)
      ensures old(transport) != Started ==> unchanged(this)
    {
      if transport == Started {
        transport := Paused;
        isPlayingAudio := false;
        isPausedAudio := true;
        isStoppedAudio := false;
      }
    }

    /** Resumes only a paused transport (useAudioPlayer.ts:186-193); otherwise nothing changes. */
    method ResumeScore()
      requires Valid()
      modifies this
      ensures Valid()
      ensures old(transport) == Paused ==>
        transport == Started && isPlayingAudio && !isPausedAudio && !isStoppedAudio
        && parts == old(parts) && lastHighlightTime == old(lastHighlightTime)
        && autoStopAt == old(autoStopAt) && effects == old(effects) && hasCallbacks == old(hasCallbacks)
      ensures old(transport) != Paused ==> unchanged(this)
    {
      if transport == Paused {
        transport := Started;
        isPlayingAudio := true;
        isPausedAudio := false;
        isStoppedAudio := false;
      }
    }

    /**
     * A part's callback for `note` at transport time `time` (useAudioPlayer.ts:142-155),
     * which the transport invokes only while started: the note sounds, and when
     * callbacks are registered the draw firing runs.
     */
    method FireNote(time: nat, note: ParsedNote)
      requires Valid() && transport == Started
      modifies this`effects, this`lastHighlightTime
      ensures Valid()
      ensures hasCallbacks ==>
        var (last', drawn) := DrawFiring(old(lastHighlightTime), time, note.id);
        lastHighlightTime == last' && effects == old(effects) + [Sound(note.pitch, note.duration, time)] + drawn
      ensures !hasCallbacks ==>
        lastHighlightTime == old(lastHighlightTime) && effects == old(effects) + [Sound(note.pitch, note.duration, time)]
    {
      effects := effects + [Sound(note.pitch, note.duration, time)];
      if hasCallbacks {
        if lastHighlightTime != Some(time) {
          effects := effects + [RemoveHighlight];
          lastHighlightTime := Some(time);
        }
        effects := effects + [Highlight(note.id)];
      }
    }
  }
}

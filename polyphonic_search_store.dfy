/**
 * The store that holds the parameters of a polyphonic search: the active
 * per-voice parameters being edited, the parameters shared by all voices
 * (collection, alpha, incipit-only), up to four frozen voices each with a
 * snapshot of the per-voice parameters, and the locks that pin the shared
 * parameters once voices are frozen.
 *
 * JavaScript numbers are reals here, with NaN kept apart; `Number(text)` is a
 * parameter of the setters that take text.
 */
module PolyphonicSearch {
  import opened Wrappers

  /** A JavaScript number: NaN or a finite value. */
  datatype JsNumber = NaN | Finite(value: real)

  /** What the numeric setters accept: a number or the text of a form field. */
  datatype NumberInput = Number(n: JsNumber) | Text(text: string)

  /**
   * `toNumber` (polyphonicSearchStore.ts:32-35): text goes through `parse`,
   * and NaN, typed or parsed, becomes 0.
   */
  function ToNumber(v: NumberInput, parse: string -> JsNumber): (r: real)
    ensures v == Number(NaN) ==> r == 0.0
    ensures v.Number? && v.n.Finite? ==> r == v.n.value
    ensures v.Text? && parse(v.text) == NaN ==> r == 0.0
    ensures v.Text? && parse(v.text).Finite? ==> r == parse(v.text).value
  {
    var parsed := if v.Text? then parse(v.text) else v.n;
    if parsed.NaN? then 0.0 else parsed.value
  }

  /** The parameters a frozen voice keeps (polyphonicSearchStore.ts:3-12). */
  datatype FrozenVoiceParameters = FrozenVoiceParameters(
    pitchDistance: real,
    durationFactor: real,
    durationGap: real,
    allowTransposition: bool,
    allowHomothety: bool,
    mode: Option<string>,
    modeLabel: Option<string>,
    noteCount: real)

  datatype FrozenVoice = FrozenVoice(id: nat, svgMarkup: string, notes: string, parameters: FrozenVoiceParameters)

  /** One voice as sent to the search (polyphonicSearchStore.ts:21-30). */
  datatype VoiceSearchPayload = VoiceSearchPayload(
    notes: string,
    pitchDistance: real,
    durationFactor: real,
    durationGap: real,
    allowTransposition: bool,
    allowHomothety: bool,
    mode: Option<string>,
    noteCount: real)

  /** What the editor hands over when a voice is frozen. */
  datatype AddVoicePayload = AddVoicePayload(
    svgMarkup: string,
    notes: string,
    mode: Option<string>,
    modeLabel: Option<string>,
    noteCount: real,
    collection: string)

  /** The seven per-voice parameters `resetActiveParameters` restores. */
  datatype ActiveParameters = ActiveParameters(
    pitchEnabled: bool,
    rhythmEnabled: bool,
    allowTransposition: bool,
    allowHomothety: bool,
    pitchDistance: real,
    durationFactor: real,
    durationGap: real)

  const InitialActive := ActiveParameters(true, true, false, false, 0.0, 1.0, 0.0)

  datatype Locks = Locks(collection: Option<string>, alpha: Option<real>, incipitOnly: Option<bool>)

  const NoLocks := Locks(None, None, None)

  class Store {
    var voices: seq<FrozenVoice>
    var maxVoices: nat
    var pitchEnabled: bool
    var rhythmEnabled: bool
    var allowTransposition: bool
    var allowHomothety: bool
    var incipitOnly: bool
    var pitchDistance: real
    var durationFactor: real
    var durationGap: real
    var alpha: real
    var lockedCollection: Option<string>
    var lockedAlpha: Option<real>
    var lockedIncipitOnly: Option<bool>

    function Active(): ActiveParameters
      reads this
    {
      ActiveParameters(pitchEnabled, rhythmEnabled, allowTransposition, allowHomothety,
                       pitchDistance, durationFactor, durationGap)
    }

    function CurrentLocks(): Locks
      reads this
    {
      Locks(lockedCollection, lockedAlpha, lockedIncipitOnly)
    }

    /**
     * At most four voices, numbered 1, 2, ... in order; the duration factor is
     * never 0; alpha and a locked alpha are never negative.
     */
    ghost predicate Valid()
      reads this
    {
      && maxVoices == 4
      && |voices| <= maxVoices
      && (forall i | 0 <= i < |voices| :: voices[i].id == i + 1)
      && durationFactor != 0.0
      && alpha >= 0.0
      && (lockedAlpha.Some? ==> lockedAlpha.value >= 0.0)
    }

    /** The design the locks are meant to follow: all three are set exactly while voices are frozen. */
    predicate LocksFollowVoices()
      reads this
    {
      && (voices == [] <==> lockedCollection.None?)
      && (voices == [] <==> lockedAlpha.None?)
      && (voices == [] <==> lockedIncipitOnly.None?)
    }

    /** The initial state (polyphonicSearchStore.ts:38-53). */
    constructor ()
      ensures Valid() && LocksFollowVoices()
      ensures voices == [] && maxVoices == 4 && Active() == InitialActive
      ensures !incipitOnly && alpha == 0.0 && CurrentLocks() == NoLocks
    {
      voices := [];
      maxVoices := 4;
      pitchEnabled, rhythmEnabled := true, true;
      allowTransposition, allowHomothety := false, false;
      incipitOnly := false;
      pitchDistance, durationFactor, durationGap := 0.0, 1.0, 0.0;
      alpha := 0.0;
      lockedCollection, lockedAlpha, lockedIncipitOnly := None, None, None;
    }

    /** `sharedParametersLocked` (polyphonicSearchStore.ts:55): some voice is frozen. */
    function SharedParametersLocked(): (r: bool)
      reads this
      ensures r <==> |voices| > 0
      ensures LocksFollowVoices() ==> (r <==> lockedCollection.Some?)
    {
      |voices| > 0
    }

    /** `sharedCollection` (polyphonicSearchStore.ts:56): there is one exactly while voices are frozen. */
    function SharedCollection(): (r: Option<string>)
      reads this
      ensures LocksFollowVoices() ==> (r.Some? <==> voices != [])
      ensures r.Some? ==> r == lockedCollection
    {
      lockedCollection
    }

    /** `sharedAlpha` (polyphonicSearchStore.ts:57-59): the locked alpha when there is one. */
    function SharedAlpha(): (r: real)
      reads this
      ensures lockedAlpha.Some? ==> r == lockedAlpha.value
      ensures lockedAlpha.None? ==> r == alpha
      ensures Valid() ==> r >= 0.0
    {
      if lockedAlpha.Some? then lockedAlpha.value else alpha
    }

    /** `sharedIncipit` (polyphonicSearchStore.ts:60-62): the locked flag when there is one. */
    function SharedIncipit(): (r: bool)
      reads this
      ensures lockedIncipitOnly.Some? ==> r == lockedIncipitOnly.value
      ensures lockedIncipitOnly.None? ==> r == incipitOnly
    {
      if lockedIncipitOnly.Some? then lockedIncipitOnly.value else incipitOnly
    }

    /**
     * `frozenVoicesPayload` (polyphonicSearchStore.ts:66-77): one payload per
     * voice, in order, carrying the voice's notes and snapshot.
     */
    function FrozenVoicesPayload(): (r: seq<VoiceSearchPayload>)
      reads this
      ensures |r| == |voices|
      ensures forall i | 0 <= i < |r| ::
        var p := voices[i].parameters;
        && r[i].notes == voices[i].notes
        && r[i].pitchDistance == p.pitchDistance && r[i].durationFactor == p.durationFactor
        && r[i].durationGap == p.durationGap && r[i].allowTransposition == p.allowTransposition
        && r[i].allowHomothety == p.allowHomothety && r[i].mode == p.mode && r[i].noteCount == p.noteCount
    {
      seq(|voices|, i reads this requires 0 <= i < |voices| =>
        var v := voices[i];
        VoiceSearchPayload(v.notes, v.parameters.pitchDistance, v.parameters.durationFactor,
                           v.parameters.durationGap, v.parameters.allowTransposition,
                           v.parameters.allowHomothety, v.parameters.mode, v.parameters.noteCount))
    }

    /** `setPitchEnabled` (polyphonicSearchStore.ts:80-85): disabling pitch also disables transposition. */
    method SetPitchEnabled(value: bool)
      requires Valid()
      modifies this
      ensures Valid() && (old(LocksFollowVoices()) ==> LocksFollowVoices())
      ensures pitchEnabled == value
      ensures allowTransposition == (value && old(allowTransposition))
      ensures Active().(pitchEnabled := old(pitchEnabled), allowTransposition := old(allowTransposition)) == old(Active())
      ensures voices == old(voices) && CurrentLocks() == old(CurrentLocks())
      ensures alpha == old(alpha) && incipitOnly == old(incipitOnly) && maxVoices == old(maxVoices)
    {
      pitchEnabled := value;
      if !value {
        allowTransposition := false;
      }
    }

    /** `setRhythmEnabled` (polyphonicSearchStore.ts:86-91): disabling rhythm also disables homothety. */
    method SetRhythmEnabled(value: bool)
      requires Valid()
      modifies this
      ensures Valid() && (old(LocksFollowVoices()) ==> LocksFollowVoices())
      ensures rhythmEnabled == value
      ensures allowHomothety == (value && old(allowHomothety))
      ensures Active().(rhythmEnabled := old(rhythmEnabled), allowHomothety := old(allowHomothety)) == old(Active())
      ensures voices == old(voices) && CurrentLocks() == old(CurrentLocks())
      ensures alpha == old(alpha) && incipitOnly == old(incipitOnly) && maxVoices == old(maxVoices)
    {
      rhythmEnabled := value;
      if !value {
        allowHomothety := false;
      }
    }

    /** `setAllowTransposition` (polyphonicSearchStore.ts:92-94): unguarded, even with pitch disabled. */
    method SetAllowTransposition(value: bool)
      requires Valid()
      modifies this
      ensures Valid() && (old(LocksFollowVoices()) ==> LocksFollowVoices())
      ensures Active() == old(Active()).(allowTransposition := value)
      ensures voices == old(voices) && CurrentLocks() == old(CurrentLocks())
      ensures alpha == old(alpha) && incipitOnly == old(incipitOnly) && maxVoices == old(maxVoices)
    {
      allowTransposition := value;
    }

    /** `setAllowHomothety` (polyphonicSearchStore.ts:95-97): unguarded, even with rhythm disabled. */
    method SetAllowHomothety(value: bool)
      requires Valid()
      modifies this
      ensures Valid() && (old(LocksFollowVoices()) ==> LocksFollowVoices())
      ensures Active() == old(Active()).(allowHomothety := value)
      ensures voices == old(voices) && CurrentLocks() == old(CurrentLocks())
      ensures alpha == old(alpha) && incipitOnly == old(incipitOnly) && maxVoices == old(maxVoices)
    {
      allowHomothety := value;
    }

    /** `setPitchDistance` (polyphonicSearchStore.ts:98-100). */
    method SetPitchDistance(value: NumberInput, parse: string -> JsNumber)
      requires Valid()
      modifies this
      ensures Valid() && (old(LocksFollowVoices()) ==> LocksFollowVoices())
      ensures Active() == old(Active()).(pitchDistance := ToNumber(value, parse))
      ensures voices == old(voices) && CurrentLocks() == old(CurrentLocks())
      ensures alpha == old(alpha) && incipitOnly == old(incipitOnly) && maxVoices == old(maxVoices)
    {
      pitchDistance := ToNumber(value, parse);
    }

    /**
     * `setDurationFactor` (polyphonicSearchStore.ts:101-104): a factor of 0,
     * typed or from unparsable text, is stored as 1, so the factor is never 0.
     */
    method SetDurationFactor(value: NumberInput, parse: string -> JsNumber)
      requires Valid()
      modifies this
      ensures Valid() && (old(LocksFollowVoices()) ==> LocksFollowVoices())
      ensures durationFactor != 0.0
      ensures ToNumber(value, parse) != 0.0 ==> durationFactor == ToNumber(value, parse)
      ensures ToNumber(value, parse) == 0.0 ==> durationFactor == 1.0
      ensures Active().(durationFactor := old(durationFactor)) == old(Active())
      ensures voices == old(voices) && CurrentLocks() == old(CurrentLocks())
      ensures alpha == old(alpha) && incipitOnly == old(incipitOnly) && maxVoices == old(maxVoices)
    {
      var parsed := ToNumber(value, parse);
      durationFactor := if parsed == 0.0 then 1.0 else parsed;
    }

    /** `setDurationGap` (polyphonicSearchStore.ts:105-107). */
    method SetDurationGap(value: NumberInput, parse: string -> JsNumber)
      requires Valid()
      modifies this
      ensures Valid() && (old(LocksFollowVoices()) ==> LocksFollowVoices())
      ensures Active() == old(Active()).(durationGap := ToNumber(value, parse))
      ensures voices == old(voices) && CurrentLocks() == old(CurrentLocks())
      ensures alpha == old(alpha) && incipitOnly == old(incipitOnly) && maxVoices == old(maxVoices)
    {
      durationGap := ToNumber(value, parse);
    }

    /**
     * `setAlpha` (polyphonicSearchStore.ts:108-114): negative values become 0;
     * an existing lock follows the new value while voices are frozen.
     */
    method SetAlpha(value: NumberInput, parse: string -> JsNumber)
      requires Valid()
      modifies this
      ensures Valid() && (old(LocksFollowVoices()) ==> LocksFollowVoices())
      ensures ToNumber(value, parse) >= 0.0 ==> alpha == ToNumber(value, parse)
      ensures ToNumber(value, parse) < 0.0 ==> alpha == 0.0
      ensures lockedAlpha == if old(voices) != [] && old(lockedAlpha).Some? then Some(alpha) else old(lockedAlpha)
      ensures LocksFollowVoices() ==> SharedAlpha() == alpha
      ensures lockedCollection == old(lockedCollection) && lockedIncipitOnly == old(lockedIncipitOnly)
      ensures voices == old(voices) && Active() == old(Active())
      ensures incipitOnly == old(incipitOnly) && maxVoices == old(maxVoices)
    {
      var parsed := ToNumber(value, parse);
      alpha := if parsed < 0.0 then 0.0 else parsed;
      if SharedParametersLocked() && lockedAlpha.Some? {
        lockedAlpha := Some(alpha);
      }
    }

    /**
     * `setIncipitOnly` (polyphonicSearchStore.ts:115-120): an existing lock
     * follows the new value while voices are frozen.
     */
    method SetIncipitOnly(value: bool)
      requires Valid()
      modifies this
      ensures Valid() && (old(LocksFollowVoices()) ==> LocksFollowVoices())
      ensures incipitOnly == value
      ensures lockedIncipitOnly == if old(voices) != [] && old(lockedIncipitOnly).Some? then Some(value) else old(lockedIncipitOnly)
      ensures LocksFollowVoices() ==> SharedIncipit() == value
      ensures lockedCollection == old(lockedCollection) && lockedAlpha == old(lockedAlpha)
      ensures voices == old(voices) && Active() == old(Active())
      ensures alpha == old(alpha) && maxVoices == old(maxVoices)
    {
      incipitOnly := value;
      if SharedParametersLocked() && lockedIncipitOnly.Some? {
        lockedIncipitOnly := Some(value);
      }
    }

    /**
     * `resetActiveParameters` (polyphonicSearchStore.ts:121-129): the seven
     * per-voice parameters go back to their initial values; the shared ones,
     * the voices and the locks are left alone.
     */
    method ResetActiveParameters()
      requires Valid()
      modifies this
      ensures Valid() && (old(LocksFollowVoices()) ==> LocksFollowVoices())
      ensures Active() == InitialActive
      ensures voices == old(voices) && CurrentLocks() == old(CurrentLocks())
      ensures alpha == old(alpha) && incipitOnly == old(incipitOnly) && maxVoices == old(maxVoices)
    {
      pitchEnabled := true;
      rhythmEnabled := true;
      allowTransposition := false;
      allowHomothety := false;
      pitchDistance := 0.0;
      durationFactor := 1.0;
      durationGap := 0.0;
    }

    /** The voice `addFrozenVoice` appends: the next id and a snapshot of the active parameters. */
    function NextVoice(payload: AddVoicePayload): (v: FrozenVoice)
      reads this
      ensures v.id == |voices| + 1
      ensures v.notes == payload.notes && v.svgMarkup == payload.svgMarkup
      ensures v.parameters.mode == payload.mode && v.parameters.modeLabel == payload.modeLabel
      ensures v.parameters.noteCount == payload.noteCount
      ensures v.parameters.pitchDistance == pitchDistance && v.parameters.durationFactor == durationFactor
      ensures v.parameters.durationGap == durationGap
      ensures v.parameters.allowTransposition == allowTransposition && v.parameters.allowHomothety == allowHomothety
    {
      FrozenVoice(|voices| + 1, payload.svgMarkup, payload.notes,
        FrozenVoiceParameters(pitchDistance, durationFactor, durationGap, allowTransposition,
                              allowHomothety, payload.mode, payload.modeLabel, payload.noteCount))
    }

    /**
     * `addFrozenVoice` as written (polyphonicSearchStore.ts:130-166): the
     * lock guard is read after the push, when a voice is always frozen, so
     * the locks are never set.
     */
    method AddFrozenVoiceAsWritten(payload: AddVoicePayload) returns (added: bool)
      requires Valid()
      modifies this
      ensures Valid()
      ensures added <==> old(|voices|) < maxVoices
      ensures added ==> voices == old(voices) + [old(NextVoice(payload))]
      ensures !added ==> voices == old(voices)
      ensures CurrentLocks() == old(CurrentLocks())
      ensures Active() == old(Active()) && alpha == old(alpha) && incipitOnly == old(incipitOnly)
      ensures maxVoices == old(maxVoices)
    {
      if |voices| >= maxVoices {
        return false;
      }
      voices := voices + [NextVoice(payload)];
      // The guard is read after the push, so it always finds a frozen voice.
      var unlocked := !SharedParametersLocked();
      lockedCollection := if unlocked then Some(payload.collection) else lockedCollection;
      lockedAlpha := if unlocked then Some(alpha) else lockedAlpha;
      lockedIncipitOnly := if unlocked then Some(incipitOnly) else lockedIncipitOnly;
      return true;
    }

    /**
     * `addFrozenVoice` with the lock guard read before the push, as the locks
     * are meant to work: freezing the first voice pins the collection, alpha
     * and incipit-only flag of that moment.
     */
    method AddFrozenVoice(payload: AddVoicePayload) returns (added: bool)
      requires Valid()
      modifies this
      ensures Valid() && (old(LocksFollowVoices()) ==> LocksFollowVoices())
      ensures added <==> old(|voices|) < maxVoices
      ensures added ==> voices == old(voices) + [old(NextVoice(payload))]
      ensures !added ==> voices == old(voices) && CurrentLocks() == old(CurrentLocks())
      ensures added && old(voices) == [] ==>
        CurrentLocks() == Locks(Some(payload.collection), Some(alpha), Some(incipitOnly))
      ensures old(voices) != [] ==> CurrentLocks() == old(CurrentLocks())
      ensures Active() == old(Active()) && alpha == old(alpha) && incipitOnly == old(incipitOnly)
      ensures maxVoices == old(maxVoices)
    {
      if |voices| >= maxVoices {
        return false;
      }
      var wasLocked := SharedParametersLocked();
      voices := voices + [NextVoice(payload)];
      if !wasLocked {
        lockedCollection := Some(payload.collection);
        lockedAlpha := Some(alpha);
        lockedIncipitOnly := Some(incipitOnly);
      }
      return true;
    }

    /** `clearFrozenVoices` (polyphonicSearchStore.ts:167-172): no voices and no locks. */
    method ClearFrozenVoices()
      requires Valid()
      modifies this
      ensures Valid() && LocksFollowVoices()
      ensures voices == [] && CurrentLocks() == NoLocks
      ensures Active() == old(Active()) && alpha == old(alpha) && incipitOnly == old(incipitOnly)
      ensures maxVoices == old(maxVoices)
    {
      voices := [];
      lockedCollection := None;
      lockedAlpha := None;
      lockedIncipitOnly := None;
    }
  }

  /**
   * Freezing a voice in a new store with the code as written leaves a voice
   * frozen and no lock set: the shared parameters are not pinned.
   */
  method AsWrittenFirstVoiceLocksNothing(payload: AddVoicePayload) returns (s: Store)
    ensures s.Valid() && |s.voices| == 1
    ensures s.CurrentLocks() == NoLocks && !s.LocksFollowVoices()
  {
    s := new Store();
    var added := s.AddFrozenVoiceAsWritten(payload);
  }

  /** With the guard read before the push, the first voice pins the shared parameters. */
  method FirstVoiceLocksSharedParameters(payload: AddVoicePayload) returns (s: Store)
    ensures s.Valid() && |s.voices| == 1 && s.LocksFollowVoices()
    ensures s.SharedCollection() == Some(payload.collection)
  {
    s := new Store();
    var added := s.AddFrozenVoice(payload);
  }
}

/**
 * The mode filter of the search form: a fixed list of church modes, the
 * first entry standing for "no filter", and the index of the selected one.
 */
module Modes {
  import opened Wrappers

  /** The modes offered (modesStore.ts:8-17); the first one means "any mode". */
  const ModeNames: seq<string> :=
    ["Tous les modes", "Ionian", "Dorian", "Phrygian", "Lydian", "Mixolydian", "Aeolian", "Locrian"]

  class ModesStore {
    var listeModes: seq<string>
    var selectedModeIndex: int

    /** The list is the fixed one and the index stays inside it. */
    ghost predicate Valid()
      reads this
    {
      listeModes == ModeNames && 0 <= selectedModeIndex < |listeModes|
    }

    /** The initial state (modesStore.ts:5-19): the eight modes, "no filter" selected. */
    constructor ()
      ensures Valid()
      ensures |listeModes| == 8 && listeModes[0] == "Tous les modes"
      ensures selectedModeIndex == 0
    {
      listeModes := ModeNames;
      selectedModeIndex := 0;
    }

    /**
     * `selectedModeName` (modesStore.ts:27-32): no name for the first entry,
     * and otherwise the selected entry, never an empty one.
     */
    function SelectedModeName(): (r: Option<string>)
      reads this
      ensures Valid() ==> (r.None? <==> selectedModeIndex == 0)
      ensures r.Some? ==> 0 < selectedModeIndex < |listeModes| && r.value == listeModes[selectedModeIndex]
      ensures r.Some? ==> r.value != ""
      ensures Valid() && r.Some? ==> r.value in ModeNames[1..]
    {
      if selectedModeIndex == 0 then None
      else if 0 <= selectedModeIndex < |listeModes| && listeModes[selectedModeIndex] != "" then
        Some(listeModes[selectedModeIndex])
      else None
    }

    /** `setMode` (modesStore.ts:39-43): an index inside the list is selected; any other is ignored. */
    method SetMode(index: int)
      requires Valid()
      modifies this
      ensures Valid()
      ensures 0 <= index < |listeModes| ==> selectedModeIndex == index
      ensures !(0 <= index < |listeModes|) ==> selectedModeIndex == old(selectedModeIndex)
      ensures listeModes == old(listeModes)
    {
      if index >= 0 && index < |listeModes| {
        selectedModeIndex := index;
      }
    }
  }
}

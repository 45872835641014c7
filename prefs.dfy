/**
 * The two-key preference store behind `Prefs`: focus and break lengths in
 * minutes, read with defaults 25 and 5, written clamped to at least 1.
 * The shared-preferences file is a map from key to `int` that the setters
 * update in place.
 */
module Prefs {
  import opened JavaLang

  const KeyFocusMin: string := "focus_min"
  const KeyBreakMin: string := "break_min"

  const DefaultFocusMin: int32 := 25
  const DefaultBreakMin: int32 := 5

  /** `SharedPreferences.getInt(key, def)`. */
  function GetInt(values: map<string, int32>, key: string, def: int32): (v: int32)
    ensures key in values ==> v == values[key]
    ensures key !in values ==> v == def
  {
    if key in values then values[key] else def
  }

  class PrefStore {
    var values: map<string, int32>

    /** Every minutes value in the store was written through a setter, so it is at least 1. */
    ghost predicate Valid()
      reads this
    {
      && (KeyFocusMin in values ==> values[KeyFocusMin] >= 1)
      && (KeyBreakMin in values ==> values[KeyBreakMin] >= 1)
    }

    /** A store with nothing written yet (a fresh install). */
    constructor ()
      ensures values == map[]
      ensures Valid()
    {
      values := map[];
    }

    /** `Prefs.getFocusMin`: the stored focus length, 25 when none is stored. */
    function GetFocusMin(): (m: int32)
      reads this
      ensures KeyFocusMin !in values ==> m == DefaultFocusMin
      ensures Valid() ==> m >= 1
    {
      GetInt(values, KeyFocusMin, DefaultFocusMin)
    }

    /** `Prefs.getBreakMin`: the stored break length, 5 when none is stored. */
    function GetBreakMin(): (m: int32)
      reads this
      ensures KeyBreakMin !in values ==> m == DefaultBreakMin
      ensures Valid() ==> m >= 1
    {
      GetInt(values, KeyBreakMin, DefaultBreakMin)
    }

    /** `Prefs.setFocusMin`: stores `max(1, min)` under the focus key only. */
    method SetFocusMin(min: int32)
      modifies this
      ensures values == old(values)[KeyFocusMin := Max(1, min)]
      ensures old(Valid()) ==> Valid()
      ensures GetFocusMin() == Max(1, min) && GetFocusMin() >= 1
      ensures min >= 1 ==> GetFocusMin() == min
      ensures GetBreakMin() == old(GetBreakMin())
    {
      values := values[KeyFocusMin := Max(1, min)];
    }

    /** `Prefs.setBreakMin`: stores `max(1, min)` under the break key only. */
    method SetBreakMin(min: int32)
      modifies this
      ensures values == old(values)[KeyBreakMin := Max(1, min)]
      ensures old(Valid()) ==> Valid()
      ensures GetBreakMin() == Max(1, min) && GetBreakMin() >= 1
      ensures min >= 1 ==> GetBreakMin() == min
      ensures GetFocusMin() == old(GetFocusMin())
    {
      values := values[KeyBreakMin := Max(1, min)];
    }
  }
}

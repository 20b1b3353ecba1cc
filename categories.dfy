/**
  The entry categories (`MicroEntryCategory`). Every entry carries one;
  the default windows are filled by category, and the edit window's
  "Add" list is filtered by the category the user has selected.
 */
module Categories {

  datatype MicroEntryCategory =
    | Vessel | Orbital | Surface | Flight | Target | Maneuver | Stage | Misc | OAB | Accepted2

  /** The enumeration in declaration order, first to last. */
  const AllCategories: seq<MicroEntryCategory> :=
    [Vessel, Orbital, Surface, Flight, Target, Maneuver, Stage, Misc, OAB, Accepted2]

  /** The integer value of the enumeration member, `(int)category`. */
  function Ordinal(c: MicroEntryCategory): (i: nat)
    ensures i < |AllCategories| && AllCategories[i] == c
  {
    match c
    case Vessel => 0
    case Orbital => 1
    case Surface => 2
    case Flight => 3
    case Target => 4
    case Maneuver => 5
    case Stage => 6
    case Misc => 7
    case OAB => 8
    case Accepted2 => 9
  }
}

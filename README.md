# MicroEngineer: layout, stage tables and entry catalogue

This project is a Dafny model of the sequential logic inside MicroEngineer. MicroEngineer is a telemetry dashboard mod: it shows entries (vessel mass, ∆v, thrust, aerodynamic readings and so on) in panels, called windows, that the user can rearrange.

It models three parts:

- **Window layout** (`windows.dfy`, `micro_engineer_mod.dfy`):
  - the default set of windows, each filled from the entry catalogue by category and default flag;
  - the edit window: the window and category selectors that wrap around, the guarded entry moves, removing and adding entries, the lock toggle, and deleting a window (custom windows only);
  - creating a custom window, with its derived `CustomN` name and 2–3 character abbreviation;
  - the pop-out / close logic of the section headers;
  - the celestial-body table, which is loaded only once.
- **Stage tables** (`stage_tables.dfy`):
  - the flight table: which stages are drawn, in which order, and with what label;
  - the TWR column precision, as a number of decimals;
  - the editor (OAB) table: how it hands out one celestial-body slot per row, adding slots lazily.
- **Entry catalogue** (`vessel_entries.dfy`, `flight_entries.dfy`):
  - the metadata each entry constructor assigns;
  - the value each `RefreshData` takes from a telemetry snapshot: null stays null through `?.`, and ×1000 converts units;
  - the `ValueDisplay` overrides of Vessel, Total lift, Total drag and Lift / Drag.
  - The two entry files come from different versions of the mod, so each keeps its own entry shape:
    - `MicroEntry` has a single unit;
    - `BaseEntry` has a unit ladder (milli, base, kilo, mega, giga).

Supporting modules:

- `decimal.dfy`: decimal rendering of integers, `int.ToString()`;
- `categories.dfy`: the category enumeration;
- `telemetry.dfy`: the host simulation's state as records, where a value that may be null becomes an `Option`;
- `wrappers.dfy`: `Option`.

The model follows the code where it disagrees with the prose description of the mod:

- **TWR precision.** The code chooses N1 for a 3-digit highest TWR, N0 for 4 digits and N2 otherwise, including 5 digits or more. It does not drop "one decimal per extra digit down to 0".
- **Custom window name.** The code finds the number in a single pass, not by looking for the lowest unused suffix. See Findings.
- **Reset.** The code does not rebuild the state the mod starts in: the edit window's selection survives the reset. See Findings.
- **Target window.** Its description is "Flight entries" in the code, and the model copies that.

Host calls are parameters of the model:

- the sea-level TWR / ∆v of a stage and the TWR factor of a body are function parameters of `DrawStageInfoOab`;
- the loaded celestial bodies are a parameter of `InitializeCelestialBodies`;
- the telemetry snapshot is a parameter of every `Refresh`.

## Model

In the source column, paths abbreviate as follows:

- `MicroEngineerMod.cs` is `MicroEngineerProject/MicroEngineer/MicroEngineerMod.cs`;
- `FlightEntries.cs` is `src/MicroEngineer/Entries/FlightEntries.cs`;
- `VesselEntries.cs` is `MicroEngineerProject/MicroEngineer/Entries/VesselEntries.cs`.

Each source cell gives the full path.

| member | source | states |
|---|---|---|
| Decimal.DecimalDigits | MicroEngineerProject/MicroEngineer/MicroEngineerMod.cs:764 | `nameID.ToString()` is non-empty and all digits, with no leading zero for n ≥ 1 |
| Decimal.ParseDecimalDigits | MicroEngineerProject/MicroEngineer/MicroEngineerMod.cs:764 | reading the rendering back gives the number (round trip) |
| Decimal.DecimalDigitsInjective | MicroEngineerProject/MicroEngineer/MicroEngineerMod.cs:754-758 | different numbers render differently |
| Decimal.DigitCountRanges | MicroEngineerProject/MicroEngineer/MicroEngineerMod.cs:488 | a number has 1, 2, 3 or 4 digits exactly when it lies in [0,10), [10,100), [100,1000) or [1000,10000). This is ⌊log10 h⌋ + 1 for h ≥ 1 |
| Categories.Ordinal | MicroEngineerProject/MicroEngineer/MicroEngineerMod.cs:704-709 | `(int)category` is the member's position in the declaration order |
| VesselEntries.Info | MicroEngineerProject/MicroEngineer/Entries/VesselEntries.cs:7-313 | every entry keeps the inherited default flag. Thrust entries have unit "N" and format "{0:N0}". Mass has unit "kg". The ∆v totals have unit "m/s" |
| VesselEntries.VesselCatalogueCategories | MicroEngineerProject/MicroEngineer/Entries/VesselEntries.cs:7-313 | 16 entry classes. The first five are category Vessel; the rest are Accepted2 |
| VesselEntries.NameIdentifiesKind | MicroEngineerProject/MicroEngineer/Entries/VesselEntries.cs:7-313 | an entry's name identifies its class (`KindNamed` inverts `Info(k).name`) |
| VesselEntries.VesselNamesDistinct | MicroEngineerProject/MicroEngineer/Entries/VesselEntries.cs:7-313 | entry names are pairwise distinct |
| VesselEntries.FirstStage | MicroEngineerProject/MicroEngineer/Entries/VesselEntries.cs:77 | `VesselDeltaV?.StageInfo.FirstOrDefault()` is absent exactly when the solution is absent or has no stages; otherwise it is stage 0 |
| VesselEntries.Times1000 | MicroEngineerProject/MicroEngineer/Entries/VesselEntries.cs:77 | the lifted `* 1000` is null exactly on null, otherwise 1000 times the value |
| VesselEntries.Refresh | MicroEngineerProject/MicroEngineer/Entries/VesselEntries.cs:18-311 | Vessel is the display name; Mass is totalMass × 1000. The ∆v totals are absent exactly when the solution is. The first-stage entries are absent exactly when the solution or its first stage is. When present, each TWR and ISP entry is the matching field of the first stage (Actual, ASL or Vac), each thrust entry is that first-stage thrust × 1000, and each ∆v total or the burn time is the matching field of the solution. Parts is absent exactly when the solution or its part list is; otherwise it is the part count. Only Vessel holds text |
| VesselEntries.VesselDisplay | MicroEngineerProject/MicroEngineer/Entries/VesselEntries.cs:23 | `EntryValue?.ToString()`: absent exactly when the value is; otherwise the text itself |
| VesselEntries.VesselDisplaysName | MicroEngineerProject/MicroEngineer/Entries/VesselEntries.cs:18-23 | refreshing then displaying the Vessel entry shows the vessel's name |
| VesselEntries.MicroEntry.constructor | MicroEngineerProject/MicroEngineer/Entries/VesselEntries.cs:9-16 | the object holds its class's metadata and no value |
| VesselEntries.MicroEntry.RefreshData | MicroEngineerProject/MicroEngineer/Entries/VesselEntries.cs:18-21 | the stored value is `Refresh` of the snapshot, and only Vessel holds text |
| VesselEntries.MicroEntry.ValueDisplay | MicroEngineerProject/MicroEngineer/Entries/VesselEntries.cs:23 | the Vessel entry's display is absent exactly when its value is |
| FlightEntries.Info | src/MicroEngineer/Entries/FlightEntries.cs:8-424 | every entry is category Flight. It is default unless it is Sideslip, Zenith, Drag coefficient, Exposed area or Speed of sound. Its format is "N" with 2 or 3 decimals. Angle entries have base unit "°". Only Speed and Speed of sound have an alternate unit |
| FlightEntries.InfoUnits | src/MicroEngineer/Entries/FlightEntries.cs:16-28 | an entry with a milli unit has the m/""/k/M/G ladder around one base unit, which is m/s, N or g/L. The alternate unit is "km/h", inactive, with factor 3600/1000 |
| FlightEntries.NameIdentifiesKind | src/MicroEngineer/Entries/FlightEntries.cs:8-424 | an entry's name identifies its class |
| FlightEntries.FlightNamesDistinct | src/MicroEngineer/Entries/FlightEntries.cs:8-424 | entry names are pairwise distinct |
| FlightEntries.LiftOverDrag | src/MicroEngineer/Entries/FlightEntries.cs:311-314 | the ratio exists exactly when lift and drag are present and drag is non-zero, and ratio × drag = lift |
| FlightEntries.Refresh | src/MicroEngineer/Entries/FlightEntries.cs:31-422 | each entry stores its own reading. AoA, Sideslip, Total lift and Total drag store the nullable aerodynamic readings unchanged. Lift / Drag stores `LiftOverDrag`. The other entries always hold their vessel reading. Only the aerodynamic entries can be absent |
| FlightEntries.Render | src/MicroEngineer/Entries/FlightEntries.cs:258 | an empty format renders the number with `ToString()`, any other format with `String.Format`, and the number shown is the one given |
| FlightEntries.ForceDisplay | src/MicroEngineer/Entries/FlightEntries.cs:250-260 | "-" exactly when absent; otherwise the value × 1000 |
| FlightEntries.LiftDragRatioDisplay | src/MicroEngineer/Entries/FlightEntries.cs:316-326 | "-" exactly when absent; otherwise the unscaled value, although × 1000 is computed |
| FlightEntries.LiftShownAfterRefresh | src/MicroEngineer/Entries/FlightEntries.cs:245-260 | refresh then display: "-" without a lift reading, otherwise the reading × 1000 in format "N" |
| FlightEntries.FlightEntry.constructor | src/MicroEngineer/Entries/FlightEntries.cs:10-29 | the object holds its class's metadata and no value |
| FlightEntries.FlightEntry.RefreshData | src/MicroEngineer/Entries/FlightEntries.cs:31-34 | the stored value is `Refresh` of the snapshot |
| FlightEntries.FlightEntry.ValueDisplay | src/MicroEngineer/Entries/FlightEntries.cs:250-326 | the three overriding displays show "-" exactly when there is no value |
| StageTables.PositionsFrom | MicroEngineerProject/MicroEngineer/MicroEngineerMod.cs:500-503 | the positions are exactly the stages with ∆v above 0.0001 (vacuum or ASL), in strictly descending order |
| StageTables.RowsFollowPositions | MicroEngineerProject/MicroEngineer/MicroEngineerMod.cs:500-508 | the rows the loop draws are exactly the rows of those positions, one for one |
| StageTables.FlightTable | MicroEngineerProject/MicroEngineer/MicroEngineerMod.cs:500-508 | every stage with ∆v gets a row and no other stage does. Rows go from the highest position down. Each row is labelled stage count − stage |
| StageTables.HighestTwr | MicroEngineerProject/MicroEngineer/MicroEngineerMod.cs:487 | `Max(TWRActual)` bounds every stage's TWR and is one of them |
| StageTables.TwrDecimals | MicroEngineerProject/MicroEngineer/MicroEngineerMod.cs:487-498 | 1 decimal exactly when 100 ≤ h < 1000, 0 exactly when 1000 ≤ h < 10000, and 2 otherwise |
| StageTables.DrawStages | MicroEngineerProject/MicroEngineer/MicroEngineerMod.cs:476-513 | an absent or empty stage list draws nothing. Otherwise the rows are the flight table and the precision is `TwrDecimals` of the floored highest TWR |
| StageTables.OabStagesWithDeltaV | MicroEngineerProject/MicroEngineer/MicroEngineerMod.cs:911-912 | keeps exactly the stages with ∆v above 0.0001, vacuum or ASL |
| StageTables.OabFilterConcat | MicroEngineerProject/MicroEngineer/MicroEngineerMod.cs:911-912 | `FindAll` distributes over concatenation. With the single-stage case below, this fixes the result completely: the matching stages, in their original order, repeats included |
| StageTables.OabFilterSingle | MicroEngineerProject/MicroEngineer/MicroEngineerMod.cs:911-912 | one stage is kept exactly when it has ∆v |
| StageTables.SlotsAfterDraw | MicroEngineerProject/MicroEngineer/MicroEngineerMod.cs:914-919 | after a table of n rows the slots number at least n and at least as many as before. Existing slots are unchanged; new ones hold the home world |
| StageTables.SlotsStep | MicroEngineerProject/MicroEngineer/MicroEngineerMod.cs:917-918 | one more row appends a slot exactly when the row's position equals the slot count |
| StageTables.RedrawKeepsSlots | MicroEngineerProject/MicroEngineer/MicroEngineerMod.cs:914-919 | drawing the same table again changes no slot |
| StageTables.StageInfoOab.constructor | MicroEngineerProject/MicroEngineer/MicroEngineerMod.cs:907-908 | the entry starts with no stages and no slots |
| StageTables.StageInfoOab.RefreshData | MicroEngineerProject/MicroEngineer/MicroEngineerMod.cs:911 | the entry's value is the editor's stage list |
| StageTables.StageInfoOab.AddNewCelestialBody | MicroEngineerProject/MicroEngineer/MicroEngineerMod.cs:918 | appends one slot holding the home world |
| StageTables.StageInfoOab.SetBody | MicroEngineerProject/MicroEngineer/MicroEngineerMod.cs:967 | the picked body replaces exactly one slot |
| StageTables.DrawStageInfoOab | MicroEngineerProject/MicroEngineer/MicroEngineerMod.cs:907-948 | the new slots are `SlotsAfterDraw` of the row count. Row k shows the k-th stage with ∆v from the end, labelled total stages − stage, with slot k's body |
| StageTables.PickedBodySurvivesRedraw | MicroEngineerProject/MicroEngineer/MicroEngineerMod.cs:914-919 | a body picked for a row is still there after the table is drawn again |
| Windows.DeletableIsEditable | MicroEngineerProject/MicroEngineer/MicroEngineerMod.cs:646 | every deletable window is one the edit window can select |
| Windows.SwapAdjacent | MicroEngineerProject/MicroEngineer/MicroEngineerMod.cs:675-681 | exchanges entries i and i + 1 and leaves the rest |
| Windows.SwapAdjacentInverse | MicroEngineerProject/MicroEngineer/MicroEngineerMod.cs:675-681 | moving an entry down then up restores the list, which stays a permutation |
| Windows.RemoveAt | MicroEngineerProject/MicroEngineer/MicroEngineerMod.cs:684 | one entry fewer. The multiset loses exactly that entry, and the others shift down in order |
| Windows.BaseWindow.constructor | MicroEngineerProject/MicroEngineer/MicroEngineerMod.cs:765-777 | the object initialiser sets exactly the given properties, kind and entries |
| Windows.BaseWindow.MoveEntryUp | MicroEngineerProject/MicroEngineer/MicroEngineerMod.cs:676 | swaps the entry with the one above |
| Windows.BaseWindow.MoveEntryDown | MicroEngineerProject/MicroEngineer/MicroEngineerMod.cs:681 | swaps the entry with the one below |
| Windows.BaseWindow.RemoveEntry | MicroEngineerProject/MicroEngineer/MicroEngineerMod.cs:684 | removes the entry at the index |
| Windows.BaseWindow.AddEntry | MicroEngineerProject/MicroEngineer/MicroEngineerMod.cs:731 | appends the entry |
| Windows.BaseWindow.SetLocked | MicroEngineerProject/MicroEngineer/MicroEngineerMod.cs:643 | sets the lock flag |
| Windows.BaseWindow.DrawStagesHeader | MicroEngineerProject/MicroEngineer/MicroEngineerMod.cs:534 | the pop-out flag becomes `PopoutAfterStagesHeader` of the clicks |
| Windows.BaseWindow.DrawSectionHeader | MicroEngineerProject/MicroEngineer/MicroEngineerMod.cs:520 | the pop-out flag becomes `PopoutAfterHeader` of the lock and the clicks |
| Windows.PopoutAfterHeader | MicroEngineerProject/MicroEngineer/MicroEngineerMod.cs:520 | popped out and locked: stays popped out. Popped out and unlocked: docks exactly when close is clicked. Docked: pops out exactly when the arrow is clicked |
| Windows.PopoutAfterStagesHeader | MicroEngineerProject/MicroEngineer/MicroEngineerMod.cs:534 | popped out: docks exactly on close. Docked: pops out exactly on the arrow |
| Windows.HeadersAgreeWhenUnlocked | MicroEngineerProject/MicroEngineer/MicroEngineerMod.cs:520-534 | both headers behave alike on an unlocked window |
| Windows.LockedPopoutStays | MicroEngineerProject/MicroEngineer/MicroEngineerMod.cs:520 | a locked popped-out window stays popped out over any run of frames and clicks |
| Windows.UnclickedHeaderKeepsState | MicroEngineerProject/MicroEngineer/MicroEngineerMod.cs:520 | frames without clicks never change the flag |
| Windows.PreviousIndex | MicroEngineerProject/MicroEngineer/MicroEngineerMod.cs:625 | stays in [0, count) and is (i − 1) mod count, so from 0 it goes to count − 1 |
| Windows.NextIndex | MicroEngineerProject/MicroEngineer/MicroEngineerMod.cs:634 | stays in [0, count) and is (i + 1) mod count, so from the last it goes to 0 |
| Windows.SelectorsInverse | MicroEngineerProject/MicroEngineer/MicroEngineerMod.cs:625-634 | "<" and ">" undo each other |
| Windows.EditableWindows | MicroEngineerProject/MicroEngineer/MicroEngineerMod.cs:614 | `FindAll(w => w.IsEditable)` is no longer than the window list |
| Windows.EditableMembers | MicroEngineerProject/MicroEngineer/MicroEngineerMod.cs:614 | a window is in the editable list exactly when it is in the window list and editable |
| Windows.EditableAppend | MicroEngineerProject/MicroEngineer/MicroEngineerMod.cs:779-780 | appending a window appends it to the editable list exactly when it is editable |
| Windows.EditableConcat | MicroEngineerProject/MicroEngineer/MicroEngineerMod.cs:614 | the editable list of a concatenation is the concatenation of the editable lists |
| Windows.AllEditable | MicroEngineerProject/MicroEngineer/MicroEngineerMod.cs:614 | a list of editable windows is its own editable list |
| Windows.NoneEditable | MicroEngineerProject/MicroEngineer/MicroEngineerMod.cs:614 | windows that are not editable contribute nothing |
| Windows.EditableRange | MicroEngineerProject/MicroEngineer/MicroEngineerMod.cs:614 | when the editable windows are exactly positions lo..hi − 1, the editable list is that slice |
| Windows.EditableDistinct | MicroEngineerProject/MicroEngineer/MicroEngineerMod.cs:614 | distinct windows give a distinct editable list |
| Windows.RemoveFirst | MicroEngineerProject/MicroEngineer/MicroEngineerMod.cs:650-651 | `List.Remove` shortens a list that holds the element by one and leaves other lists unchanged |
| Windows.RemoveFirstDistinct | MicroEngineerProject/MicroEngineer/MicroEngineerMod.cs:650-651 | in a list without repeats, `Remove` of the element at k removes position k |
| Windows.EditableRemove | MicroEngineerProject/MicroEngineer/MicroEngineerMod.cs:650-651 | removing a window from the window list removes it from the editable list |
| Windows.WindowNames | MicroEngineerProject/MicroEngineer/MicroEngineerMod.cs:755-757 | the names of the windows, in order |
| Windows.CustomNameInjective | MicroEngineerProject/MicroEngineer/MicroEngineerMod.cs:757 | different numbers give different `"Custom" + n` names |
| Windows.ScanCustomId | MicroEngineerProject/MicroEngineer/MicroEngineerMod.cs:754-758 | the single pass ends between its start m and m + number of windows |
| Windows.ScanSkipsOtherNames | MicroEngineerProject/MicroEngineer/MicroEngineerMod.cs:754-758 | names that do not start with "Custom" leave the number unchanged |
| Windows.ScanConsecutive | MicroEngineerProject/MicroEngineer/MicroEngineerMod.cs:754-758 | Custom m, Custom m+1, … in order move the number past all of them |
| Windows.CustomNumber | MicroEngineerProject/MicroEngineer/MicroEngineerMod.cs:757 | a name given a number is exactly that number's custom name |
| Windows.CustomNumberOfName | MicroEngineerProject/MicroEngineer/MicroEngineerMod.cs:757 | every custom name reads back as its number |
| Windows.ScanFindsLowestWhenAscending | MicroEngineerProject/MicroEngineer/MicroEngineerMod.cs:754-758 | when the custom numbers appear in ascending order, the pass stops at a free name and every number it skips is taken. So it finds the lowest unused number from m |
| Windows.ScanFillsGap | MicroEngineerProject/MicroEngineer/MicroEngineerMod.cs:754-758 | Custom1, Custom3 gives 2 |
| Windows.ScanCanReuseName | MicroEngineerProject/MicroEngineer/MicroEngineerMod.cs:754-758 | Custom2, Custom3, Custom1 gives 2, a name already taken (finding, as written) |
| Windows.TakenNamesBound | MicroEngineerProject/MicroEngineer/MicroEngineerMod.cs:753 | if Custom1 … Custom(n−1) are all taken, there are at least n − 1 names |
| Windows.LowestUnusedCustomId | MicroEngineerProject/MicroEngineer/MicroEngineerMod.cs:753 | the lowest n ≥ 1 whose name is unused, and n is at most the number of names + 1 (finding, corrected) |
| Windows.CustomAbbreviation | MicroEngineerProject/MicroEngineer/MicroEngineerMod.cs:764 | `"Cu" + n` for one digit, `"C" + n` for two digits, and the bare digits for three or more. So it ends in the digits of n, and for 1 ≤ n < 100 it is exactly 3 characters starting with 'C' |
| Windows.CustomDescriptor | MicroEngineerProject/MicroEngineer/MicroEngineerMod.cs:766-775 | the name is `"Custom" + n` with its abbreviation. The window is flight-active only, not popped out, not locked |
| MicroEngineer.DefaultLayoutShape | MicroEngineerProject/MicroEngineer/MicroEngineerMod.cs:1046-1236 | ten windows in the fixed order MainGui, Settings, Vessel, Orbital, Surface, Flight, Target, Maneuver, Stage, Stage (OAB), one of each kind. Only MainGui and Settings have no entries. None is locked or popped out in flight |
| MicroEngineer.DefaultLayoutNames | MicroEngineerProject/MicroEngineer/MicroEngineerMod.cs:1046-1236 | the ten default windows have distinct names |
| MicroEngineer.LayoutCategories | MicroEngineerProject/MicroEngineer/MicroEngineerMod.cs:1098-1234 | no default window is filled from Accepted2, and only the Vessel window is filled from Vessel |
| MicroEngineer.LayoutKindsEditable | MicroEngineerProject/MicroEngineer/MicroEngineerMod.cs:614 | of the ten kinds exactly Vessel … Maneuver are editable, and none is deletable |
| MicroEngineer.Filter | MicroEngineerProject/MicroEngineer/MicroEngineerMod.cs:1098 | keeps exactly the entries of the category, defaults only when asked |
| MicroEngineer.FilterConcat | MicroEngineerProject/MicroEngineer/MicroEngineerMod.cs:1098 | the filter distributes over concatenation, so the catalogue order is kept |
| MicroEngineer.FilterAll | MicroEngineerProject/MicroEngineer/MicroEngineerMod.cs:1098 | a list that all matches is kept whole |
| MicroEngineer.FilterNone | MicroEngineerProject/MicroEngineer/MicroEngineerMod.cs:1098 | a list that never matches gives nothing |
| MicroEngineer.VesselWindowEntries | MicroEngineerProject/MicroEngineer/MicroEngineerMod.cs:1098 | with the vessel catalogue, the Vessel window gets the five Vessel entries, in catalogue order, when they are defaults. It gets nothing otherwise. Only Vessel and Accepted2 have entries at all |
| MicroEngineer.LayoutEntriesFromVesselCatalogue | MicroEngineerProject/MicroEngineer/MicroEngineerMod.cs:1046-1236 | with the vessel catalogue, every default window's entry list is fixed: the five Vessel entries for the Vessel window when they are defaults, and empty for every other category window. MainGui and Settings have none. No Accepted2 entry is in any window |
| MicroEngineer.DefaultEditable | MicroEngineerProject/MicroEngineer/MicroEngineerMod.cs:614 | the editable windows of a fresh layout are the six from Vessel to Maneuver, and the first cannot be deleted |
| MicroEngineer.EditableRowsHaveCategory | MicroEngineerProject/MicroEngineer/MicroEngineerMod.cs:1083-1207 | every editable default window is filled from a category |
| MicroEngineer.BuiltEntriesPresent | MicroEngineerProject/MicroEngineer/MicroEngineerMod.cs:1083-1207 | every editable window built from the layout has an entry list |
| MicroEngineer.BuiltLayoutEditable | MicroEngineerProject/MicroEngineer/MicroEngineerMod.cs:1040-1236 | a built layout's editable list is windows 2..7, and the edit window can work on it |
| MicroEngineer.CelestialBodiesLoadedOnce | MicroEngineerProject/MicroEngineer/MicroEngineerMod.cs:1238-1244 | an empty table is loaded. A non-empty one is kept, and once loaded it is never replaced |
| MicroEngineer.MicroEngineerMod.constructor | MicroEngineerProject/MicroEngineer/MicroEngineerMod.cs:52-58 | after initialisation: the catalogue is the VesselEntries.cs classes in file order, the ten windows are the default layout, the editable list is windows 2..7, Vessel is selected, the bodies are loaded, and the state is valid |
| MicroEngineer.MicroEngineerMod.InitializeEntries | MicroEngineerProject/MicroEngineer/MicroEngineerMod.cs:1017-1035 | one new entry per VesselEntries.cs class, in file order, with no value |
| MicroEngineer.MicroEngineerMod.AddWindow | MicroEngineerProject/MicroEngineer/MicroEngineerMod.cs:1046-1210 | appends a new window built from the next layout row and keeps what came before |
| MicroEngineer.MicroEngineerMod.InitializeStageInfoOABWindow | MicroEngineerProject/MicroEngineer/MicroEngineerMod.cs:1218-1236 | appends the OAB window, popped out in the editor, as the tenth window |
| MicroEngineer.MicroEngineerMod.InitializeWindows | MicroEngineerProject/MicroEngineer/MicroEngineerMod.cs:1040-1216 | the window list becomes the ten default windows, distinct, each built from its row. The editable list is windows 2..7 |
| MicroEngineer.MicroEngineerMod.InitializeCelestialBodies | MicroEngineerProject/MicroEngineer/MicroEngineerMod.cs:1238-1244 | loads the bodies only into an empty table |
| MicroEngineer.MicroEngineerMod.SelectedWindow | MicroEngineerProject/MicroEngineer/MicroEngineerMod.cs:614-643 | `editableWindows[selectedWindowId]` is an editable window of the list and has entries |
| MicroEngineer.MicroEngineerMod.SelectPreviousWindow | MicroEngineerProject/MicroEngineer/MicroEngineerMod.cs:623-626 | the selection moves back one with wrap-around and stays valid |
| MicroEngineer.MicroEngineerMod.SelectNextWindow | MicroEngineerProject/MicroEngineer/MicroEngineerMod.cs:632-635 | the selection moves on one with wrap-around and stays valid |
| MicroEngineer.MicroEngineerMod.SelectPreviousCategory | MicroEngineerProject/MicroEngineer/MicroEngineerMod.cs:702-705 | the category moves back one member, from the first to the last |
| MicroEngineer.MicroEngineerMod.SelectNextCategory | MicroEngineerProject/MicroEngineer/MicroEngineerMod.cs:707-710 | the category moves on one member, from the last to the first |
| MicroEngineer.MicroEngineerMod.DeleteSelectedWindow | MicroEngineerProject/MicroEngineer/MicroEngineerMod.cs:646-653 | a deletable selection is removed from both lists, and the selection moves to the window before. Anything else changes nothing. The state stays valid |
| MicroEngineer.MicroEngineerMod.CreateCustomWindow | MicroEngineerProject/MicroEngineer/MicroEngineerMod.cs:751-783 | as written: appends a new custom window, numbered by the single pass, with no entries, to both lists, and selects it (index = count − 1) |
| MicroEngineer.MicroEngineerMod.CreateUniqueCustomWindow | MicroEngineerProject/MicroEngineer/MicroEngineerMod.cs:751-783 | corrected: as above, but the name is unused and is the lowest free `CustomN` |
| MicroEngineer.MicroEngineerMod.AppendCustomWindow | MicroEngineerProject/MicroEngineer/MicroEngineerMod.cs:765-782 | appends a new empty custom window with the descriptor of n to both lists and selects it |
| MicroEngineer.MicroEngineerMod.EditMoveEntryUp | MicroEngineerProject/MicroEngineer/MicroEngineerMod.cs:673-677 | swaps with the entry above only when it is not the first; otherwise changes nothing |
| MicroEngineer.MicroEngineerMod.EditMoveEntryDown | MicroEngineerProject/MicroEngineer/MicroEngineerMod.cs:678-681 | swaps with the entry below only when it is not the last; otherwise changes nothing |
| MicroEngineer.MicroEngineerMod.EditRemoveEntry | MicroEngineerProject/MicroEngineer/MicroEngineerMod.cs:682-684 | removes the entry at the index from the selected window |
| MicroEngineer.MicroEngineerMod.EditAddEntry | MicroEngineerProject/MicroEngineer/MicroEngineerMod.cs:729-732 | appends an entry of the selected category to the selected window |
| MicroEngineer.MicroEngineerMod.EditSetLocked | MicroEngineerProject/MicroEngineer/MicroEngineerMod.cs:643 | sets the selected window's lock |
| MicroEngineer.MicroEngineerMod.ResetLayout | MicroEngineerProject/MicroEngineer/MicroEngineerMod.cs:785-788 | as written: a fresh default layout, with the selection index left unchanged |
| MicroEngineer.MicroEngineerMod.ResetLayoutAndSelection | MicroEngineerProject/MicroEngineer/MicroEngineerMod.cs:785-788 | corrected: a fresh default layout with the first editable window selected, and the state valid |
| MicroEngineer.StaleSelectionAfterReset | MicroEngineerProject/MicroEngineer/MicroEngineerMod.cs:785-788 | start, NEW WINDOW, RESET leaves selection 6 with only 6 editable windows, one past the end (finding, as written) |
| MicroEngineer.SelectionValidAfterCorrectedReset | MicroEngineerProject/MicroEngineer/MicroEngineerMod.cs:785-788 | the same steps with the corrected reset leave selection 0 of 6 (finding, corrected) |

## Left out

- Drawing is not modelled: GUILayout/GUI calls, rectangles, `ClampToScreen`, styles, colour tags and `String.Format` rendering. A display is modelled by the value it shows and the format it is given.
- Game messages are not modelled: app-bar registration, message subscriptions and game-state changes are event plumbing.
- `Utility.LoadLayout` / `SaveLayout`, `SecondsToTimeString` and `ValidateAbbreviation` are not part of this model. Their bodies are not available, so neither is the burn-time trimming that depends on them.
- `MicroCelestialBodies.GetTwrFactor`, `GetTWRAtSeaLevel`, `GetDeltaVelAtSeaLevel` and `GetBodies` are not part of this model. They are parameters of the operations that call them.
- `InitializeEntries` finds the entry classes by reflection. The model lists the vessel classes in file order, and that order is assumed.
- MicroEngineer.MicroEngineerMod.InitializeEntries: the catalogue holds only the 16 classes of VesselEntries.cs. The other entry classes the reflection finds are not part of this model: the orbital, surface, target, maneuver, stage, OAB, body and misc entries, and the flight entries, which come from another version.
  - In the model, therefore, the Orbital, Surface, Flight, Target, Maneuver, Stage and Stage (OAB) windows start empty.
  - The window contents are proved only for this catalogue, by `VesselWindowEntries` and `LayoutEntriesFromVesselCatalogue`. `Filter`, `FilterConcat`, `FilterAll` and `FilterNone` hold for any catalogue.
  - The lookups by name of "Torque", "Stage Info (OAB)" and "Total ∆v Actual (OAB)" are not modelled.
  - The `StageInfoOab` entry of the OAB table is modelled on its own. It is not linked to the Stage (OAB) window's entry list.
- Entry descriptions and rectangles are not modelled: no behaviour here depends on them.
- The `try`/`catch` around `InitializeWindows` is not modelled: no modelled step throws.
- Flight entries' `BaseEntry.ValueDisplay` is not modelled: it is not part of the files here.
- StageTables.HighestTwr: TWR is a `real`, and `Mathf.Floor` of a float is `real.Floor`. Float rounding is not modelled.
- StageTables.TwrDecimals: the digit count is the exact decimal length. The float `Mathf.Log10` is not modelled.
- FlightEntries.LiftOverDrag: a zero drag gives no value. The source would give an IEEE infinity or NaN, and floating point is not modelled.
- FlightEntries.InfoUnits: the factor is the exact 3600/1000. The float product `(60f * 60f) / 1000f` is not modelled.
- MicroEngineer.MicroEngineerMod.InitializeWindows: that the windows are newly allocated objects is not stated. Only that they are distinct is stated.
- MicroEngineer.MicroEngineerMod.constructor: it covers `OnInitialized` only as far as entries, windows and bodies.
- Windows.BaseWindow.MoveEntryUp: `BaseWindow` is not part of the files here. Its bodies (adjacent swap, append, remove at an index) are assumed, and so is `IsDeletable` as "custom window". `IsEditable` follows the comment at MicroEngineerMod.cs:614.
- Categories.Ordinal: the enumeration's order is assumed, because `MicroEntryCategory` is not part of the files here. The selector lemmas hold for any order.
- VesselEntries.Info: no vessel entry sets `IsDefault`. The inherited value from `MicroEntry`, which is not part of this model, is a parameter.
- Windows.ScanFindsLowestWhenAscending: outside ascending order the single pass can propose a taken name. That case is the finding below.

## Findings

| source | as written | input that shows it | evidently intended | confidence | as-written member | corrected member |
|---|---|---|---|---|---|---|
| MicroEngineerProject/MicroEngineer/MicroEngineerMod.cs:754-758 | one pass over the editable windows, raising `nameID` each time the next window is named `"Custom" + nameID` | create three custom windows, delete Custom1, and create one more, which is Custom1 again. The list is now Custom2, Custom3, Custom1, and the next creation gives 2, a second window named "Custom2" | the lowest number whose name is not used | not executed | Windows.ScanCanReuseName, MicroEngineer.MicroEngineerMod.CreateCustomWindow | Windows.LowestUnusedCustomId, MicroEngineer.MicroEngineerMod.CreateUniqueCustomWindow |
| MicroEngineerProject/MicroEngineer/MicroEngineerMod.cs:785-788 | `ResetLayout` rebuilds the windows but keeps `selectedWindowId` | after start, NEW WINDOW selects index 6. RESET leaves six editable windows, so `editableWindows[6]` in the edit window is out of range | the reset also selects the first editable window | not executed | MicroEngineer.StaleSelectionAfterReset, MicroEngineer.MicroEngineerMod.ResetLayout | MicroEngineer.SelectionValidAfterCorrectedReset, MicroEngineer.MicroEngineerMod.ResetLayoutAndSelection |

/**
  The mod object of MicroEngineerMod.cs: the entry catalogue, the window
  list, the default layout, and the edit window's state and buttons
  (window and category selectors, new/delete window, entry reordering),
  together with the one-time loading of celestial bodies.
 */
module MicroEngineer {
  import Wrappers
  import Categories
  import Telemetry
  import opened VesselEntries
  import opened Windows

  /** One window of the default layout: its properties, its kind and the category it is filled from. */
  datatype WindowSpec = WindowSpec(
    descriptor: WindowDescriptor,
    kind: MainWindow,
    category: Wrappers.Option<Categories.MicroEntryCategory>)

  /** A docked, unlocked window shown only in flight when `isFlightActive`. */
  function Docked(name: string, abbreviation: Wrappers.Option<string>, description: string, isFlightActive: bool): WindowDescriptor
  {
    WindowDescriptor(name, abbreviation, description, false, isFlightActive, false, false, false, false, false)
  }

  /** The windows `InitializeWindows` adds before the OAB window, in order. */
  const DefaultLayout: seq<WindowSpec> := [
    WindowSpec(Docked("MainGui", Wrappers.None, "Main GUI", false), MainGui, Wrappers.None),
    WindowSpec(Docked("Settings", Wrappers.Some("SET"), "Settings", false), Settings, Wrappers.None),
    WindowSpec(Docked("Vessel", Wrappers.Some("VES"), "Vessel entries", true), MainWindow.Vessel, Wrappers.Some(Categories.Vessel)),
    WindowSpec(Docked("Orbital", Wrappers.Some("ORB"), "Orbital entries", true), Orbital, Wrappers.Some(Categories.Orbital)),
    WindowSpec(Docked("Surface", Wrappers.Some("SUR"), "Surface entries", true), Surface, Wrappers.Some(Categories.Surface)),
    WindowSpec(Docked("Flight", Wrappers.Some("FLT"), "Flight entries", false), Flight, Wrappers.Some(Categories.Flight)),
    WindowSpec(Docked("Target", Wrappers.Some("TGT"), "Flight entries", true), Target, Wrappers.Some(Categories.Target)),
    WindowSpec(Docked("Maneuver", Wrappers.Some("MAN"), "Maneuver entries", true), Maneuver, Wrappers.Some(Categories.Maneuver)),
    WindowSpec(Docked("Stage", Wrappers.Some("STG"), "Stage entries", true), Stage, Wrappers.Some(Categories.Stage))]

  /** `InitializeStageInfoOABWindow`: the editor's stage window, marked popped out. */
  const StageInfoOabSpec: WindowSpec :=
    WindowSpec(
      WindowDescriptor("Stage (OAB)", Wrappers.Some("SOAB"), "Stage Info window for OAB",
        false, false, false, true, false, false, false),
      StageInfoOAB, Wrappers.Some(Categories.OAB))

  /** The kinds of the ten windows of a fresh layout, in order. */
  const LayoutKinds: seq<MainWindow> :=
    [MainGui, Settings, MainWindow.Vessel, Orbital, Surface, Flight, Target, Maneuver, Stage, StageInfoOAB]

  /** Window `i` of a fresh layout is built from this row. */
  function LayoutRow(i: nat): WindowSpec
    requires i < 10
  {
    if i < 9 then DefaultLayout[i] else StageInfoOabSpec
  }

  /** No window of the layout is filled from the Accepted2 category; only the Vessel window from Vessel. */
  lemma LayoutCategories()
    ensures forall i :: 0 <= i < 10 ==> LayoutRow(i).category != Wrappers.Some(Categories.Accepted2)
    ensures forall i :: 0 <= i < 10 ==> (LayoutRow(i).category == Wrappers.Some(Categories.Vessel) <==> i == 2)
  {
  }

  /** Facts about the default layout: one window of each kind, six of them editable. */
  lemma DefaultLayoutShape()
    ensures forall i :: 0 <= i < 10 ==> LayoutRow(i).kind == LayoutKinds[i]
    ensures forall i, j :: 0 <= i < j < 10 ==> LayoutKinds[i] != LayoutKinds[j]
    ensures forall i :: 0 <= i < 10 ==> (LayoutRow(i).category.None? <==> i < 2)
    ensures forall i :: 0 <= i < 10 ==> !LayoutRow(i).descriptor.isLocked && !LayoutRow(i).descriptor.isFlightPoppedOut
  {
  }

  /** The ten windows have distinct names. */
  lemma DefaultLayoutNames()
    ensures forall i, j :: 0 <= i < j < 10 ==> LayoutRow(i).descriptor.name != LayoutRow(j).descriptor.name
  {
  }

  /** An entry of category `c`, and a default entry when `defaultOnly`. */
  predicate Matches(info: MicroEntryInfo, c: Categories.MicroEntryCategory, defaultOnly: bool)
  {
    info.category == c && (defaultOnly ==> info.isDefault)
  }

  /** `es.FindAll(e => e.Category == c [&& e.IsDefault])`, order kept. */
  function Filter(es: seq<MicroEntry>, c: Categories.MicroEntryCategory, defaultOnly: bool): (r: seq<MicroEntry>)
    ensures |r| <= |es|
    ensures forall k :: 0 <= k < |r| ==> r[k] in es && Matches(r[k].info, c, defaultOnly)
    ensures forall k :: 0 <= k < |es| && Matches(es[k].info, c, defaultOnly) ==> es[k] in r
  {
    if es == [] then []
    else (if Matches(es[0].info, c, defaultOnly) then [es[0]] else []) + Filter(es[1..], c, defaultOnly)
  }

  lemma {:induction false} FilterConcat(a: seq<MicroEntry>, b: seq<MicroEntry>, c: Categories.MicroEntryCategory, defaultOnly: bool)
    ensures Filter(a + b, c, defaultOnly) == Filter(a, c, defaultOnly) + Filter(b, c, defaultOnly)
    decreases |a|
  {
    if a != [] {
      assert (a + b)[1..] == a[1..] + b;
      FilterConcat(a[1..], b, c, defaultOnly);
    } else {
      assert a + b == b;
    }
  }

  lemma {:induction false} FilterAll(es: seq<MicroEntry>, c: Categories.MicroEntryCategory, defaultOnly: bool)
    requires forall k :: 0 <= k < |es| ==> Matches(es[k].info, c, defaultOnly)
    ensures Filter(es, c, defaultOnly) == es
    decreases |es|
  {
    if es != [] {
      FilterAll(es[1..], c, defaultOnly);
    }
  }

  lemma {:induction false} FilterNone(es: seq<MicroEntry>, c: Categories.MicroEntryCategory, defaultOnly: bool)
    requires forall k :: 0 <= k < |es| ==> !Matches(es[k].info, c, defaultOnly)
    ensures Filter(es, c, defaultOnly) == []
    decreases |es|
  {
    if es != [] {
      FilterNone(es[1..], c, defaultOnly);
    }
  }

  /** `Where(entry => entry.Category == c && entry.IsDefault)`: a default window's entries. */
  function DefaultEntries(es: seq<MicroEntry>, c: Categories.MicroEntryCategory): seq<MicroEntry>
  {
    Filter(es, c, true)
  }

  /** `FindAll(e => e.Category == selectedCategory)`: the edit window's "Add" list. */
  function EntriesInCategory(es: seq<MicroEntry>, c: Categories.MicroEntryCategory): seq<MicroEntry>
  {
    Filter(es, c, false)
  }

  /** The entries a window of the layout is created with; none for MainGui and Settings. */
  function SpecEntries(spec: WindowSpec, es: seq<MicroEntry>): Wrappers.Option<seq<MicroEntry>>
  {
    if spec.category.Some? then Wrappers.Some(DefaultEntries(es, spec.category.value)) else Wrappers.None
  }

  /** Entries built from the vessel catalogue, one per entry class in file order. */
  predicate IsVesselCatalogue(es: seq<MicroEntry>, d: bool)
  {
    |es| == |AllVesselKinds| && forall i :: 0 <= i < |es| ==> es[i].info == Info(AllVesselKinds[i], d)
  }

  /**
    With the vessel catalogue, the Vessel window holds the five Vessel
    entries when the entries are defaults and nothing otherwise; the
    Accepted2 entries end up in no default window.
   */
  lemma VesselWindowEntries(es: seq<MicroEntry>, d: bool)
    requires IsVesselCatalogue(es, d)
    ensures DefaultEntries(es, Categories.Vessel) == if d then es[..5] else []
    ensures forall c :: c != Categories.Vessel ==> DefaultEntries(es, c) == [] || c == Categories.Accepted2
    ensures forall c :: c != Categories.Vessel && c != Categories.Accepted2 ==> DefaultEntries(es, c) == []
  {
    VesselCatalogueCategories(d);
    assert es == es[..5] + es[5..];
    FilterConcat(es[..5], es[5..], Categories.Vessel, true);
    FilterNone(es[5..], Categories.Vessel, true);
    if d {
      FilterAll(es[..5], Categories.Vessel, true);
    } else {
      FilterNone(es[..5], Categories.Vessel, true);
    }
    forall c | c != Categories.Vessel && c != Categories.Accepted2
      ensures DefaultEntries(es, c) == []
    {
      FilterNone(es, c, true);
    }
  }

  /**
    With the vessel catalogue, the fresh layout's Vessel window gets the
    five Vessel entries when entries are defaults, and every other window
    with an entry list gets none: no Accepted2 entry is in a default window.
   */
  lemma LayoutEntriesFromVesselCatalogue(es: seq<MicroEntry>, d: bool)
    requires IsVesselCatalogue(es, d)
    ensures forall i :: 0 <= i < 10 && LayoutRow(i).category.Some? ==>
      SpecEntries(LayoutRow(i), es) == Wrappers.Some(if i == 2 && d then es[..5] else [])
    ensures forall i :: 0 <= i < 10 && LayoutRow(i).category.None? ==> SpecEntries(LayoutRow(i), es).None?
  {
    VesselWindowEntries(es, d);
    LayoutCategories();
  }

  /** Window `w` is the window the layout row `spec` describes, filled from `es`. */
  ghost predicate BuiltFrom(w: BaseWindow, spec: WindowSpec, es: seq<MicroEntry>)
    reads w
  {
    w.Descriptor() == spec.descriptor && w.mainWindow == spec.kind && w.entries == SpecEntries(spec, es)
  }

  /** The editable windows of a fresh layout are the six from Vessel to Maneuver. */
  lemma DefaultEditable(ws: seq<BaseWindow>)
    requires |ws| == 10 && forall i :: 0 <= i < 10 ==> ws[i].mainWindow == LayoutKinds[i]
    ensures EditableWindows(ws) == ws[2..8]
    ensures !IsDeletable(ws[2].mainWindow)
  {
    LayoutKindsEditable();
    assert forall i :: 0 <= i < |ws| ==> (IsEditable(ws[i].mainWindow) <==> 2 <= i < 8);
    EditableRange(ws, 2, 8);
    assert ws[2].mainWindow == LayoutKinds[2];
  }

  /**
    The edit window can work on these windows: the first editable one cannot
    be deleted, and every editable window has an entry list.
   */
  ghost predicate WindowsEditable(ws: seq<BaseWindow>)
    reads ws
  {
    && |EditableWindows(ws)| > 0
    && !IsDeletable(EditableWindows(ws)[0].mainWindow)
    && forall k :: 0 <= k < |ws| && IsEditable(ws[k].mainWindow) ==> ws[k].entries.Some?
  }

  /** Every editable window of the layout shows a category of entries. */
  lemma EditableRowsHaveCategory()
    ensures forall i :: 0 <= i < 10 && IsEditable(LayoutRow(i).kind) ==> LayoutRow(i).category.Some?
  {
    DefaultLayoutShape();
    LayoutKindsEditable();
  }

  /** Windows built from the ten rows can be edited as the edit window expects. */
  lemma BuiltLayoutEditable(ws: seq<BaseWindow>, es: seq<MicroEntry>)
    requires |ws| == 10 && forall i :: 0 <= i < 10 ==> BuiltFrom(ws[i], LayoutRow(i), es)
    ensures EditableWindows(ws) == ws[2..8]
    ensures WindowsEditable(ws)
  {
    DefaultLayoutShape();
    assert forall i :: 0 <= i < 10 ==> ws[i].mainWindow == LayoutKinds[i];
    DefaultEditable(ws);
    BuiltEntriesPresent(ws, es);
  }

  /** Every editable window built from the layout has an entry list. */
  lemma BuiltEntriesPresent(ws: seq<BaseWindow>, es: seq<MicroEntry>)
    requires |ws| == 10 && forall i :: 0 <= i < 10 ==> BuiltFrom(ws[i], LayoutRow(i), es)
    ensures forall k :: 0 <= k < |ws| && IsEditable(ws[k].mainWindow) ==> ws[k].entries.Some?
  {
    EditableRowsHaveCategory();
  }

  /** Only the windows from Vessel to Maneuver can be edited; none of the ten can be deleted. */
  lemma LayoutKindsEditable()
    ensures |LayoutKinds| == 10
    ensures forall i :: 0 <= i < 10 ==> (IsEditable(LayoutKinds[i]) <==> 2 <= i < 8) && !IsDeletable(LayoutKinds[i])
  {
  }

  /** The `PopulateOnce` of `InitializeCelestialBodies`: keep a non-empty list, otherwise load. */
  function PopulateOnce(current: seq<Telemetry.CelestialBody>, available: seq<Telemetry.CelestialBody>): seq<Telemetry.CelestialBody>
  {
    if |current| > 0 then current else available
  }

  /**
    The bodies are loaded at most once: once the list is non-empty, later
    initialisations leave it as it is, whatever they would load.
   */
  lemma CelestialBodiesLoadedOnce(current: seq<Telemetry.CelestialBody>, first: seq<Telemetry.CelestialBody>, later: seq<Telemetry.CelestialBody>)
    ensures |current| > 0 ==> PopulateOnce(current, first) == current
    ensures |current| == 0 ==> PopulateOnce(current, first) == first
    ensures |PopulateOnce(current, first)| > 0 ==>
      PopulateOnce(PopulateOnce(current, first), later) == PopulateOnce(current, first)
  {
  }

  class MicroEngineerMod {
    var microEntries: seq<MicroEntry>
    var microWindows: seq<BaseWindow>
    var selectedWindowId: int
    var selectedCategory: Categories.MicroEntryCategory
    var celestialBodies: seq<Telemetry.CelestialBody>
    const inheritedIsDefault: bool

    /**
      The edit window can index its selection: the windows are distinct
      objects, the selection is an editable window, and the windows are
      `WindowsEditable`.
     */
    ghost predicate Valid()
      reads this, microWindows
    {
      && Distinct(microWindows)
      && 0 <= selectedWindowId < |EditableWindows(microWindows)|
      && WindowsEditable(microWindows)
    }

    /** `OnInitialized` as far as the model goes: entries, windows, celestial bodies. */
    constructor (inheritedIsDefault: bool, availableBodies: seq<Telemetry.CelestialBody>)
      ensures this.inheritedIsDefault == inheritedIsDefault
      ensures IsVesselCatalogue(microEntries, inheritedIsDefault)
      ensures |microWindows| == 10 && forall i :: 0 <= i < 10 ==> BuiltFrom(microWindows[i], LayoutRow(i), microEntries)
      ensures EditableWindows(microWindows) == microWindows[2..8]
      ensures selectedWindowId == 0 && selectedCategory == Categories.Vessel
      ensures celestialBodies == availableBodies
      ensures Valid()
    {
      this.inheritedIsDefault := inheritedIsDefault;
      microEntries := [];
      microWindows := [];
      selectedWindowId := 0;
      selectedCategory := Categories.Vessel;
      celestialBodies := [];
      new;
      InitializeEntries();
      InitializeWindows();
      InitializeCelestialBodies(availableBodies);
    }

    /** One fresh entry per entry class. */
    method InitializeEntries()
      modifies this`microEntries
      ensures IsVesselCatalogue(microEntries, inheritedIsDefault)
      ensures forall i :: 0 <= i < |microEntries| ==>
        fresh(microEntries[i]) && microEntries[i].kind == AllVesselKinds[i] && microEntries[i].entryValue.None?
    {
      microEntries := [];
      var i := 0;
      while i < |AllVesselKinds|
        invariant 0 <= i <= |AllVesselKinds|
        invariant |microEntries| == i
        invariant forall j :: 0 <= j < i ==> microEntries[j].info == Info(AllVesselKinds[j], inheritedIsDefault)
        invariant forall j :: 0 <= j < i ==>
          fresh(microEntries[j]) && microEntries[j].kind == AllVesselKinds[j] && microEntries[j].entryValue.None?
      {
        var entry := new MicroEntry(AllVesselKinds[i], inheritedIsDefault);
        microEntries := microEntries + [entry];
        i := i + 1;
      }
    }

    /** The windows so far are the first rows of a fresh layout, distinct objects. */
    ghost predicate LayoutSoFar()
      reads this, microWindows
    {
      && |microWindows| <= 10
      && Distinct(microWindows)
      && forall i :: 0 <= i < |microWindows| ==> BuiltFrom(microWindows[i], LayoutRow(i), microEntries)
    }

    /** `MicroWindows.Add(new BaseWindow { ... })` for the next window of the layout. */
    method AddWindow(spec: WindowSpec)
      requires LayoutSoFar() && |microWindows| < 10 && spec == LayoutRow(|microWindows|)
      modifies this`microWindows
      ensures LayoutSoFar()
      ensures |microWindows| == |old(microWindows)| + 1 && microWindows[..|old(microWindows)|] == old(microWindows)
      ensures fresh(microWindows[|old(microWindows)|])
    {
      var w := new BaseWindow(spec.descriptor, spec.kind, SpecEntries(spec, microEntries));
      microWindows := microWindows + [w];
    }

    /** `InitializeStageInfoOABWindow`: the OAB window, added last. */
    method InitializeStageInfoOABWindow()
      requires LayoutSoFar() && |microWindows| == 9
      modifies this`microWindows
      ensures LayoutSoFar()
      ensures |microWindows| == 10 && microWindows[..9] == old(microWindows)
      ensures fresh(microWindows[9])
    {
      AddWindow(StageInfoOabSpec);
    }

    /** Replaces the window list with a fresh default layout. */
    method InitializeWindows()
      modifies this`microWindows
      ensures |microWindows| == 10
      ensures forall i :: 0 <= i < 10 ==> BuiltFrom(microWindows[i], LayoutRow(i), microEntries)
      ensures Distinct(microWindows)
      ensures EditableWindows(microWindows) == microWindows[2..8]
      ensures WindowsEditable(microWindows)
    {
      microWindows := [];
      AddWindow(DefaultLayout[0]);
      AddWindow(DefaultLayout[1]);
      AddWindow(DefaultLayout[2]);
      AddWindow(DefaultLayout[3]);
      AddWindow(DefaultLayout[4]);
      AddWindow(DefaultLayout[5]);
      AddWindow(DefaultLayout[6]);
      AddWindow(DefaultLayout[7]);
      AddWindow(DefaultLayout[8]);
      InitializeStageInfoOABWindow();
      BuiltLayoutEditable(microWindows, microEntries);
    }

    /** `InitializeCelestialBodies`: only an empty list is loaded. */
    method InitializeCelestialBodies(availableBodies: seq<Telemetry.CelestialBody>)
      modifies this`celestialBodies
      ensures celestialBodies == PopulateOnce(old(celestialBodies), availableBodies)
    {
      if |celestialBodies| > 0 {
        return;
      }
      celestialBodies := availableBodies;
    }

    /** `editableWindows[selectedWindowId]`. */
    function SelectedWindow(): (w: BaseWindow)
      reads this, microWindows
      requires Valid()
      ensures w in microWindows && IsEditable(w.mainWindow) && w.entries.Some?
    {
      var w := EditableWindows(microWindows)[selectedWindowId];
      EditableMembers(microWindows, w);
      w
    }

    /** The window selector's "<" button. */
    method SelectPreviousWindow()
      requires Valid()
      modifies this`selectedWindowId
      ensures selectedWindowId == PreviousIndex(old(selectedWindowId), |EditableWindows(microWindows)|)
      ensures Valid()
    {
      selectedWindowId := if selectedWindowId > 0 then selectedWindowId - 1 else |EditableWindows(microWindows)| - 1;
    }

    /** The window selector's ">" button. */
    method SelectNextWindow()
      requires Valid()
      modifies this`selectedWindowId
      ensures selectedWindowId == NextIndex(old(selectedWindowId), |EditableWindows(microWindows)|)
      ensures Valid()
    {
      var count := |EditableWindows(microWindows)|;
      selectedWindowId := if selectedWindowId < count - 1 then selectedWindowId + 1 else 0;
    }

    /** The category selector's "<" button: from the first member to the last. */
    method SelectPreviousCategory()
      modifies this`selectedCategory
      ensures Categories.Ordinal(selectedCategory) ==
        PreviousIndex(Categories.Ordinal(old(selectedCategory)), |Categories.AllCategories|)
    {
      var i := Categories.Ordinal(selectedCategory);
      selectedCategory := if i > 0 then Categories.AllCategories[i - 1]
        else Categories.AllCategories[|Categories.AllCategories| - 1];
    }

    /** The category selector's ">" button: from the last member to the first. */
    method SelectNextCategory()
      modifies this`selectedCategory
      ensures Categories.Ordinal(selectedCategory) ==
        NextIndex(Categories.Ordinal(old(selectedCategory)), |Categories.AllCategories|)
    {
      var i := Categories.Ordinal(selectedCategory);
      var last := |Categories.AllCategories| - 1;
      selectedCategory := if i < last then Categories.AllCategories[i + 1] else Categories.AllCategories[0];
    }

    /** "DEL WINDOW", offered only for a deletable window: remove it and select the one before. */
    method DeleteSelectedWindow()
      requires Valid()
      modifies this`microWindows, this`selectedWindowId
      ensures Valid()
      ensures var target := old(EditableWindows(microWindows)[selectedWindowId]);
        if IsDeletable(target.mainWindow) then
          && microWindows == RemoveFirst(old(microWindows), target)
          && EditableWindows(microWindows) == RemoveAt(old(EditableWindows(microWindows)), old(selectedWindowId))
          && selectedWindowId == old(selectedWindowId) - 1
        else
          microWindows == old(microWindows) && selectedWindowId == old(selectedWindowId)
    {
      var editable := EditableWindows(microWindows);
      var target := editable[selectedWindowId];
      if IsDeletable(target.mainWindow) {
        EditableMembers(microWindows, target);
        var k :| 0 <= k < |microWindows| && microWindows[k] == target;
        var ws := microWindows;
        RemoveFirstDistinct(ws, k);
        EditableRemove(ws, target);
        EditableDistinct(ws);
        RemoveFirstDistinct(editable, selectedWindowId);
        DistinctRemoveAt(ws, k);
        microWindows := RemoveFirst(microWindows, target);
        selectedWindowId := selectedWindowId - 1;
        assert forall j :: 0 <= j < |microWindows| ==> microWindows[j] in ws;
      }
    }

    /**
      `CreateCustomWindow` as written: one pass over the editable windows
      picks the number, then the new window is appended and selected.
     */
    method CreateCustomWindow()
      requires Valid()
      modifies this`microWindows, this`selectedWindowId
      ensures Valid()
      ensures |microWindows| == |old(microWindows)| + 1 && microWindows[..|old(microWindows)|] == old(microWindows)
      ensures var w := microWindows[|old(microWindows)|];
        && fresh(w) && w.mainWindow == None && w.entries == Wrappers.Some([])
        && w.Descriptor() == CustomDescriptor(ScanCustomId(old(WindowNames(EditableWindows(microWindows))), 1))
      ensures EditableWindows(microWindows) == old(EditableWindows(microWindows)) + [microWindows[|old(microWindows)|]]
      ensures selectedWindowId == |EditableWindows(microWindows)| - 1
    {
      var editable := EditableWindows(microWindows);
      var names := WindowNames(editable);
      var nameId := 1;
      var i := 0;
      while i < |editable|
        invariant 0 <= i <= |editable|
        invariant ScanCustomId(names[i..], nameId) == ScanCustomId(names, 1)
      {
        assert names[i..][1..] == names[i + 1..];
        if editable[i].name == CustomName(nameId) {
          nameId := nameId + 1;
        }
        i := i + 1;
      }
      assert names[i..] == [];
      AppendCustomWindow(nameId);
    }

    /**
      The evidently intended `CreateCustomWindow`: the lowest number not
      used by an editable window, so the new name is always fresh.
     */
    method CreateUniqueCustomWindow()
      requires Valid()
      modifies this`microWindows, this`selectedWindowId
      ensures Valid()
      ensures |microWindows| == |old(microWindows)| + 1 && microWindows[..|old(microWindows)|] == old(microWindows)
      ensures var w := microWindows[|old(microWindows)|];
        && fresh(w) && w.mainWindow == None && w.entries == Wrappers.Some([])
        && w.name !in old(WindowNames(EditableWindows(microWindows)))
        && (exists n: nat :: n >= 1 && w.Descriptor() == CustomDescriptor(n)
              && forall j :: 1 <= j < n ==> CustomName(j) in old(WindowNames(EditableWindows(microWindows))))
      ensures EditableWindows(microWindows) == old(EditableWindows(microWindows)) + [microWindows[|old(microWindows)|]]
      ensures selectedWindowId == |EditableWindows(microWindows)| - 1
    {
      var names := WindowNames(EditableWindows(microWindows));
      var nameId := LowestUnusedCustomId(names);
      AppendCustomWindow(nameId);
    }

    /** The part both versions share: append window `CustomNameID` and select it. */
    method AppendCustomWindow(nameId: nat)
      requires Valid()
      modifies this`microWindows, this`selectedWindowId
      ensures Valid()
      ensures |microWindows| == |old(microWindows)| + 1 && microWindows[..|old(microWindows)|] == old(microWindows)
      ensures var w := microWindows[|old(microWindows)|];
        fresh(w) && w.mainWindow == None && w.entries == Wrappers.Some([]) && w.Descriptor() == CustomDescriptor(nameId)
      ensures EditableWindows(microWindows) == old(EditableWindows(microWindows)) + [microWindows[|old(microWindows)|]]
      ensures selectedWindowId == |EditableWindows(microWindows)| - 1
    {
      var w := new BaseWindow(CustomDescriptor(nameId), None, Wrappers.Some([]));
      EditableAppend(microWindows, w);
      microWindows := microWindows + [w];
      selectedWindowId := |EditableWindows(microWindows)| - 1;
    }

    /** The "↑" button of installed entry `index`: only an entry below the first moves. */
    method EditMoveEntryUp(index: nat)
      requires Valid() && index < |SelectedWindow().entries.value|
      modifies SelectedWindow()`entries
      ensures Valid()
      ensures SelectedWindow().entries == Wrappers.Some(
        if index > 0 then SwapAdjacent(old(SelectedWindow().entries.value), index - 1)
        else old(SelectedWindow().entries.value))
    {
      var w := SelectedWindow();
      if index > 0 {
        w.MoveEntryUp(index);
      }
    }

    /** The "↓" button of installed entry `index`: only an entry above the last moves. */
    method EditMoveEntryDown(index: nat)
      requires Valid() && index < |SelectedWindow().entries.value|
      modifies SelectedWindow()`entries
      ensures Valid()
      ensures SelectedWindow().entries == Wrappers.Some(
        if index < |old(SelectedWindow().entries.value)| - 1 then SwapAdjacent(old(SelectedWindow().entries.value), index)
        else old(SelectedWindow().entries.value))
    {
      var w := SelectedWindow();
      if index < |w.entries.value| - 1 {
        w.MoveEntryDown(index);
      }
    }

    /** The "X" button of installed entry `index`. */
    method EditRemoveEntry(index: nat)
      requires Valid() && index < |SelectedWindow().entries.value|
      modifies SelectedWindow()`entries
      ensures Valid()
      ensures SelectedWindow().entries == Wrappers.Some(RemoveAt(old(SelectedWindow().entries.value), index))
    {
      SelectedWindow().RemoveEntry(index);
    }

    /** The "+" button of an entry of the selected category. */
    method EditAddEntry(entry: MicroEntry)
      requires Valid() && entry in EntriesInCategory(microEntries, selectedCategory)
      modifies SelectedWindow()`entries
      ensures Valid()
      ensures SelectedWindow().entries == Wrappers.Some(old(SelectedWindow().entries.value) + [entry])
    {
      SelectedWindow().AddEntry(entry);
    }

    /** The "Locked" toggle of the selected window. */
    method EditSetLocked(locked: bool)
      requires Valid()
      modifies SelectedWindow()`isLocked
      ensures Valid()
      ensures SelectedWindow().isLocked == locked
    {
      SelectedWindow().SetLocked(locked);
    }

    /** `ResetLayout` as written: a fresh default layout, the selection left as it was. */
    method ResetLayout()
      modifies this`microWindows
      ensures |microWindows| == 10
      ensures forall i :: 0 <= i < 10 ==> BuiltFrom(microWindows[i], LayoutRow(i), microEntries)
      ensures EditableWindows(microWindows) == microWindows[2..8]
      ensures selectedWindowId == old(selectedWindowId)
    {
      InitializeWindows();
    }

    /** The evidently intended `ResetLayout`: also select the first editable window again. */
    method ResetLayoutAndSelection()
      modifies this`microWindows, this`selectedWindowId
      ensures |microWindows| == 10
      ensures forall i :: 0 <= i < 10 ==> BuiltFrom(microWindows[i], LayoutRow(i), microEntries)
      ensures EditableWindows(microWindows) == microWindows[2..8]
      ensures selectedWindowId == 0
      ensures Valid()
    {
      InitializeWindows();
      selectedWindowId := 0;
    }
  }

  lemma {:induction false} DistinctRemoveAt<T>(s: seq<T>, k: nat)
    requires Distinct(s) && k < |s|
    ensures Distinct(s[..k] + s[k + 1..])
  {
    var r := s[..k] + s[k + 1..];
    forall i, j | 0 <= i < j < |r|
      ensures r[i] != r[j]
    {
      var i', j' := if i < k then i else i + 1, if j < k then j else j + 1;
      assert r[i] == s[i'] && r[j] == s[j'];
    }
  }

  /**
    Finding: a custom window created after the default layout leaves the
    selection on it; after RESET, the default layout's six editable
    windows no longer reach that index.
   */
  method StaleSelectionAfterReset(d: bool) returns (selected: int, editableCount: nat)
    ensures selected == 6 && editableCount == 6
  {
    var m := new MicroEngineerMod(d, []);
    m.CreateCustomWindow();
    m.ResetLayout();
    selected := m.selectedWindowId;
    editableCount := |EditableWindows(m.microWindows)|;
  }

  /** The same steps with the corrected reset leave a selection the edit window can index. */
  method SelectionValidAfterCorrectedReset(d: bool) returns (selected: int, editableCount: nat)
    ensures selected == 0 && editableCount == 6
  {
    var m := new MicroEngineerMod(d, []);
    m.CreateCustomWindow();
    m.ResetLayoutAndSelection();
    selected := m.selectedWindowId;
    editableCount := |EditableWindows(m.microWindows)|;
  }
}

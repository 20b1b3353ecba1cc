/**
  Windows of MicroEngineerMod.cs: the window object the mod edits in
  place, the header buttons that pop a window out or close it, the
  wrap-around selectors of the edit window, and the naming of custom
  windows.
 */
module Windows {
  import opened VesselEntries
  import Decimal

  /** Which built-in window a window is; custom windows are `None`. */
  datatype MainWindow =
    | None | MainGui | Settings | Vessel | Orbital | Surface | Flight | Target | Maneuver | Stage | StageInfoOAB

  /** Editable windows are all except MainGui, Settings, Stage and StageInfoOAB. */
  predicate IsEditable(k: MainWindow)
  {
    k != MainGui && k != Settings && k != Stage && k != StageInfoOAB
  }

  /** Only custom windows can be deleted. */
  predicate IsDeletable(k: MainWindow)
  {
    k == None
  }

  /** Every deletable window is editable. */
  lemma DeletableIsEditable(k: MainWindow)
    ensures IsDeletable(k) ==> IsEditable(k)
  {
  }

  /** The settable properties of a window (its rectangles are not modelled). */
  datatype WindowDescriptor = WindowDescriptor(
    name: string,
    abbreviation: Wrappers.Option<string>,
    description: string,
    isEditorActive: bool,
    isFlightActive: bool,
    isMapActive: bool,
    isEditorPoppedOut: bool,
    isFlightPoppedOut: bool,
    isMapPoppedOut: bool,
    isLocked: bool)

  import Wrappers

  /** Adjacent entries `i` and `i + 1` exchanged. */
  function SwapAdjacent<T>(s: seq<T>, i: nat): (r: seq<T>)
    requires i + 1 < |s|
    ensures |r| == |s| && r[i] == s[i + 1] && r[i + 1] == s[i]
    ensures forall j :: 0 <= j < |s| && j != i && j != i + 1 ==> r[j] == s[j]
  {
    s[i := s[i + 1]][i + 1 := s[i]]
  }

  /** Moving an entry up and then back down restores the list, which is a permutation throughout. */
  lemma SwapAdjacentInverse<T>(s: seq<T>, i: nat)
    requires i + 1 < |s|
    ensures SwapAdjacent(SwapAdjacent(s, i), i) == s
    ensures multiset(SwapAdjacent(s, i)) == multiset(s)
  {
    var r := SwapAdjacent(s, i);
    assert r == s[..i] + [s[i + 1], s[i]] + s[i + 2..];
    assert s == s[..i] + [s[i], s[i + 1]] + s[i + 2..];
  }

  /** `List.RemoveAt(index)`. */
  function RemoveAt<T>(s: seq<T>, index: nat): (r: seq<T>)
    requires index < |s|
    ensures |r| == |s| - 1
    ensures multiset(r) == multiset(s) - multiset{s[index]}
    ensures forall j :: 0 <= j < |r| ==> r[j] == if j < index then s[j] else s[j + 1]
  {
    assert s == s[..index] + [s[index]] + s[index + 1..];
    s[..index] + s[index + 1..]
  }

  /** A window object: its settable properties and its entries (null for MainGui and Settings). */
  class BaseWindow {
    var name: string
    var abbreviation: Wrappers.Option<string>
    var description: string
    var isEditorActive: bool
    var isFlightActive: bool
    var isMapActive: bool
    var isEditorPoppedOut: bool
    var isFlightPoppedOut: bool
    var isMapPoppedOut: bool
    var isLocked: bool
    const mainWindow: MainWindow
    var entries: Wrappers.Option<seq<MicroEntry>>

    function Descriptor(): WindowDescriptor
      reads this
    {
      WindowDescriptor(name, abbreviation, description, isEditorActive, isFlightActive, isMapActive,
        isEditorPoppedOut, isFlightPoppedOut, isMapPoppedOut, isLocked)
    }

    /** An object initialiser `new BaseWindow { ... }`. */
    constructor (d: WindowDescriptor, mainWindow: MainWindow, entries: Wrappers.Option<seq<MicroEntry>>)
      ensures Descriptor() == d && this.mainWindow == mainWindow && this.entries == entries
    {
      name := d.name;
      abbreviation := d.abbreviation;
      description := d.description;
      isEditorActive := d.isEditorActive;
      isFlightActive := d.isFlightActive;
      isMapActive := d.isMapActive;
      isEditorPoppedOut := d.isEditorPoppedOut;
      isFlightPoppedOut := d.isFlightPoppedOut;
      isMapPoppedOut := d.isMapPoppedOut;
      isLocked := d.isLocked;
      this.mainWindow := mainWindow;
      this.entries := entries;
    }

    method MoveEntryUp(index: nat)
      requires entries.Some? && 0 < index < |entries.value|
      modifies this`entries
      ensures entries == Wrappers.Some(SwapAdjacent(old(entries.value), index - 1))
    {
      entries := Wrappers.Some(SwapAdjacent(entries.value, index - 1));
    }

    method MoveEntryDown(index: nat)
      requires entries.Some? && index + 1 < |entries.value|
      modifies this`entries
      ensures entries == Wrappers.Some(SwapAdjacent(old(entries.value), index))
    {
      entries := Wrappers.Some(SwapAdjacent(entries.value, index));
    }

    method RemoveEntry(index: nat)
      requires entries.Some? && index < |entries.value|
      modifies this`entries
      ensures entries == Wrappers.Some(RemoveAt(old(entries.value), index))
    {
      entries := Wrappers.Some(RemoveAt(entries.value, index));
    }

    method AddEntry(e: MicroEntry)
      requires entries.Some?
      modifies this`entries
      ensures entries == Wrappers.Some(old(entries.value) + [e])
    {
      entries := Wrappers.Some(entries.value + [e]);
    }

    method SetLocked(locked: bool)
      modifies this`isLocked
      ensures isLocked == locked
    {
      isLocked := locked;
    }

    /** `DrawStagesHeader`: the Stage window's own pop-out button. */
    method DrawStagesHeader(closeClicked: bool, popoutClicked: bool)
      modifies this`isFlightPoppedOut
      ensures isFlightPoppedOut == PopoutAfterStagesHeader(old(isFlightPoppedOut), closeClicked, popoutClicked)
    {
      isFlightPoppedOut := if isFlightPoppedOut then !closeClicked else popoutClicked;
    }

    /** `DrawSectionHeader(Name, ref IsFlightPoppedOut, IsLocked)`. */
    method DrawSectionHeader(closeClicked: bool, popoutClicked: bool)
      modifies this`isFlightPoppedOut
      ensures isFlightPoppedOut == PopoutAfterHeader(old(isFlightPoppedOut), isLocked, closeClicked, popoutClicked)
    {
      isFlightPoppedOut :=
        if isFlightPoppedOut && !isLocked then !closeClicked
        else if !isFlightPoppedOut then popoutClicked
        else isFlightPoppedOut;
    }
  }

  /**
    The pop-out flag after a section header is drawn: a popped-out unlocked
    window shows the close button, a docked window the pop-out arrow, and a
    popped-out locked window neither.
   */
  function PopoutAfterHeader(isPopout: bool, isLocked: bool, closeClicked: bool, popoutClicked: bool): (r: bool)
    ensures isPopout && isLocked ==> r
    ensures isPopout && !isLocked ==> (r <==> !closeClicked)
    ensures !isPopout ==> (r <==> popoutClicked)
  {
    if isPopout && !isLocked then !closeClicked
    else if !isPopout then popoutClicked
    else isPopout
  }

  /** The Stage window's header: like the section header, but it does not look at the lock. */
  function PopoutAfterStagesHeader(isPopout: bool, closeClicked: bool, popoutClicked: bool): (r: bool)
    ensures isPopout ==> (r <==> !closeClicked)
    ensures !isPopout ==> (r <==> popoutClicked)
  {
    if isPopout then !closeClicked else popoutClicked
  }

  /** The two headers agree on an unlocked window. */
  lemma HeadersAgreeWhenUnlocked(isPopout: bool, closeClicked: bool, popoutClicked: bool)
    ensures PopoutAfterHeader(isPopout, false, closeClicked, popoutClicked)
      == PopoutAfterStagesHeader(isPopout, closeClicked, popoutClicked)
  {
  }

  /** One frame's clicks on a header: the close button and the pop-out arrow. */
  datatype Clicks = Clicks(close: bool, popout: bool)

  /** The pop-out flag after a header has been drawn once per frame over `frames`. */
  function PopoutAfterFrames(isPopout: bool, isLocked: bool, frames: seq<Clicks>): bool
    decreases |frames|
  {
    if frames == [] then isPopout
    else PopoutAfterFrames(PopoutAfterHeader(isPopout, isLocked, frames[0].close, frames[0].popout), isLocked, frames[1..])
  }

  /** A locked window that is popped out stays popped out, whatever is clicked. */
  lemma {:induction false} LockedPopoutStays(frames: seq<Clicks>)
    ensures PopoutAfterFrames(true, true, frames)
    decreases |frames|
  {
    if frames != [] {
      LockedPopoutStays(frames[1..]);
    }
  }

  /** A flicker-free header: popping out and closing each take one click, and nothing changes without one. */
  lemma {:induction false} UnclickedHeaderKeepsState(isPopout: bool, isLocked: bool, frames: seq<Clicks>)
    requires forall k :: 0 <= k < |frames| ==> !frames[k].close && !frames[k].popout
    ensures PopoutAfterFrames(isPopout, isLocked, frames) == isPopout
    decreases |frames|
  {
    if frames != [] {
      UnclickedHeaderKeepsState(isPopout, isLocked, frames[1..]);
    }
  }

  // ------------------------------------------------------- selectors

  /** The "<" button: one back, from the first to the last. */
  function PreviousIndex(i: int, count: nat): (r: int)
    requires 0 <= i < count
    ensures 0 <= r < count
    ensures r == (i - 1) % count
  {
    if i > 0 then i - 1 else count - 1
  }

  /** The ">" button: one on, from the last to the first. */
  function NextIndex(i: int, count: nat): (r: int)
    requires 0 <= i < count
    ensures 0 <= r < count
    ensures r == (i + 1) % count
  {
    if i < count - 1 then i + 1 else 0
  }

  /** The two buttons undo each other. */
  lemma SelectorsInverse(i: int, count: nat)
    requires 0 <= i < count
    ensures NextIndex(PreviousIndex(i, count), count) == i
    ensures PreviousIndex(NextIndex(i, count), count) == i
  {
  }

  // ------------------------------------------------- editable windows

  predicate Distinct<T(==)>(s: seq<T>)
  {
    forall i, j :: 0 <= i < j < |s| ==> s[i] != s[j]
  }

  /** `MicroWindows.FindAll(w => w.IsEditable)`, order kept. */
  function EditableWindows(ws: seq<BaseWindow>): (r: seq<BaseWindow>)
    ensures |r| <= |ws|
  {
    if ws == [] then []
    else (if IsEditable(ws[0].mainWindow) then [ws[0]] else []) + EditableWindows(ws[1..])
  }

  /** Appending a window appends it to the editable list exactly when it is editable. */
  lemma {:induction false} EditableAppend(ws: seq<BaseWindow>, w: BaseWindow)
    ensures EditableWindows(ws + [w]) == EditableWindows(ws) + if IsEditable(w.mainWindow) then [w] else []
  {
    if ws != [] {
      assert (ws + [w])[1..] == ws[1..] + [w];
      EditableAppend(ws[1..], w);
    } else {
      assert EditableWindows([w]) == (if IsEditable(w.mainWindow) then [w] else []) + EditableWindows([]);
    }
  }

  lemma {:induction false} EditableConcat(a: seq<BaseWindow>, b: seq<BaseWindow>)
    ensures EditableWindows(a + b) == EditableWindows(a) + EditableWindows(b)
  {
    if a != [] {
      assert (a + b)[1..] == a[1..] + b;
      EditableConcat(a[1..], b);
    } else {
      assert a + b == b;
    }
  }

  /** Windows that are all editable are their own editable list. */
  lemma {:induction false} AllEditable(ws: seq<BaseWindow>)
    requires forall k :: 0 <= k < |ws| ==> IsEditable(ws[k].mainWindow)
    ensures EditableWindows(ws) == ws
  {
    if ws != [] {
      AllEditable(ws[1..]);
    }
  }

  /** Windows none of which is editable contribute nothing. */
  lemma {:induction false} NoneEditable(ws: seq<BaseWindow>)
    requires forall k :: 0 <= k < |ws| ==> !IsEditable(ws[k].mainWindow)
    ensures EditableWindows(ws) == []
  {
    if ws != [] {
      NoneEditable(ws[1..]);
    }
  }

  /** When exactly the windows at `lo .. hi - 1` are editable, the editable list is that slice. */
  lemma {:induction false} EditableRange(ws: seq<BaseWindow>, lo: nat, hi: nat)
    requires lo <= hi <= |ws|
    requires forall i :: 0 <= i < |ws| ==> (IsEditable(ws[i].mainWindow) <==> lo <= i < hi)
    ensures EditableWindows(ws) == ws[lo..hi]
    decreases |ws|
  {
    if ws != [] {
      var t := ws[1..];
      assert forall i :: 0 <= i < |t| ==> t[i] == ws[i + 1];
      assert ws == [ws[0]] + t;
      EditableCons(ws[0], t);
      if lo > 0 {
        EditableRange(t, lo - 1, hi - 1);
        assert t[lo - 1..hi - 1] == ws[lo..hi];
      } else if hi > 0 {
        EditableRange(t, 0, hi - 1);
        assert [ws[0]] + t[0..hi - 1] == ws[0..hi];
      } else {
        EditableRange(t, 0, 0);
      }
    }
  }

  lemma {:induction false} EditableDistinct(ws: seq<BaseWindow>)
    requires Distinct(ws)
    ensures Distinct(EditableWindows(ws))
    decreases |ws|
  {
    if ws != [] {
      var t := ws[1..];
      DistinctTail(ws);
      EditableDistinct(t);
      EditableMembers(t, ws[0]);
      assert ws == [ws[0]] + t;
      EditableCons(ws[0], t);
    }
  }

  /** `List.Remove(x)`: the first occurrence of `x` removed; nothing when it is absent. */
  function RemoveFirst<T(==)>(s: seq<T>, x: T): (r: seq<T>)
    ensures x in s ==> |r| == |s| - 1
    ensures x !in s ==> r == s
  {
    if s == [] then []
    else if s[0] == x then s[1..]
    else [s[0]] + RemoveFirst(s[1..], x)
  }

  /** In a list without repeats, removing the element at `k` is `RemoveAt(k)`. */
  lemma {:induction false} RemoveFirstDistinct<T>(s: seq<T>, k: nat)
    requires Distinct(s) && k < |s|
    ensures RemoveFirst(s, s[k]) == s[..k] + s[k + 1..]
  {
    if k > 0 {
      var t := s[1..];
      assert Distinct(t) by {
        forall i, j | 0 <= i < j < |t|
          ensures t[i] != t[j]
        {
          assert t[i] == s[i + 1] && t[j] == s[j + 1];
        }
      }
      assert t[k - 1] == s[k];
      RemoveFirstDistinct(t, k - 1);
      assert s[0] != s[k];
      calc {
        RemoveFirst(s, s[k]);
        [s[0]] + RemoveFirst(t, s[k]);
        [s[0]] + (t[..k - 1] + t[k..]);
        { assert t[..k - 1] == s[1..k]; assert t[k..] == s[k + 1..]; }
        [s[0]] + (s[1..k] + s[k + 1..]);
        { assert s[..k] == [s[0]] + s[1..k]; }
        s[..k] + s[k + 1..];
      }
    }
  }

  /** The editable list of a window followed by others. */
  lemma EditableCons(x: BaseWindow, t: seq<BaseWindow>)
    ensures EditableWindows([x] + t) == (if IsEditable(x.mainWindow) then [x] else []) + EditableWindows(t)
  {
    assert ([x] + t)[1..] == t;
  }

  lemma RemoveFirstCons<T>(x: T, t: seq<T>, y: T)
    requires x != y
    ensures RemoveFirst([x] + t, y) == [x] + RemoveFirst(t, y)
  {
    assert ([x] + t)[1..] == t;
  }

  /** The editable list holds exactly the editable windows of the list. */
  lemma {:induction false} EditableMembers(ws: seq<BaseWindow>, w: BaseWindow)
    ensures w in EditableWindows(ws) <==> w in ws && IsEditable(w.mainWindow)
    decreases |ws|
  {
    if ws != [] {
      EditableMembers(ws[1..], w);
      assert ws == [ws[0]] + ws[1..];
    }
  }

  lemma DistinctTail<T>(s: seq<T>)
    requires Distinct(s) && s != []
    ensures Distinct(s[1..]) && s[0] !in s[1..]
  {
    var t := s[1..];
    forall i, j | 0 <= i < j < |t|
      ensures t[i] != t[j]
    {
      assert t[i] == s[i + 1] && t[j] == s[j + 1];
    }
  }

  /** Removing a window from the window list removes it from the editable list. */
  lemma {:induction false} EditableRemove(ws: seq<BaseWindow>, w: BaseWindow)
    requires Distinct(ws)
    ensures EditableWindows(RemoveFirst(ws, w)) == RemoveFirst(EditableWindows(ws), w)
    decreases |ws|
  {
    if ws != [] {
      var t := ws[1..];
      var pre := if IsEditable(ws[0].mainWindow) then [ws[0]] else [];
      assert ws == [ws[0]] + t;
      EditableCons(ws[0], t);
      DistinctTail(ws);
      if ws[0] == w {
        EditableMembers(t, w);
        if pre != [] {
          assert ([w] + EditableWindows(t))[1..] == EditableWindows(t);
        }
      } else {
        EditableRemove(t, w);
        RemoveShift(ws[0], t, w, pre);
      }
    }
  }

  lemma RemoveShift(x: BaseWindow, t: seq<BaseWindow>, w: BaseWindow, pre: seq<BaseWindow>)
    requires x != w
    requires pre == if IsEditable(x.mainWindow) then [x] else []
    requires EditableWindows(RemoveFirst(t, w)) == RemoveFirst(EditableWindows(t), w)
    ensures EditableWindows(RemoveFirst([x] + t, w)) == RemoveFirst(pre + EditableWindows(t), w)
  {
    calc {
      EditableWindows(RemoveFirst([x] + t, w));
      { RemoveFirstCons(x, t, w); }
      EditableWindows([x] + RemoveFirst(t, w));
      { EditableCons(x, RemoveFirst(t, w)); }
      pre + EditableWindows(RemoveFirst(t, w));
      pre + RemoveFirst(EditableWindows(t), w);
      { if pre != [] { RemoveFirstCons(x, EditableWindows(t), w); }
        else { assert pre + EditableWindows(t) == EditableWindows(t); } }
      RemoveFirst(pre + EditableWindows(t), w);
    }
  }

  function WindowNames(ws: seq<BaseWindow>): (r: seq<string>)
    reads ws
    ensures |r| == |ws| && forall k :: 0 <= k < |ws| ==> r[k] == ws[k].name
  {
    seq(|ws|, k requires 0 <= k < |ws| reads ws => ws[k].name)
  }

  // ---------------------------------------------------- custom windows

  function CustomName(n: nat): string
  {
    "Custom" + Decimal.DecimalDigits(n)
  }

  /** Different numbers give different custom names. */
  lemma CustomNameInjective(a: nat, b: nat)
    ensures CustomName(a) == CustomName(b) ==> a == b
  {
    if CustomName(a) == CustomName(b) {
      assert CustomName(a)[6..] == Decimal.DecimalDigits(a);
      assert CustomName(b)[6..] == Decimal.DecimalDigits(b);
      Decimal.DecimalDigitsInjective(a, b);
    }
  }

  /**
    `CreateCustomWindow`'s single pass: the candidate number goes up by one
    each time the next window carries the current candidate's name.
   */
  function ScanCustomId(names: seq<string>, nameId: nat): (r: nat)
    ensures r >= nameId && r <= nameId + |names|
  {
    if names == [] then nameId
    else ScanCustomId(names[1..], if names[0] == CustomName(nameId) then nameId + 1 else nameId)
  }

  /** Names that do not start with "Custom" leave the candidate alone. */
  lemma {:induction false} ScanSkipsOtherNames(names: seq<string>, m: nat)
    requires forall k :: 0 <= k < |names| ==> |names[k]| < 6 || names[k][..6] != "Custom"
    ensures ScanCustomId(names, m) == m
    decreases |names|
  {
    if names != [] {
      assert CustomName(m)[..6] == "Custom";
      ScanSkipsOtherNames(names[1..], m);
    }
  }

  /** Custom windows created one after another, numbered from `m`, move the candidate past them. */
  lemma {:induction false} ScanConsecutive(m: nat, count: nat)
    ensures ScanCustomId(seq(count, (i: nat) => CustomName(m + i)), m) == m + count
    decreases count
  {
    if count > 0 {
      var names := seq(count, (i: nat) => CustomName(m + i));
      assert names[1..] == seq(count - 1, (i: nat) => CustomName(m + 1 + i));
      ScanConsecutive(m + 1, count - 1);
    }
  }

  /** The number of a name of the form `CustomName(n)`, if it has that form. */
  function CustomNumber(s: string): (r: Wrappers.Option<nat>)
    ensures r.Some? ==> s == CustomName(r.value)
  {
    if |s| > 6 && s[..6] == "Custom" && s[6..] == Decimal.DecimalDigits(Decimal.ParseDecimal(s[6..])) then
      assert s == s[..6] + s[6..];
      Wrappers.Some(Decimal.ParseDecimal(s[6..]))
    else
      Wrappers.None
  }

  /** `CustomNumber` reads back the number of every custom name. */
  lemma CustomNumberOfName(n: nat)
    ensures CustomNumber(CustomName(n)) == Wrappers.Some(n)
  {
    var s := CustomName(n);
    assert s[..6] == "Custom" && s[6..] == Decimal.DecimalDigits(n);
    Decimal.ParseDecimalDigits(n);
  }

  /** The custom numbers among `names` appear in strictly ascending order. */
  predicate CustomAscending(names: seq<string>)
  {
    forall i, j :: 0 <= i < j < |names| && CustomNumber(names[i]).Some? && CustomNumber(names[j]).Some? ==>
      CustomNumber(names[i]).value < CustomNumber(names[j]).value
  }

  /**
    When the custom windows are listed in ascending order, the pass finds
    the lowest unused number from `m` on: every number it skips is taken,
    and the one it stops at is free.
   */
  lemma {:induction false} ScanFindsLowestWhenAscending(names: seq<string>, m: nat)
    requires CustomAscending(names)
    ensures CustomName(ScanCustomId(names, m)) !in names
    ensures forall j :: m <= j < ScanCustomId(names, m) ==> CustomName(j) in names
    decreases |names|
  {
    if names != [] {
      var t := names[1..];
      var hit := names[0] == CustomName(m);
      var m' := if hit then m + 1 else m;
      AscendingTail(names);
      ScanFindsLowestWhenAscending(t, m');
      var r := ScanCustomId(t, m');
      assert ScanCustomId(names, m) == r;
      HeadIsNotCandidate(names, m, r);
      NotInCons(names, CustomName(r));
      GapsCovered(names, m, m', r);
    }
  }

  /** The names the tail covers, plus the head when it matched, are in the list. */
  lemma GapsCovered(names: seq<string>, m: nat, m': nat, r: nat)
    requires names != []
    requires m' == m || (m' == m + 1 && names[0] == CustomName(m))
    requires forall j :: m' <= j < r ==> CustomName(j) in names[1..]
    ensures forall j :: m <= j < r ==> CustomName(j) in names
  {
    forall j | m <= j < r
      ensures CustomName(j) in names
    {
      InCons(names, CustomName(j));
    }
  }

  /**
    The step of the proof above: the name at the head is not the candidate
    the pass stops at, given what the rest of the pass found.
   */
  lemma HeadIsNotCandidate(names: seq<string>, m: nat, r: nat)
    requires CustomAscending(names) && names != []
    requires names[0] == CustomName(m) ==> r > m
    requires r >= m
    requires names[0] != CustomName(m) && r > m ==> CustomName(m) in names[1..]
    ensures names[0] != CustomName(r)
  {
    if names[0] == CustomName(m) {
      CustomNameInjective(r, m);
    } else if r > m {
      var k :| 0 <= k < |names[1..]| && names[1..][k] == CustomName(m);
      assert names[k + 1] == CustomName(m);
      CustomNumberOfName(m);
      CustomNumberOfName(r);
    }
  }

  lemma AscendingTail(names: seq<string>)
    requires CustomAscending(names) && names != []
    ensures CustomAscending(names[1..])
  {
    var t := names[1..];
    forall i, j | 0 <= i < j < |t|
      ensures names[i + 1] == t[i] && names[j + 1] == t[j]
    {
    }
  }

  /** Membership in a non-empty list: the head or the tail. */
  lemma InCons<T>(s: seq<T>, x: T)
    requires s != []
    ensures x in s <==> x == s[0] || x in s[1..]
  {
    assert s == [s[0]] + s[1..];
  }

  lemma NotInCons<T>(s: seq<T>, x: T)
    requires s != [] && x != s[0] && x !in s[1..]
    ensures x !in s
  {
    InCons(s, x);
  }

  /** Custom1 and Custom3 in that order: the pass proposes Custom2, the gap. */
  lemma ScanFillsGap()
    ensures ScanCustomId([CustomName(1), CustomName(3)], 1) == 2
  {
    CustomNameInjective(2, 3);
    var names := [CustomName(1), CustomName(3)];
    assert names[1..] == [CustomName(3)];
  }

  /**
    Finding: with windows [Custom2, Custom3, Custom1] (Custom1 deleted and
    re-created after Custom2 and Custom3), the pass ends at 2 and proposes
    a name that is already taken.
   */
  lemma ScanCanReuseName()
    ensures ScanCustomId([CustomName(2), CustomName(3), CustomName(1)], 1) == 2
    ensures CustomName(2) in [CustomName(2), CustomName(3), CustomName(1)]
  {
    CustomNameInjective(1, 2);
    CustomNameInjective(1, 3);
    CustomNameInjective(2, 3);
    var names := [CustomName(2), CustomName(3), CustomName(1)];
    assert names[1..] == [CustomName(3), CustomName(1)];
    assert names[1..][1..] == [CustomName(1)];
  }

  /** The set of the first `n - 1` custom names has `n - 1` elements. */
  lemma {:induction false} CustomNamesCount(n: nat)
    requires n >= 1
    ensures |set j: nat | 1 <= j < n :: CustomName(j)| == n - 1
  {
    if n > 1 {
      CustomNamesCount(n - 1);
      var s := set j: nat | 1 <= j < n - 1 :: CustomName(j);
      assert (set j: nat | 1 <= j < n :: CustomName(j)) == s + {CustomName(n - 1)};
      forall j | 1 <= j < n - 1
        ensures CustomName(j) != CustomName(n - 1)
      {
        CustomNameInjective(j, n - 1);
      }
    } else {
      assert (set j: nat | 1 <= j < n :: CustomName(j)) == {};
    }
  }

  /** If all of Custom1 .. Custom(n-1) are in `names`, there are at least n - 1 names. */
  lemma TakenNamesBound(names: seq<string>, n: nat)
    requires n >= 1
    requires forall j :: 1 <= j < n ==> CustomName(j) in names
    ensures n - 1 <= |names|
  {
    CustomNamesCount(n);
    var taken := set j: nat | 1 <= j < n :: CustomName(j);
    assert taken <= set x | x in names;
    SetOfSeqSize(names);
    SubsetSize(taken, set x | x in names);
  }

  lemma {:induction false} SubsetSize<T>(a: set<T>, b: set<T>)
    requires a <= b
    ensures |a| <= |b|
    decreases |a|
  {
    if a != {} {
      var x :| x in a;
      SubsetSize(a - {x}, b - {x});
    }
  }

  lemma {:induction false} SetOfSeqSize(s: seq<string>)
    ensures |set x | x in s| <= |s|
  {
    if s != [] {
      SetOfSeqSize(s[1..]);
      assert (set x | x in s) == (set x | x in s[1..]) + {s[0]};
    } else {
      assert (set x | x in s) == {};
    }
  }

  /**
    The evidently intended number: the lowest `n >= 1` whose name is not
    among `names`, found by counting up.
   */
  method LowestUnusedCustomId(names: seq<string>) returns (n: nat)
    ensures n >= 1 && n <= |names| + 1
    ensures CustomName(n) !in names
    ensures forall j :: 1 <= j < n ==> CustomName(j) in names
  {
    n := 1;
    while CustomName(n) in names
      invariant n >= 1
      invariant forall j :: 1 <= j < n ==> CustomName(j) in names
      invariant n <= |names| + 1
      decreases |names| + 1 - n
    {
      TakenNamesBound(names, n + 1);
      n := n + 1;
    }
  }

  /** `nameID.ToString()` prefixed with "Cu" (one digit), "C" (two digits) or nothing. */
  function CustomAbbreviation(n: nat): (r: string)
    ensures var d := Decimal.DecimalDigits(n);
      |r| == (if |d| >= 3 then |d| else 3) && r[|r| - |d|..] == d
    ensures 1 <= n < 100 ==> r[0] == 'C'
    ensures |Decimal.DecimalDigits(n)| == 1 ==> r == "Cu" + Decimal.DecimalDigits(n)
    ensures |Decimal.DecimalDigits(n)| == 2 ==> r == "C" + Decimal.DecimalDigits(n)
    ensures |Decimal.DecimalDigits(n)| >= 3 ==> r == Decimal.DecimalDigits(n)
  {
    var d := Decimal.DecimalDigits(n);
    Decimal.DigitCountRanges(n);
    if |d| == 1 then "Cu" + d
    else if |d| == 2 then "C" + d
    else d
  }

  /** The new window of `CreateCustomWindow`: flight-active, docked, unlocked, no description. */
  function CustomDescriptor(nameId: nat): (d: WindowDescriptor)
    ensures d.name == CustomName(nameId) && d.abbreviation == Wrappers.Some(CustomAbbreviation(nameId))
    ensures d.isFlightActive && !d.isEditorActive && !d.isMapActive && !d.isLocked
    ensures !d.isEditorPoppedOut && !d.isFlightPoppedOut && !d.isMapPoppedOut
  {
    WindowDescriptor(CustomName(nameId), Wrappers.Some(CustomAbbreviation(nameId)), "",
      false, true, false, false, false, false, false)
  }
}

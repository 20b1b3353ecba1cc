/**
  The two stage tables of MicroEngineerMod.cs: the flight table drawn by
  `DrawStages` and the editor (OAB) table drawn by `DrawStageInfoOAB`.
  Drawing is modelled by the rows it would lay out, in order; the caption
  formatting itself is left to the GUI.
 */
module StageTables {
  import opened Wrappers
  import opened Telemetry
  import Decimal

  /** Stages whose ∆v in vacuum or at sea level exceeds this are drawn. */
  const DeltaVThreshold: real := 0.0001

  predicate HasDeltaV(s: DeltaVStageInfo)
  {
    s.deltaVinVac > DeltaVThreshold || s.deltaVatASL > DeltaVThreshold
  }

  /** One drawn row of the flight table: the stage number shown and the stage drawn. */
  datatype FlightRow = FlightRow(stageNumber: int, info: DeltaVStageInfo)

  /** The row stage `i` of `ss` gets: its number counts down from the stage count. */
  function RowAt(ss: seq<DeltaVStageInfo>, i: nat): FlightRow
    requires i < |ss|
  {
    FlightRow(|ss| - ss[i].stage, ss[i])
  }

  /** The indices at or above `lo` of stages with ∆v, highest first. */
  function PositionsFrom(ss: seq<DeltaVStageInfo>, lo: nat): (ps: seq<nat>)
    requires lo <= |ss|
    ensures forall k :: 0 <= k < |ps| ==> lo <= ps[k] < |ss| && HasDeltaV(ss[ps[k]])
    ensures forall i :: lo <= i < |ss| && HasDeltaV(ss[i]) ==> i in ps
    ensures forall k, l :: 0 <= k < l < |ps| ==> ps[k] > ps[l]
    decreases |ss| - lo
  {
    if lo == |ss| then []
    else if HasDeltaV(ss[lo]) then PositionsFrom(ss, lo + 1) + [lo]
    else PositionsFrom(ss, lo + 1)
  }

  /** The rows for the stages at or above `lo`, in the order the loop draws them. */
  function RowsFrom(ss: seq<DeltaVStageInfo>, lo: nat): seq<FlightRow>
    requires lo <= |ss|
    decreases |ss| - lo
  {
    if lo == |ss| then []
    else if HasDeltaV(ss[lo]) then RowsFrom(ss, lo + 1) + [RowAt(ss, lo)]
    else RowsFrom(ss, lo + 1)
  }

  /** The drawn rows are exactly the rows of the positions, one for one. */
  lemma {:induction false} RowsFollowPositions(ss: seq<DeltaVStageInfo>, lo: nat)
    requires lo <= |ss|
    ensures |RowsFrom(ss, lo)| == |PositionsFrom(ss, lo)|
    ensures forall k :: 0 <= k < |RowsFrom(ss, lo)| ==>
      RowsFrom(ss, lo)[k] == RowAt(ss, PositionsFrom(ss, lo)[k])
    decreases |ss| - lo
  {
    if lo < |ss| {
      RowsFollowPositions(ss, lo + 1);
    }
  }

  /**
    The flight table: every stage with ∆v gets a row, no other stage does,
    rows run from the highest stage index down, and each row shows the stage
    count minus the stage's own number.
   */
  lemma FlightTable(ss: seq<DeltaVStageInfo>)
    ensures var rows, ps := RowsFrom(ss, 0), PositionsFrom(ss, 0);
      && |rows| == |ps|
      && (forall k :: 0 <= k < |rows| ==>
            rows[k].info == ss[ps[k]] && HasDeltaV(rows[k].info)
            && rows[k].stageNumber == |ss| - rows[k].info.stage)
      && (forall i :: 0 <= i < |ss| ==> (HasDeltaV(ss[i]) <==> i in ps))
      && (forall k, l :: 0 <= k < l < |ps| ==> ps[k] > ps[l])
  {
    RowsFollowPositions(ss, 0);
  }

  /** `stages.Max(stage => stage.TWRActual)`. */
  function HighestTwr(ss: seq<DeltaVStageInfo>): (m: real)
    requires |ss| > 0
    ensures forall i :: 0 <= i < |ss| ==> ss[i].twrActual <= m
    ensures exists i :: 0 <= i < |ss| && ss[i].twrActual == m
  {
    if |ss| == 1 then ss[0].twrActual
    else
      var m' := HighestTwr(ss[1..]);
      assert forall i :: 1 <= i < |ss| ==> ss[i] == ss[1..][i - 1];
      if ss[0].twrActual >= m' then ss[0].twrActual else m'
  }

  /**
    The number of decimals the TWR column shows (the `N<d>` format), from
    the floor `h` of the highest TWR. The source counts the digits before
    the decimal point as ⌊log10 h⌋ + 1; for h <= 0 that count is not 3 or
    4, so the default of two decimals applies.
   */
  function TwrDecimals(h: int): (d: nat)
    ensures d == 1 <==> 100 <= h < 1000
    ensures d == 0 <==> 1000 <= h < 10000
    ensures d == 2 <==> h < 100 || h >= 10000
  {
    if h < 1 then 2
    else
      var preDecimalDigits := |Decimal.DecimalDigits(h)|;
      Decimal.DigitCountRanges(h);
      if preDecimalDigits == 3 then 1
      else if preDecimalDigits == 4 then 0
      else 2
  }

  /**
    `DrawStages`: the rows of the stage table and, when there is at least one
    stage, the TWR precision they share. An absent or empty stage list draws
    no rows.
   */
  method DrawStages(stages: Option<seq<DeltaVStageInfo>>) returns (rows: seq<FlightRow>, twrDecimals: Option<nat>)
    ensures stages.None? || |stages.value| == 0 ==> rows == [] && twrDecimals == None
    ensures stages.Some? && |stages.value| > 0 ==>
      rows == RowsFrom(stages.value, 0) && twrDecimals == Some(TwrDecimals(HighestTwr(stages.value).Floor))
  {
    rows := [];
    twrDecimals := None;
    var stageCount := if stages.Some? then |stages.value| else 0;
    if stages.Some? && stageCount > 0 {
      var ss := stages.value;
      twrDecimals := Some(TwrDecimals(HighestTwr(ss).Floor));
      var i := |ss|;
      while i > 0
        invariant 0 <= i <= |ss|
        invariant rows == RowsFrom(ss, i)
      {
        i := i - 1;
        if ss[i].deltaVinVac > 0.0001 || ss[i].deltaVatASL > 0.0001 {
          rows := rows + [FlightRow(stageCount - ss[i].stage, ss[i])];
        }
      }
    }
  }

  // ---------------------------------------------------------------- OAB

  predicate OabHasDeltaV(s: OabStageInfo)
  {
    s.deltaVVac > DeltaVThreshold || s.deltaVASL > DeltaVThreshold
  }

  /** `FindAll(s => s.DeltaVVac > 0.0001 || s.DeltaVASL > 0.0001)`, order kept. */
  function OabStagesWithDeltaV(ss: seq<OabStageInfo>): (r: seq<OabStageInfo>)
    ensures |r| <= |ss|
    ensures forall x :: x in r <==> x in ss && OabHasDeltaV(x)
  {
    if ss == [] then []
    else if OabHasDeltaV(ss[0]) then [ss[0]] + OabStagesWithDeltaV(ss[1..])
    else OabStagesWithDeltaV(ss[1..])
  }

  /** The filter distributes over concatenation, so it keeps the order of the stages, repeats included. */
  lemma {:induction false} OabFilterConcat(a: seq<OabStageInfo>, b: seq<OabStageInfo>)
    ensures OabStagesWithDeltaV(a + b) == OabStagesWithDeltaV(a) + OabStagesWithDeltaV(b)
    decreases |a|
  {
    if a != [] {
      assert (a + b)[1..] == a[1..] + b;
      OabFilterConcat(a[1..], b);
    } else {
      assert a + b == b;
    }
  }

  /** A single stage is kept exactly when it has ∆v. */
  lemma OabFilterSingle(s: OabStageInfo)
    ensures OabStagesWithDeltaV([s]) == if OabHasDeltaV(s) then [s] else []
  {
    assert [s][1..] == [];
  }

  /** The body slots after a table of `n` rows is drawn: missing slots get the home world. */
  function SlotsAfterDraw(slots: seq<string>, n: nat, homeWorld: string): (r: seq<string>)
    ensures |r| == if |slots| >= n then |slots| else n
    ensures r[..|slots|] == slots
    ensures forall j :: |slots| <= j < |r| ==> r[j] == homeWorld
  {
    if |slots| >= n then slots
    else slots + seq(n - |slots|, _ => homeWorld)
  }

  /** Drawing one more row adds a slot exactly when the slots ran out. */
  lemma SlotsStep(slots: seq<string>, n: nat, homeWorld: string)
    ensures SlotsAfterDraw(slots, n + 1, homeWorld) ==
      if |SlotsAfterDraw(slots, n, homeWorld)| == n
      then SlotsAfterDraw(slots, n, homeWorld) + [homeWorld]
      else SlotsAfterDraw(slots, n, homeWorld)
  {
    var a, b := SlotsAfterDraw(slots, n, homeWorld), SlotsAfterDraw(slots, n + 1, homeWorld);
    if |a| == n {
      assert |b| == n + 1;
      assert b[..|slots|] == slots;
      forall j | 0 <= j < |b|
        ensures b[j] == (a + [homeWorld])[j]
      {
        if j < |slots| {
          assert b[j] == b[..|slots|][j] && a[j] == a[..|slots|][j];
        }
      }
    }
  }

  /** Drawing again keeps the slots: they only grow when more rows appear. */
  lemma RedrawKeepsSlots(slots: seq<string>, n: nat, homeWorld: string)
    ensures SlotsAfterDraw(SlotsAfterDraw(slots, n, homeWorld), n, homeWorld) == SlotsAfterDraw(slots, n, homeWorld)
  {
  }

  /** One drawn row of the OAB table. */
  datatype OabRow = OabRow(
    stageNumber: int,
    twr: real,
    seaLevelTwr: real,
    seaLevelDeltaV: real,
    vacuumDeltaV: real,
    burnTime: real,
    body: string)

  /**
    The row of stage `s` against body `body`. `twrFactor` is
    `GetTwrFactor`, `twrAtSeaLevel` and `deltaVAtSeaLevel` are the stage's
    `GetTWRAtSeaLevel` and `GetDeltaVelAtSeaLevel` for the body of that name.
   */
  function OabRowFor(
    stageCount: nat, s: OabStageInfo, body: string,
    twrFactor: string -> real,
    twrAtSeaLevel: (OabStageInfo, string) -> real,
    deltaVAtSeaLevel: (OabStageInfo, string) -> real): OabRow
  {
    OabRow(stageCount - s.stage,
      s.twrVac * twrFactor(body),
      twrAtSeaLevel(s, body) * twrFactor(body),
      deltaVAtSeaLevel(s, body),
      s.deltaVVac,
      s.stageBurnTime,
      body)
  }

  /** The OAB stage-info entry, with the body chosen for each drawn row. */
  class StageInfoOab {
    var entryValue: seq<OabStageInfo>
    var celestialBodyForStage: seq<string>

    constructor ()
      ensures entryValue == [] && celestialBodyForStage == []
    {
      entryValue := [];
      celestialBodyForStage := [];
    }

    /** Refreshed from the editor's ∆v solution. */
    method RefreshData(stages: seq<OabStageInfo>)
      modifies this`entryValue
      ensures entryValue == stages
    {
      entryValue := stages;
    }

    /** A new slot for the next row, set to the home world. */
    method AddNewCelestialBody(homeWorld: string)
      modifies this`celestialBodyForStage
      ensures celestialBodyForStage == old(celestialBodyForStage) + [homeWorld]
    {
      celestialBodyForStage := celestialBodyForStage + [homeWorld];
    }

    /** `DrawCelestialBodySelection`: the body picked for the row at `index`. */
    method SetBody(index: nat, name: string)
      requires index < |celestialBodyForStage|
      modifies this`celestialBodyForStage
      ensures celestialBodyForStage == old(celestialBodyForStage)[index := name]
    {
      celestialBodyForStage := celestialBodyForStage[index := name];
    }
  }

  /**
    `DrawStageInfoOAB`'s table: stages with ∆v are drawn from the last one
    back; the `k`-th row drawn uses body slot `k`, which is added (as the
    home world) the first time the table has that many rows.
   */
  method DrawStageInfoOab(
    s: StageInfoOab, homeWorld: string,
    twrFactor: string -> real,
    twrAtSeaLevel: (OabStageInfo, string) -> real,
    deltaVAtSeaLevel: (OabStageInfo, string) -> real)
    returns (rows: seq<OabRow>)
    modifies s`celestialBodyForStage
    ensures var stages := OabStagesWithDeltaV(s.entryValue);
      && s.celestialBodyForStage == SlotsAfterDraw(old(s.celestialBodyForStage), |stages|, homeWorld)
      && |rows| == |stages|
      && forall k :: 0 <= k < |rows| ==>
           rows[k] == OabRowFor(|s.entryValue|, stages[|stages| - 1 - k], s.celestialBodyForStage[k],
             twrFactor, twrAtSeaLevel, deltaVAtSeaLevel)
  {
    var stages := OabStagesWithDeltaV(s.entryValue);
    var celestialIndex := -1;
    var stageIndex := |stages| - 1;
    rows := [];
    while stageIndex >= 0
      invariant -1 <= stageIndex < |stages|
      invariant celestialIndex == |stages| - 2 - stageIndex
      invariant |rows| == celestialIndex + 1
      invariant s.celestialBodyForStage == SlotsAfterDraw(old(s.celestialBodyForStage), celestialIndex + 1, homeWorld)
      invariant forall k :: 0 <= k < |rows| ==>
        rows[k] == OabRowFor(|s.entryValue|, stages[|stages| - 1 - k], s.celestialBodyForStage[k],
          twrFactor, twrAtSeaLevel, deltaVAtSeaLevel)
    {
      SlotsStep(old(s.celestialBodyForStage), celestialIndex + 1, homeWorld);
      celestialIndex := celestialIndex + 1;
      if |s.celestialBodyForStage| == celestialIndex {
        s.AddNewCelestialBody(homeWorld);
      }
      var body := s.celestialBodyForStage[celestialIndex];
      rows := rows + [OabRowFor(|s.entryValue|, stages[stageIndex], body, twrFactor, twrAtSeaLevel, deltaVAtSeaLevel)];
      stageIndex := stageIndex - 1;
    }
  }

  /** A body picked for a drawn row is still that row's body after the table is drawn again. */
  lemma PickedBodySurvivesRedraw(slots: seq<string>, index: nat, name: string, n: nat, homeWorld: string)
    requires index < |slots|
    ensures SlotsAfterDraw(slots[index := name], n, homeWorld)[index] == name
  {
    var r := SlotsAfterDraw(slots[index := name], n, homeWorld);
    assert r[..|slots|][index] == name;
  }
}

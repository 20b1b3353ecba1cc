/**
  The vessel entries (MicroEngineerProject/.../Entries/VesselEntries.cs):
  one variant per entry class, the metadata each constructor assigns, the
  value each `RefreshData` pulls from the active vessel, and the `Vessel`
  entry's own display. In this version an entry is a `MicroEntry` with a
  single `Unit` and a `Formatting` string; no constructor sets `IsDefault`,
  so every entry keeps the value it inherits from `MicroEntry`, which is
  passed in as `inheritedIsDefault`.
 */
module VesselEntries {
  import opened Wrappers
  import Categories
  import opened Telemetry

  datatype VesselKind =
    | Vessel | Mass | TotalDeltaVActual | StageThrustActual | StageTWRActual
    | PartsCount | TotalBurnTime | TotalDeltaVASL | TotalDeltaVVac
    | StageISPAsl | StageISPActual | StageISPVac
    | StageTWRASL | StageTWRVac | StageThrustASL | StageThrustVac

  /** The entry classes in the order the file declares them. */
  const AllVesselKinds: seq<VesselKind> := [
    Vessel, Mass, TotalDeltaVActual, StageThrustActual, StageTWRActual,
    PartsCount, TotalBurnTime, TotalDeltaVASL, TotalDeltaVVac,
    StageISPAsl, StageISPActual, StageISPVac,
    StageTWRASL, StageTWRVac, StageThrustASL, StageThrustVac]

  /** What a `MicroEntry` constructor assigns (the description text is not modelled). */
  datatype MicroEntryInfo = MicroEntryInfo(
    name: string,
    category: Categories.MicroEntryCategory,
    unit: Option<string>,
    formatting: Option<string>,
    isDefault: bool)

  /** The raw `EntryValue` an entry can hold. */
  datatype EntryValue = Text(text: string) | Number(number: real) | Count(count: nat)

  predicate IsDeltaVTotal(k: VesselKind)
  {
    k == TotalDeltaVActual || k == TotalDeltaVASL || k == TotalDeltaVVac || k == TotalBurnTime
  }

  predicate IsThrust(k: VesselKind)
  {
    k == StageThrustActual || k == StageThrustASL || k == StageThrustVac
  }

  /** The entries that read the first stage of the delta-v solution. */
  predicate ReadsFirstStage(k: VesselKind)
  {
    IsThrust(k) || k == StageTWRActual || k == StageTWRASL || k == StageTWRVac
    || k == StageISPAsl || k == StageISPActual || k == StageISPVac
  }

  /** The constructor of each entry class. */
  function Info(k: VesselKind, inheritedIsDefault: bool): (e: MicroEntryInfo)
    ensures e.isDefault == inheritedIsDefault
    ensures IsThrust(k) ==> e.unit == Some("N") && e.formatting == Some("{0:N0}")
    ensures k == Mass ==> e.unit == Some("kg")
    ensures IsDeltaVTotal(k) && k != TotalBurnTime ==> e.unit == Some("m/s")
  {
    var d := inheritedIsDefault;
    var vessel, extra := Categories.Vessel, Categories.Accepted2;
    match k
    case Vessel => MicroEntryInfo("Vessel", vessel, None, None, d)
    case Mass => MicroEntryInfo("Mass", vessel, Some("kg"), Some("{0:N0}"), d)
    case TotalDeltaVActual => MicroEntryInfo("Total ∆v", vessel, Some("m/s"), Some("{0:N0}"), d)
    case StageThrustActual => MicroEntryInfo("Thrust", vessel, Some("N"), Some("{0:N0}"), d)
    case StageTWRActual => MicroEntryInfo("TWR", vessel, None, Some("{0:N2}"), d)
    case PartsCount => MicroEntryInfo("Parts", extra, None, None, d)
    case TotalBurnTime => MicroEntryInfo("Total Burn Time", extra, Some("s"), Some("{0:N0}"), d)
    case TotalDeltaVASL => MicroEntryInfo("Total ∆v ASL", extra, Some("m/s"), Some("{0:N0}"), d)
    case TotalDeltaVVac => MicroEntryInfo("Total ∆v Vac", extra, Some("m/s"), Some("{0:N0}"), d)
    case StageISPAsl => MicroEntryInfo("ISP (ASL)", extra, Some("s"), Some("{0:N0}"), d)
    case StageISPActual => MicroEntryInfo("ISP (Actual)", extra, Some("s"), Some("{0:N0}"), d)
    case StageISPVac => MicroEntryInfo("ISP (Vacuum)", extra, Some("s"), Some("{0:N0}"), d)
    case StageTWRASL => MicroEntryInfo("TWR (ASL)", extra, None, Some("{0:N2}"), d)
    case StageTWRVac => MicroEntryInfo("TWR (Vacuum)", extra, None, Some("{0:N2}"), d)
    case StageThrustASL => MicroEntryInfo("Thrust (ASL)", extra, Some("N"), Some("{0:N0}"), d)
    case StageThrustVac => MicroEntryInfo("Thrust (Vacuum)", extra, Some("N"), Some("{0:N0}"), d)
  }

  /** `VesselDeltaV?.StageInfo.FirstOrDefault()`: absent with the solution or with an empty stage list. */
  function FirstStage(v: ActiveVessel): (s: Option<DeltaVStageInfo>)
    ensures s.None? <==> v.vesselDeltaV.None? || v.vesselDeltaV.value.stageInfo == []
    ensures s.Some? ==> s.value == v.vesselDeltaV.value.stageInfo[0]
  {
    match v.vesselDeltaV
    case None => None
    case Some(dv) => if dv.stageInfo == [] then None else Some(dv.stageInfo[0])
  }

  /** A `Nullable<double>` read as an entry value: null stays null. */
  function AsNumber(x: Option<real>): Option<EntryValue>
  {
    match x
    case None => None
    case Some(r) => Some(Number(r))
  }

  /** `x * 1000` on a `Nullable<double>`: the lifted operator keeps null. */
  function Times1000(x: Option<real>): (r: Option<real>)
    ensures r.None? <==> x.None?
    ensures r.Some? ==> r.value == x.value * 1000.0
  {
    match x
    case None => None
    case Some(a) => Some(a * 1000.0)
  }

  /** A field of the first stage, or null when there is no first stage. */
  function StageField(v: ActiveVessel, field: DeltaVStageInfo -> real): Option<real>
  {
    match FirstStage(v)
    case None => None
    case Some(s) => Some(field(s))
  }

  /** A field of the delta-v solution, or null when there is none. */
  function DeltaVField(v: ActiveVessel, field: VesselDeltaV -> real): Option<real>
  {
    match v.vesselDeltaV
    case None => None
    case Some(dv) => Some(field(dv))
  }

  /** The value each entry's `RefreshData` stores in `EntryValue`. */
  function Refresh(k: VesselKind, v: ActiveVessel): (r: Option<EntryValue>)
    ensures k == Vessel ==> r == Some(Text(v.displayName))
    ensures k == Mass ==> r == Some(Number(v.totalMass * 1000.0))
    ensures IsDeltaVTotal(k) ==> (r.None? <==> v.vesselDeltaV.None?)
    ensures ReadsFirstStage(k) ==>
      (r.None? <==> v.vesselDeltaV.None? || v.vesselDeltaV.value.stageInfo == [])
    ensures k == StageThrustActual && r.Some? ==>
      r.value == Number(v.vesselDeltaV.value.stageInfo[0].thrustActual * 1000.0)
    ensures k == StageThrustASL && r.Some? ==>
      r.value == Number(v.vesselDeltaV.value.stageInfo[0].thrustASL * 1000.0)
    ensures k == StageThrustVac && r.Some? ==>
      r.value == Number(v.vesselDeltaV.value.stageInfo[0].thrustVac * 1000.0)
    ensures k == StageTWRActual && r.Some? ==> r.value == Number(v.vesselDeltaV.value.stageInfo[0].twrActual)
    ensures k == StageTWRASL && r.Some? ==> r.value == Number(v.vesselDeltaV.value.stageInfo[0].twrASL)
    ensures k == StageTWRVac && r.Some? ==> r.value == Number(v.vesselDeltaV.value.stageInfo[0].twrVac)
    ensures k == StageISPAsl && r.Some? ==> r.value == Number(v.vesselDeltaV.value.stageInfo[0].ispASL)
    ensures k == StageISPActual && r.Some? ==> r.value == Number(v.vesselDeltaV.value.stageInfo[0].ispActual)
    ensures k == StageISPVac && r.Some? ==> r.value == Number(v.vesselDeltaV.value.stageInfo[0].ispVac)
    ensures k == TotalDeltaVActual && r.Some? ==> r.value == Number(v.vesselDeltaV.value.totalDeltaVActual)
    ensures k == TotalDeltaVASL && r.Some? ==> r.value == Number(v.vesselDeltaV.value.totalDeltaVASL)
    ensures k == TotalDeltaVVac && r.Some? ==> r.value == Number(v.vesselDeltaV.value.totalDeltaVVac)
    ensures k == TotalBurnTime && r.Some? ==> r.value == Number(v.vesselDeltaV.value.totalBurnTime)
    ensures k == PartsCount ==>
      (r.None? <==> v.vesselDeltaV.None? || v.vesselDeltaV.value.partInfo.None?)
    ensures k == PartsCount && r.Some? ==> r.value == Count(|v.vesselDeltaV.value.partInfo.value|)
    ensures k != Vessel ==> r.None? || !r.value.Text?
  {
    match k
    case Vessel => Some(Text(v.displayName))
    case Mass => Some(Number(v.totalMass * 1000.0))
    case TotalDeltaVActual => AsNumber(DeltaVField(v, (dv: VesselDeltaV) => dv.totalDeltaVActual))
    case StageThrustActual => AsNumber(Times1000(StageField(v, (s: DeltaVStageInfo) => s.thrustActual)))
    case StageTWRActual => AsNumber(StageField(v, (s: DeltaVStageInfo) => s.twrActual))
    case PartsCount =>
      (match v.vesselDeltaV
       case None => None
       case Some(dv) =>
         (match dv.partInfo
          case None => None
          case Some(parts) => Some(Count(|parts|))))
    case TotalBurnTime => AsNumber(DeltaVField(v, (dv: VesselDeltaV) => dv.totalBurnTime))
    case TotalDeltaVASL => AsNumber(DeltaVField(v, (dv: VesselDeltaV) => dv.totalDeltaVASL))
    case TotalDeltaVVac => AsNumber(DeltaVField(v, (dv: VesselDeltaV) => dv.totalDeltaVVac))
    case StageISPAsl => AsNumber(StageField(v, (s: DeltaVStageInfo) => s.ispASL))
    case StageISPActual => AsNumber(StageField(v, (s: DeltaVStageInfo) => s.ispActual))
    case StageISPVac => AsNumber(StageField(v, (s: DeltaVStageInfo) => s.ispVac))
    case StageTWRASL => AsNumber(StageField(v, (s: DeltaVStageInfo) => s.twrASL))
    case StageTWRVac => AsNumber(StageField(v, (s: DeltaVStageInfo) => s.twrVac))
    case StageThrustASL => AsNumber(Times1000(StageField(v, (s: DeltaVStageInfo) => s.thrustASL)))
    case StageThrustVac => AsNumber(Times1000(StageField(v, (s: DeltaVStageInfo) => s.thrustVac)))
  }

  /** `Vessel.ValueDisplay`: `EntryValue?.ToString()`, the name itself or null. */
  function VesselDisplay(value: Option<EntryValue>): (r: Option<string>)
    requires value.None? || value.value.Text?
    ensures r.None? <==> value.None?
    ensures r.Some? ==> r.value == value.value.text
  {
    match value
    case None => None
    case Some(t) => Some(t.text)
  }

  /** After a refresh the Vessel entry displays exactly the vessel's name. */
  lemma VesselDisplaysName(v: ActiveVessel)
    ensures VesselDisplay(Refresh(Vessel, v)) == Some(v.displayName)
  {
  }

  /** The first five entries are category Vessel, the others Accepted2. */
  lemma VesselCatalogueCategories(d: bool)
    ensures |AllVesselKinds| == 16
    ensures forall i :: 0 <= i < 5 ==> Info(AllVesselKinds[i], d).category == Categories.Vessel
    ensures forall i :: 5 <= i < |AllVesselKinds| ==> Info(AllVesselKinds[i], d).category == Categories.Accepted2
  {
  }

  /** The entry class whose display name is `name`, if any. */
  function KindNamed(name: string): Option<VesselKind>
  {
    if name == "Vessel" then Some(Vessel)
    else if name == "Mass" then Some(Mass)
    else if name == "Total ∆v" then Some(TotalDeltaVActual)
    else if name == "Thrust" then Some(StageThrustActual)
    else if name == "TWR" then Some(StageTWRActual)
    else if name == "Parts" then Some(PartsCount)
    else if name == "Total Burn Time" then Some(TotalBurnTime)
    else if name == "Total ∆v ASL" then Some(TotalDeltaVASL)
    else if name == "Total ∆v Vac" then Some(TotalDeltaVVac)
    else if name == "ISP (ASL)" then Some(StageISPAsl)
    else if name == "ISP (Actual)" then Some(StageISPActual)
    else if name == "ISP (Vacuum)" then Some(StageISPVac)
    else if name == "TWR (ASL)" then Some(StageTWRASL)
    else if name == "TWR (Vacuum)" then Some(StageTWRVac)
    else if name == "Thrust (ASL)" then Some(StageThrustASL)
    else if name == "Thrust (Vacuum)" then Some(StageThrustVac)
    else None
  }

  /** An entry's name identifies its class. */
  lemma NameIdentifiesKind(k: VesselKind, d: bool)
    ensures KindNamed(Info(k, d).name) == Some(k)
  {
    if k == Vessel || k == Mass || k == TotalDeltaVActual ||
      k == StageThrustActual || k == StageTWRActual || k == PartsCount ||
      k == TotalBurnTime {
      NamesIdentifyKinds1(k, d);
    } else if k == TotalDeltaVASL || k == TotalDeltaVVac || k == StageISPAsl ||
      k == StageISPActual {
      NamesIdentifyKinds2(k, d);
    } else if k == StageISPVac || k == StageTWRASL || k == StageTWRVac {
      NamesIdentifyKinds3(k, d);
    } else {
      NamesIdentifyKinds4(k, d);
    }
  }

  lemma NamesIdentifyKinds1(k: VesselKind, d: bool)
    requires k == Vessel || k == Mass || k == TotalDeltaVActual ||
      k == StageThrustActual || k == StageTWRActual || k == PartsCount ||
      k == TotalBurnTime
    ensures KindNamed(Info(k, d).name) == Some(k)
  {
  }

  lemma NamesIdentifyKinds2(k: VesselKind, d: bool)
    requires k == TotalDeltaVASL || k == TotalDeltaVVac || k == StageISPAsl ||
      k == StageISPActual
    ensures KindNamed(Info(k, d).name) == Some(k)
  {
  }

  lemma NamesIdentifyKinds3(k: VesselKind, d: bool)
    requires k == StageISPVac || k == StageTWRASL || k == StageTWRVac
    ensures KindNamed(Info(k, d).name) == Some(k)
  {
  }

  lemma NamesIdentifyKinds4(k: VesselKind, d: bool)
    requires k == StageThrustASL || k == StageThrustVac
    ensures KindNamed(Info(k, d).name) == Some(k)
  {
  }

  /** Entry names are pairwise distinct. */
  lemma VesselNamesDistinct(d: bool)
    ensures forall a: VesselKind, b: VesselKind :: a != b ==> Info(a, d).name != Info(b, d).name
  {
    forall a: VesselKind, b: VesselKind | a != b
      ensures Info(a, d).name != Info(b, d).name
    {
      NameIdentifiesKind(a, d);
      NameIdentifiesKind(b, d);
    }
  }

  /** An entry object: the constructor's metadata and the refreshed value. */
  class MicroEntry {
    const kind: VesselKind
    const info: MicroEntryInfo
    var entryValue: Option<EntryValue>

    /** Only the Vessel entry ever holds text, which its display relies on. */
    ghost predicate Valid()
      reads this
    {
      kind == Vessel ==> entryValue.None? || entryValue.value.Text?
    }

    constructor (kind: VesselKind, inheritedIsDefault: bool)
      ensures this.kind == kind && info == Info(kind, inheritedIsDefault)
      ensures entryValue == None && Valid()
    {
      this.kind := kind;
      info := Info(kind, inheritedIsDefault);
      entryValue := None;
    }

    method RefreshData(v: ActiveVessel)
      modifies this`entryValue
      ensures entryValue == Refresh(kind, v) && Valid()
    {
      entryValue := Refresh(kind, v);
    }

    function ValueDisplay(): (r: Option<string>)
      reads this
      requires kind == Vessel && Valid()
      ensures r.None? <==> entryValue.None?
    {
      VesselDisplay(entryValue)
    }
  }
}

/**
  The flight entries (src/MicroEngineer/Entries/FlightEntries.cs). In this
  version an entry is a `BaseEntry` with a five-step unit ladder (milli,
  base, kilo, mega, giga), a decimal count, a numeric format and an
  optional alternate unit. Unit fields a constructor leaves unassigned are
  null. Most entries display through the base class; `TotalLift`,
  `TotalDrag` and `LiftDivDrag` override the display.
 */
module FlightEntries {
  import opened Wrappers
  import Categories
  import opened Telemetry

  datatype FlightKind =
    | Speed | MachNumber | GeeForce | AngleOfAttack | SideSlip
    | Heading | PitchHorizonRelative | RollHorizonRelative | YawHorizonRelative | Zenith
    | TotalLift | TotalDrag | LiftDivDrag | DragCoefficient | ExposedArea
    | AtmosphericDensity | SoundSpeed

  /** The entry classes in the order the file declares them. */
  const AllFlightKinds: seq<FlightKind> := [
    Speed, MachNumber, GeeForce, AngleOfAttack, SideSlip,
    Heading, PitchHorizonRelative, RollHorizonRelative, YawHorizonRelative, Zenith,
    TotalLift, TotalDrag, LiftDivDrag, DragCoefficient, ExposedArea,
    AtmosphericDensity, SoundSpeed]

  /** An alternate unit: a conversion factor applied instead of the ladder when active. */
  datatype AltUnit = AltUnit(isActive: bool, unit: string, factor: real)

  /** What a `BaseEntry` constructor assigns (the description text is not modelled). */
  datatype BaseEntryInfo = BaseEntryInfo(
    name: string,
    category: Categories.MicroEntryCategory,
    isDefault: bool,
    miliUnit: Option<string>,
    baseUnit: Option<string>,
    kiloUnit: Option<string>,
    megaUnit: Option<string>,
    gigaUnit: Option<string>,
    numberOfDecimalDigits: nat,
    formatting: string,
    altUnit: Option<AltUnit>)

  predicate IsAngle(k: FlightKind)
  {
    k == AngleOfAttack || k == SideSlip || k == Heading || k == PitchHorizonRelative
    || k == RollHorizonRelative || k == YawHorizonRelative || k == Zenith
  }

  predicate IsNonDefault(k: FlightKind)
  {
    k == SideSlip || k == Zenith || k == DragCoefficient || k == ExposedArea || k == SoundSpeed
  }

  /** The three base units that come with a full prefix ladder. */
  predicate IsLadderBase(u: string)
  {
    u == "m/s" || u == "N" || u == "g/L"
  }

  /** Five units formed from the prefixes m, "", k, M, G and one base unit. */
  predicate HasLadder(e: BaseEntryInfo)
  {
    && e.baseUnit.Some? && IsLadderBase(e.baseUnit.value)
    && e.miliUnit == Some("m" + e.baseUnit.value)
    && e.kiloUnit == Some("k" + e.baseUnit.value)
    && e.megaUnit == Some("M" + e.baseUnit.value)
    && e.gigaUnit == Some("G" + e.baseUnit.value)
  }

  /** The ladder units of the catalogue are the prefixes applied to their base unit. */
  lemma LadderSpelling()
    ensures "m" + "m/s" == "mm/s" && "k" + "m/s" == "km/s" && "M" + "m/s" == "Mm/s" && "G" + "m/s" == "Gm/s"
    ensures "m" + "N" == "mN" && "k" + "N" == "kN" && "M" + "N" == "MN" && "G" + "N" == "GN"
    ensures "m" + "g/L" == "mg/L" && "k" + "g/L" == "kg/L" && "M" + "g/L" == "Mg/L" && "G" + "g/L" == "Gg/L"
  {
  }

  /** An entry with a single unit (or none) and no alternate unit. */
  function Single(name: string, isDefault: bool, unit: Option<string>, decimals: nat): BaseEntryInfo
  {
    BaseEntryInfo(name, Categories.Flight, isDefault, None, unit, None, None, None, decimals, "N", None)
  }

  const KilometresPerHour: AltUnit := AltUnit(false, "km/h", (60.0 * 60.0) / 1000.0)

  /** The constructor of each entry class. */
  function Info(k: FlightKind): (e: BaseEntryInfo)
    ensures e.category == Categories.Flight
    ensures e.isDefault <==> !IsNonDefault(k)
    ensures e.formatting == "N" && (e.numberOfDecimalDigits == 2 || e.numberOfDecimalDigits == 3)
    ensures IsAngle(k) ==> e.baseUnit == Some("°")
    ensures e.altUnit.Some? <==> k == Speed || k == SoundSpeed
  {
    match k
    case Speed =>
      BaseEntryInfo("Speed", Categories.Flight, true, Some("mm/s"), Some("m/s"), Some("km/s"),
        Some("Mm/s"), Some("Gm/s"), 2, "N", Some(KilometresPerHour))
    case MachNumber => Single("Mach number", true, None, 2)
    case GeeForce => Single("G-Force", true, Some("g"), 3)
    case AngleOfAttack => Single("AoA", true, Some("°"), 3)
    case SideSlip => Single("Sideslip", false, Some("°"), 3)
    case Heading => Single("Heading", true, Some("°"), 2)
    case PitchHorizonRelative => Single("Pitch", true, Some("°"), 2)
    case RollHorizonRelative => Single("Roll", true, Some("°"), 2)
    case YawHorizonRelative => Single("Yaw", true, Some("°"), 2)
    case Zenith => Single("Zenith", false, Some("°"), 2)
    case TotalLift =>
      BaseEntryInfo("Total lift", Categories.Flight, true, Some("mN"), Some("N"), Some("kN"),
        Some("MN"), Some("GN"), 2, "N", None)
    case TotalDrag =>
      BaseEntryInfo("Total drag", Categories.Flight, true, Some("mN"), Some("N"), Some("kN"),
        Some("MN"), Some("GN"), 2, "N", None)
    case LiftDivDrag => Single("Lift / Drag", true, None, 2)
    case DragCoefficient => Single("Drag coefficient", false, None, 2)
    case ExposedArea => Single("Exposed area", false, None, 2)
    case AtmosphericDensity =>
      BaseEntryInfo("Atm. density", Categories.Flight, true, Some("mg/L"), Some("g/L"), Some("kg/L"),
        Some("Mg/L"), Some("Gg/L"), 2, "N", None)
    case SoundSpeed =>
      BaseEntryInfo("Speed of sound", Categories.Flight, false, Some("mm/s"), Some("m/s"), Some("km/s"),
        Some("Mm/s"), Some("Gm/s"), 2, "N", Some(KilometresPerHour))
  }

  /**
    Units: an entry with a milli unit has the whole m/k/M/G ladder around
    one base unit, and the two speeds offer km/h, inactive, at 3.6 km/h per m/s.
   */
  lemma InfoUnits(k: FlightKind)
    ensures Info(k).miliUnit.Some? ==> HasLadder(Info(k))
    ensures Info(k).altUnit.Some? ==>
      !Info(k).altUnit.value.isActive && Info(k).altUnit.value.unit == "km/h" &&
      Info(k).altUnit.value.factor == 3600.0 / 1000.0
  {
    LadderSpelling();
  }

  /** The entry class whose display name is `name`, if any. */
  function KindNamed(name: string): Option<FlightKind>
  {
    if name == "Speed" then Some(Speed)
    else if name == "Mach number" then Some(MachNumber)
    else if name == "G-Force" then Some(GeeForce)
    else if name == "AoA" then Some(AngleOfAttack)
    else if name == "Sideslip" then Some(SideSlip)
    else if name == "Heading" then Some(Heading)
    else if name == "Pitch" then Some(PitchHorizonRelative)
    else if name == "Roll" then Some(RollHorizonRelative)
    else if name == "Yaw" then Some(YawHorizonRelative)
    else if name == "Zenith" then Some(Zenith)
    else if name == "Total lift" then Some(TotalLift)
    else if name == "Total drag" then Some(TotalDrag)
    else if name == "Lift / Drag" then Some(LiftDivDrag)
    else if name == "Drag coefficient" then Some(DragCoefficient)
    else if name == "Exposed area" then Some(ExposedArea)
    else if name == "Atm. density" then Some(AtmosphericDensity)
    else if name == "Speed of sound" then Some(SoundSpeed)
    else None
  }

  /** An entry's name identifies its class. */
  lemma NameIdentifiesKind(k: FlightKind)
    ensures KindNamed(Info(k).name) == Some(k)
  {
    if k == Speed || k == MachNumber || k == GeeForce ||
      k == AngleOfAttack || k == SideSlip || k == Heading ||
      k == PitchHorizonRelative {
      NamesIdentifyKinds1(k);
    } else if k == RollHorizonRelative || k == YawHorizonRelative || k == Zenith ||
      k == TotalLift {
      NamesIdentifyKinds2(k);
    } else if k == TotalDrag || k == LiftDivDrag || k == DragCoefficient {
      NamesIdentifyKinds3(k);
    } else if k == ExposedArea || k == AtmosphericDensity {
      NamesIdentifyKinds4(k);
    } else {
      NamesIdentifyKinds5(k);
    }
  }

  lemma NamesIdentifyKinds1(k: FlightKind)
    requires k == Speed || k == MachNumber || k == GeeForce ||
      k == AngleOfAttack || k == SideSlip || k == Heading ||
      k == PitchHorizonRelative
    ensures KindNamed(Info(k).name) == Some(k)
  {
  }

  lemma NamesIdentifyKinds2(k: FlightKind)
    requires k == RollHorizonRelative || k == YawHorizonRelative || k == Zenith ||
      k == TotalLift
    ensures KindNamed(Info(k).name) == Some(k)
  {
  }

  lemma NamesIdentifyKinds3(k: FlightKind)
    requires k == TotalDrag || k == LiftDivDrag || k == DragCoefficient
    ensures KindNamed(Info(k).name) == Some(k)
  {
  }

  lemma NamesIdentifyKinds4(k: FlightKind)
    requires k == ExposedArea || k == AtmosphericDensity
    ensures KindNamed(Info(k).name) == Some(k)
  {
  }

  lemma NamesIdentifyKinds5(k: FlightKind)
    requires k == SoundSpeed
    ensures KindNamed(Info(k).name) == Some(k)
  {
  }

  /** Entry names are pairwise distinct. */
  lemma FlightNamesDistinct()
    ensures forall a: FlightKind, b: FlightKind :: a != b ==> Info(a).name != Info(b).name
  {
    forall a: FlightKind, b: FlightKind | a != b
      ensures Info(a).name != Info(b).name
    {
      NameIdentifiesKind(a);
      NameIdentifiesKind(b);
    }
  }

  /** `TotalLift / TotalDrag` on nullable readings; a zero drag gives no value here. */
  function LiftOverDrag(aero: AeroForces): (r: Option<real>)
    ensures r.Some? <==> aero.totalLift.Some? && aero.totalDrag.Some? && aero.totalDrag.value != 0.0
    ensures r.Some? ==> r.value * aero.totalDrag.value == aero.totalLift.value
  {
    if aero.totalLift.Some? && aero.totalDrag.Some? && aero.totalDrag.value != 0.0 then
      Some(aero.totalLift.value / aero.totalDrag.value)
    else
      None
  }

  /** The value each entry's `RefreshData` stores in `EntryValue`. */
  function Refresh(k: FlightKind, t: FlightTelemetry): (r: Option<real>)
    ensures k == TotalLift ==> r == t.aero.totalLift
    ensures k == TotalDrag ==> r == t.aero.totalDrag
    ensures k == LiftDivDrag ==> r == LiftOverDrag(t.aero)
    ensures k == AngleOfAttack ==> r == t.aero.angleOfAttack
    ensures k == SideSlip ==> r == t.aero.sideSlip
    ensures k == Speed ==> r == Some(t.surfaceSpeed)
    ensures k == MachNumber ==> r == Some(t.machNumber)
    ensures k == GeeForce ==> r == Some(t.geeForce)
    ensures k == Heading ==> r == Some(t.heading)
    ensures k == PitchHorizonRelative ==> r == Some(t.pitch)
    ensures k == RollHorizonRelative ==> r == Some(t.roll)
    ensures k == YawHorizonRelative ==> r == Some(t.yaw)
    ensures k == Zenith ==> r == Some(t.zenith)
    ensures k == DragCoefficient ==> r == Some(t.dragCoefficient)
    ensures k == ExposedArea ==> r == Some(t.exposedArea)
    ensures k == AtmosphericDensity ==> r == Some(t.atmosphericDensity)
    ensures k == SoundSpeed ==> r == Some(t.soundSpeed)
    ensures r.None? ==> k == AngleOfAttack || k == SideSlip || k == TotalLift || k == TotalDrag || k == LiftDivDrag
  {
    match k
    case Speed => Some(t.surfaceSpeed)
    case MachNumber => Some(t.machNumber)
    case GeeForce => Some(t.geeForce)
    case AngleOfAttack => t.aero.angleOfAttack
    case SideSlip => t.aero.sideSlip
    case Heading => Some(t.heading)
    case PitchHorizonRelative => Some(t.pitch)
    case RollHorizonRelative => Some(t.roll)
    case YawHorizonRelative => Some(t.yaw)
    case Zenith => Some(t.zenith)
    case TotalLift => t.aero.totalLift
    case TotalDrag => t.aero.totalDrag
    case LiftDivDrag => LiftOverDrag(t.aero)
    case DragCoefficient => Some(t.dragCoefficient)
    case ExposedArea => Some(t.exposedArea)
    case AtmosphericDensity => Some(t.atmosphericDensity)
    case SoundSpeed => Some(t.soundSpeed)
  }

  /**
    A display value before text rendering: the placeholder "-", a number
    rendered by `ToString()`, or a number rendered by `String.Format`
    with the entry's format.
   */
  datatype Display = Dash | Plain(value: real) | Formatted(format: string, value: real)

  /** The shape of a numeric display: which rendering a format selects. */
  function Render(format: string, x: real): (d: Display)
    ensures !d.Dash? && d.value == x
    ensures d.Formatted? <==> format != ""
  {
    if format == "" then Plain(x) else Formatted(format, x)
  }

  /** `TotalLift.ValueDisplay` and `TotalDrag.ValueDisplay`: "-" when absent, else value × 1000. */
  function ForceDisplay(entryValue: Option<real>, formatting: string): (d: Display)
    ensures d.Dash? <==> entryValue.None?
    ensures entryValue.Some? ==> d.value == entryValue.value * 1000.0
  {
    match entryValue
    case None => Dash
    case Some(v) => Render(formatting, v * 1000.0)
  }

  /** `LiftDivDrag.ValueDisplay`: the ×1000 product is computed but the unscaled value is shown. */
  function LiftDragRatioDisplay(entryValue: Option<real>, formatting: string): (d: Display)
    ensures d.Dash? <==> entryValue.None?
    ensures entryValue.Some? ==> d.value == entryValue.value
  {
    match entryValue
    case None => Dash
    case Some(v) =>
      var scaled := v * 1000.0;
      Render(formatting, v)
  }

  predicate OverridesDisplay(k: FlightKind)
  {
    k == TotalLift || k == TotalDrag || k == LiftDivDrag
  }

  /** Refresh then display: total lift shows "-" exactly when no lift reading exists. */
  lemma LiftShownAfterRefresh(t: FlightTelemetry)
    ensures ForceDisplay(Refresh(TotalLift, t), Info(TotalLift).formatting) ==
      if t.aero.totalLift.None? then Dash else Formatted("N", t.aero.totalLift.value * 1000.0)
  {
  }

  /** An entry object: the constructor's metadata and the refreshed value. */
  class FlightEntry {
    const kind: FlightKind
    const info: BaseEntryInfo
    var entryValue: Option<real>

    constructor (kind: FlightKind)
      ensures this.kind == kind && info == Info(kind) && entryValue == None
    {
      this.kind := kind;
      info := Info(kind);
      entryValue := None;
    }

    method RefreshData(t: FlightTelemetry)
      modifies this`entryValue
      ensures entryValue == Refresh(kind, t)
    {
      entryValue := Refresh(kind, t);
    }

    /** The display of the three entries that override the base class's. */
    function ValueDisplay(): (d: Display)
      reads this
      requires OverridesDisplay(kind)
      ensures d.Dash? <==> entryValue.None?
    {
      if kind == LiftDivDrag then LiftDragRatioDisplay(entryValue, info.formatting)
      else ForceDisplay(entryValue, info.formatting)
    }
  }
}

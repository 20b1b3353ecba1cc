/**
  The parts of the host simulation's state that the entries and the stage
  tables read. The host objects (`VesselComponent`, `VesselDeltaVComponent`,
  `DeltaVStageInfo`, `AeroForces`, ...) become plain records; a reference
  that may be null, or a `Nullable<double>`, becomes an Option.
 */
module Telemetry {
  import opened Wrappers

  /** One stage of the host's delta-v solution (`DeltaVStageInfo`). */
  datatype DeltaVStageInfo = DeltaVStageInfo(
    stage: int,
    deltaVinVac: real,
    deltaVatASL: real,
    deltaVActual: real,
    stageBurnTime: real,
    thrustActual: real,
    thrustASL: real,
    thrustVac: real,
    twrActual: real,
    twrASL: real,
    twrVac: real,
    ispActual: real,
    ispASL: real,
    ispVac: real)

  /** One part record of the delta-v solution; only the number of them is read. */
  datatype DeltaVPartInfo = DeltaVPartInfo

  /** The vessel's delta-v solution (`VesselDeltaVComponent`). */
  datatype VesselDeltaV = VesselDeltaV(
    totalDeltaVActual: real,
    totalDeltaVASL: real,
    totalDeltaVVac: real,
    totalBurnTime: real,
    stageInfo: seq<DeltaVStageInfo>,
    partInfo: Option<seq<DeltaVPartInfo>>)

  /** The active vessel as the vessel entries read it. */
  datatype ActiveVessel = ActiveVessel(
    displayName: string,
    totalMass: real,
    vesselDeltaV: Option<VesselDeltaV>)

  /** The aerodynamic readings; each may be unavailable. */
  datatype AeroForces = AeroForces(
    angleOfAttack: Option<real>,
    sideSlip: Option<real>,
    totalLift: Option<real>,
    totalDrag: Option<real>)

  /** The active vessel and aerodynamics as the flight entries read them. */
  datatype FlightTelemetry = FlightTelemetry(
    surfaceSpeed: real,
    machNumber: real,
    geeForce: real,
    heading: real,
    pitch: real,
    roll: real,
    yaw: real,
    zenith: real,
    dragCoefficient: real,
    exposedArea: real,
    atmosphericDensity: real,
    soundSpeed: real,
    aero: AeroForces)

  /** One stage of the editor's delta-v solution (`DeltaVStageInfo_OAB`). */
  datatype OabStageInfo = OabStageInfo(
    stage: int,
    deltaVVac: real,
    deltaVASL: real,
    twrVac: real,
    stageBurnTime: real)

  /** A reference body of the celestial-body table. */
  datatype CelestialBody = CelestialBody(name: string, displayName: string)
}

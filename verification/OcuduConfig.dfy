/** The OCUDU bootstrap configuration (pkg/provider/ocudu/config.go): a spec, the record built from it, and its lines. */
module OcuduConfig {
  import opened Prelude
  import opened Text

  // ---- the NTNCellConfig spec, as far as the configuration reads it ----------------------------------

  datatype TAInfo = TAInfo(common: int, drift: int, driftVariant: int, offset: int)
  datatype Ecef = Ecef(posX: int, posY: int, posZ: int, velX: int, velY: int, velZ: int)
  datatype Orbital = Orbital(semiMajorAxis: int, eccentricity: int, inclination: int, rightAscension: int,
                             argOfPeriapsis: int, meanAnomaly: int)

  /** provider.EphemerisUpdate, and the two ephemeris fields of a spec. */
  datatype Ephemeris = Ephemeris(ecef: Option<Ecef>, orbital: Option<Orbital>)

  datatype EpochTime = EpochTime(sfn: int, subframe: int)
  datatype FeederLink = FeederLink(doppler: bool, downlink: int, uplink: int)
  datatype Place = Place(latitude: int, longitude: int)
  datatype Gateway = Gateway(place: Place, altitude: int)
  datatype Neighbour = Neighbour(pci: int, frequency: int)
  datatype Polarization = Polarization(dl: string, ul: string)
  datatype Schedule = Schedule(windowLength: int, period: int, windowPosition: Option<int>)
  datatype Overrides = Overrides(pdschRetxs: int, msg3Retx: int, guardTime: int, schedule: Option<Schedule>)

  datatype Spec = Spec(payloadType: string, koffset: int, taCommon: int, taInfo: Option<TAInfo>, ephemeris: Ephemeris,
                       epochTime: Option<EpochTime>, feeder: Option<FeederLink>, gateway: Option<Gateway>,
                       neighbours: seq<Neighbour>, reference: Option<Place>, distance: Option<int>,
                       moving: Option<Place>, polarization: Option<Polarization>, taReport: Option<bool>,
                       ulSync: Option<int>, overrides: Option<Overrides>)

  /** Exactly one representation is set, as the admission rule and applyEphemeris both demand. */
  predicate OneOf(e: Ephemeris) {
    e.ecef.Some? != e.orbital.Some?
  }

  // ---- the record the template reads: physical units --------------------------------------------------

  const TA_COMMON_STEP: real := 0.004072
  const TA_DRIFT_STEP: real := 0.0002
  const TA_DRIFT_VARIANT_STEP: real := 0.00002
  const ECCENTRICITY_SCALE: real := 0.000001
  const DEGREES: real := 0.0001
  const POSITION_STEP: real := 1.3
  const VELOCITY_STEP: real := 0.06

  /** Number formatting and string quoting, pi/1800000, and the wording of the template's comment lines. */
  datatype Format = Format(flt: real -> string, itoa: int -> string, quote: string -> string, radians: real, remark: nat -> string)

  /** No number, quoted string or remark is rendered with a line break. */
  ghost predicate OneLine(f: Format) {
    (forall x :: Clean(f.flt(x))) && (forall n :: Clean(f.itoa(n))) && (forall s :: Clean(f.quote(s))) && forall k :: Clean(f.remark(k))
  }

  datatype TADrift = TADrift(drift: real, variant: real, offset: real)
  datatype Physical =
    | PhysicalEcef(posX: real, posY: real, posZ: real, velX: real, velY: real, velZ: real)
    | PhysicalOrbital(semiMajorAxis: int, eccentricity: real, inclination: real, longitude: real, periapsis: real, anomaly: real)
  datatype Point = Point(latitude: real, longitude: real)

  datatype Data = Data(payloadType: string, koffset: int, taCommon: real, taDrift: Option<TADrift>, ephemeris: Physical,
                       epochTime: Option<EpochTime>, feeder: Option<FeederLink>, gateway: Option<(Point, int)>,
                       neighbours: seq<Neighbour>, reference: Option<Point>, distance: Option<int>, moving: Option<Point>,
                       polarization: Polarization, taReport: Option<bool>, ulSync: Option<int>,
                       pdschRetxs: int, msg3Retx: int, guardTime: int, windowLength: int, period: int, windowPosition: int)

  function Scaled(n: int, step: real): real {
    n as real * step
  }

  function PointOf(p: Place): Point {
    Point(Scaled(p.latitude, DEGREES), Scaled(p.longitude, DEGREES))
  }

  function PhysicalOf(f: Format, e: Ephemeris): Physical
    requires OneOf(e)
  {
    match e.orbital
    case Some(o) => PhysicalOrbital(o.semiMajorAxis, Scaled(o.eccentricity, ECCENTRICITY_SCALE), Scaled(o.inclination, f.radians),
                                    Scaled(o.rightAscension, f.radians), Scaled(o.argOfPeriapsis, f.radians), Scaled(o.meanAnomaly, f.radians))
    case None =>
      var c := e.ecef.value;
      PhysicalEcef(Scaled(c.posX, POSITION_STEP), Scaled(c.posY, POSITION_STEP), Scaled(c.posZ, POSITION_STEP),
                   Scaled(c.velX, VELOCITY_STEP), Scaled(c.velY, VELOCITY_STEP), Scaled(c.velZ, VELOCITY_STEP))
  }

  /** LF, CR, NEL, LS and PS. */
  predicate BreaksLine(c: char) {
    c == '\n' || c == '\r' || c == '\U{85}' || c == '\U{2028}' || c == '\U{2029}'
  }

  /** sanitizeComment: line breaks become blanks, NUL disappears. */
  function Sanitize(s: string): (r: string)
    ensures Clean(r) && forall i | 0 <= i < |r| :: !BreaksLine(r[i]) && r[i] != '\0'
    ensures (forall i | 0 <= i < |s| :: !BreaksLine(s[i]) && s[i] != '\0') ==> r == s
    ensures (forall i | 0 <= i < |s| :: s[i] != '\0') ==>
      |r| == |s| && forall i | 0 <= i < |s| :: r[i] == if BreaksLine(s[i]) then ' ' else s[i]
  {
    if s == [] then []
    else if BreaksLine(s[0]) then [' '] + Sanitize(s[1..])
    else if s[0] == '\0' then Sanitize(s[1..])
    else [s[0]] + Sanitize(s[1..])
  }

  function OrDefault(n: int, default: int): int {
    if n > 0 then n else default
  }

  /** The ephemeris fields before applyEphemeris has set them. */
  const UNSET := PhysicalEcef(0.0, 0.0, 0.0, 0.0, 0.0, 0.0)

  /** The record a spec ends up with, field by field; the ephemeris stays unset without exactly one representation. */
  function DataOf(f: Format, s: Spec): Data {
    var ta := if s.taInfo.Some? then s.taInfo.value else TAInfo(s.taCommon, 0, 0, 0);
    var over := if s.overrides.Some? then s.overrides.value else Overrides(0, 0, 0, None);
    var sched := if over.schedule.Some? then over.schedule.value else Schedule(0, 0, None);
    Data(payloadType := Sanitize(if s.payloadType == [] then "transparent" else s.payloadType),
         koffset := s.koffset,
         taCommon := Scaled(ta.common, TA_COMMON_STEP),
         taDrift := if ta.drift == 0 && ta.driftVariant == 0 && ta.offset == 0 then None
                    else Some(TADrift(Scaled(ta.drift, TA_DRIFT_STEP), Scaled(ta.driftVariant, TA_DRIFT_VARIANT_STEP), Scaled(ta.offset, TA_COMMON_STEP))),
         ephemeris := if OneOf(s.ephemeris) then PhysicalOf(f, s.ephemeris) else UNSET,
         epochTime := s.epochTime,
         feeder := s.feeder,
         gateway := if s.gateway.Some? then Some((PointOf(s.gateway.value.place), s.gateway.value.altitude)) else None,
         neighbours := s.neighbours,
         reference := if s.reference.Some? then Some(PointOf(s.reference.value)) else None,
         distance := s.distance,
         moving := if s.moving.Some? then Some(PointOf(s.moving.value)) else None,
         polarization := if s.polarization.Some? then s.polarization.value else Polarization("", ""),
         taReport := s.taReport,
         ulSync := s.ulSync,
         pdschRetxs := OrDefault(over.pdschRetxs, 0),
         msg3Retx := OrDefault(over.msg3Retx, 0),
         guardTime := OrDefault(over.guardTime, 12800),
         windowLength := OrDefault(sched.windowLength, 5),
         period := OrDefault(sched.period, 16),
         windowPosition := if sched.windowPosition.Some? then sched.windowPosition.value else 2)
  }

  // ---- the template -----------------------------------------------------------------------------------

  /** `text` standing at a column; a blank line has no text. */
  datatype Line = Line(column: nat, text: string)

  function Show(l: Line): string {
    Pad(l.column) + l.text
  }

  function ShowAll(lines: seq<Line>): (r: seq<string>)
    ensures |r| == |lines| && forall i | 0 <= i < |lines| :: r[i] == Show(lines[i])
  {
    seq(|lines|, i requires 0 <= i < |lines| => Show(lines[i]))
  }

  const BLANK := Line(0, "")

  function Open(column: nat, key: string): Line {
    Line(column, key + ":")
  }

  function Field(column: nat, key: string, value: string): Line {
    Line(column, key + ": " + value)
  }

  function Bool(b: bool): string {
    if b then "true" else "false"
  }

  function Comment(column: nat, text: string): Line {
    Line(column, "# " + text)
  }

  function Banner(f: Format, payloadType: string): seq<Line> {
    [Comment(0, f.remark(0)), Comment(0, "Payload type: " + payloadType + f.remark(1)), BLANK]
  }

  function TimingLines(f: Format, d: Data): seq<Line> {
    [Open(0, "cell_cfg"), Open(2, "ntn"), Field(4, "cell_specific_koffset", f.itoa(d.koffset)),
     Open(4, "ta_info"), Field(6, "ta_common", f.flt(d.taCommon))]
  }

  function DriftLines(f: Format, drift: Option<TADrift>): seq<Line> {
    match drift
    case None => []
    case Some(t) => [Field(6, "ta_common_drift", f.flt(t.drift)), Field(6, "ta_common_drift_variant", f.flt(t.variant)),
                     Field(6, "ta_common_offset", f.flt(t.offset))]
  }

  function Head(f: Format, d: Data): seq<Line> {
    Banner(f, d.payloadType) + TimingLines(f, d) + DriftLines(f, d.taDrift)
  }

  function EphemerisLines(f: Format, e: Physical): seq<Line> {
    match e
    case PhysicalOrbital(a, ecc, inc, lon, per, ano) =>
      [Open(4, "ephemeris_orbital"), Field(6, "semi_major_axis", f.itoa(a)), Field(6, "eccentricity", f.flt(ecc)),
       Field(6, "inclination", f.flt(inc)), Field(6, "longitude", f.flt(lon)), Field(6, "periapsis", f.flt(per)),
       Field(6, "mean_anomaly", f.flt(ano))]
    case PhysicalEcef(px, py, pz, vx, vy, vz) =>
      [Open(4, "ephemeris_info_ecef"), Field(6, "pos_x", f.flt(px)), Field(6, "pos_y", f.flt(py)), Field(6, "pos_z", f.flt(pz)),
       Field(6, "vel_x", f.flt(vx)), Field(6, "vel_y", f.flt(vy)), Field(6, "vel_z", f.flt(vz))]
  }

  function PointLines(f: Format, key: string, p: Option<Point>): seq<Line> {
    match p
    case None => []
    case Some(q) => [Open(4, key), Field(6, "latitude", f.flt(q.latitude)), Field(6, "longitude", f.flt(q.longitude))]
  }

  function NeighbourLines(f: Format, ns: seq<Neighbour>): seq<Line> {
    if ns == [] then []
    else
      var n := ns[|ns| - 1];
      NeighbourLines(f, ns[..|ns| - 1]) + [Field(6, "- pci", f.itoa(n.pci))]
        + if n.frequency != 0 then [Field(8, "carrier_freq", f.itoa(n.frequency))] else []
  }

  function EpochLines(f: Format, e: Option<EpochTime>): seq<Line> {
    match e
    case None => []
    case Some(t) => [Open(4, "epoch_time"), Field(6, "sfn", f.itoa(t.sfn)), Field(6, "subframe_number", f.itoa(t.subframe))]
  }

  function FeederLines(f: Format, l: Option<FeederLink>): seq<Line> {
    match l
    case None => []
    case Some(x) => [Open(4, "feeder_link"), Field(6, "enable_doppler_compensation", Bool(x.doppler)),
                     Field(6, "dl_freq", f.itoa(x.downlink)), Field(6, "ul_freq", f.itoa(x.uplink))]
  }

  function GatewayLines(f: Format, g: Option<(Point, int)>): seq<Line> {
    match g
    case None => []
    case Some(x) => PointLines(f, "gateway_location", Some(x.0)) + [Field(6, "altitude", f.itoa(x.1))]
  }

  function PolarizationLines(f: Format, p: Polarization): seq<Line> {
    if p.dl == [] && p.ul == [] then []
    else [Open(4, "polarization")] + (if p.dl != [] then [Field(6, "dl", f.quote(p.dl))] else [])
           + if p.ul != [] then [Field(6, "ul", f.quote(p.ul))] else []
  }

  function NeighbourBlock(f: Format, ns: seq<Neighbour>): seq<Line> {
    if ns == [] then [] else [Open(4, "ncells")] + NeighbourLines(f, ns)
  }

  function DistanceLines(f: Format, n: Option<int>): seq<Line> {
    if n.Some? then [Field(4, "distance_threshold", f.itoa(n.value))] else []
  }

  function ReportLines(f: Format, b: Option<bool>): seq<Line> {
    if b.Some? then [Field(4, "ta_report", Bool(b.value))] else []
  }

  function SyncLines(f: Format, n: Option<int>): seq<Line> {
    if n.Some? then [Field(4, "ntn_ul_sync_validity_dur", f.itoa(n.value))] else []
  }

  function LinkLines(f: Format, d: Data): seq<Line> {
    EpochLines(f, d.epochTime) + FeederLines(f, d.feeder) + GatewayLines(f, d.gateway) + NeighbourBlock(f, d.neighbours)
  }

  function OtherLines(f: Format, d: Data): seq<Line> {
    PointLines(f, "reference_location", d.reference) + DistanceLines(f, d.distance)
      + PointLines(f, "moving_ref_location", d.moving) + PolarizationLines(f, d.polarization)
      + ReportLines(f, d.taReport) + SyncLines(f, d.ulSync)
  }

  /** The optional blocks between the ephemeris and the SIB schedule. */
  function Optionals(f: Format, d: Data): seq<Line> {
    LinkLines(f, d) + OtherLines(f, d)
  }

  function SibOpening(f: Format, d: Data): seq<Line> {
    [Open(2, "sib"), Field(4, "si_window_length", f.itoa(d.windowLength)), Open(4, "si_sched_info")]
  }

  function Sib2Lines(f: Format, d: Data): seq<Line> {
    [Comment(6, f.remark(2)), Comment(6, f.remark(3)), Comment(6, f.remark(4)),
     Field(6, "- si_period", f.itoa(d.period)), Field(8, "sib_mapping", "[2]")]
  }

  function Sib19Lines(f: Format, d: Data): seq<Line> {
    [Comment(6, f.remark(5)), Comment(6, f.remark(6)), Comment(6, f.remark(7)),
     Field(6, "- si_period", f.itoa(d.period)), Field(8, "sib_mapping", "[19]"), Field(8, "si_window_position", f.itoa(d.windowPosition))]
  }

  function RetryLines(f: Format, d: Data): seq<Line> {
    [Open(2, "pdsch"), Field(4, "max_nof_harq_retxs", f.itoa(d.pdschRetxs)),
     Open(2, "prach"), Field(4, "max_msg3_harq_retx", f.itoa(d.msg3Retx)), BLANK]
  }

  function GuardLines(f: Format, d: Data): seq<Line> {
    [Open(0, "cu_cp"), Open(2, "rrc"), Field(4, "rrc_procedure_guard_time_ms", f.itoa(d.guardTime)), BLANK]
  }

  function Foot(f: Format, d: Data): seq<Line> {
    SibOpening(f, d) + Sib2Lines(f, d) + Sib19Lines(f, d) + RetryLines(f, d) + GuardLines(f, d)
  }

  function Lines(f: Format, d: Data): seq<Line> {
    Head(f, d) + EphemerisLines(f, d.ephemeris) + (Optionals(f, d) + Foot(f, d))
  }

  /** What GenerateConfig returns on a valid spec. */
  function Generated(f: Format, s: Spec): string
    requires OneOf(s.ephemeris)
  {
    Join(ShowAll(Lines(f, DataOf(f, s))))
  }

  // ---- GenerateConfig, building its record in place -----------------------------------------------------

  datatype Generation = Bytes(yaml: string) | NilSpec | BothEphemerides | NoEphemeris

  /** configData: one record threaded through the apply* helpers. */
  class ConfigData {
    var data: Data

    constructor (s: Spec)
      ensures data == Data(Sanitize(if s.payloadType == [] then "transparent" else s.payloadType), s.koffset,
                           Scaled(s.taCommon, TA_COMMON_STEP), None, UNSET, None, None, None, [],
                           None, None, None, Polarization("", ""), None, None, 0, 0, 12800, 5, 16, 2)
    {
      var payloadType := s.payloadType;
      if payloadType == "" {
        payloadType := "transparent";
      }
      data := Data(Sanitize(payloadType), s.koffset, Scaled(s.taCommon, TA_COMMON_STEP), None,
                   UNSET, None, None, None, [], None, None, None,
                   Polarization("", ""), None, None, 0, 0, 12800, 5, 16, 2);
    }

    method ApplyTAInfo(f: Format, s: Spec)
      requires data.taDrift == None && data.taCommon == Scaled(s.taCommon, TA_COMMON_STEP)
      modifies this
      ensures data == old(data).(taCommon := DataOf(f, s).taCommon, taDrift := DataOf(f, s).taDrift)
    {
      if s.taInfo == None {
        return;
      }
      var ta := s.taInfo.value;
      data := data.(taCommon := Scaled(ta.common, TA_COMMON_STEP));
      if ta.drift != 0 || ta.driftVariant != 0 || ta.offset != 0 {
        data := data.(taDrift := Some(TADrift(Scaled(ta.drift, TA_DRIFT_STEP), Scaled(ta.driftVariant, TA_DRIFT_VARIANT_STEP),
                                              Scaled(ta.offset, TA_COMMON_STEP))));
      }
    }

    method ApplyOptionalNTNFields(f: Format, s: Spec)
      requires data.epochTime == None && data.feeder == None && data.gateway == None && data.moving == None
      requires data.polarization == Polarization("", "") && data.taReport == None && data.ulSync == None
      modifies this
      ensures data == old(data).(epochTime := DataOf(f, s).epochTime, feeder := DataOf(f, s).feeder, gateway := DataOf(f, s).gateway,
                                 moving := DataOf(f, s).moving, polarization := DataOf(f, s).polarization,
                                 taReport := DataOf(f, s).taReport, ulSync := DataOf(f, s).ulSync)
    {
      if s.epochTime != None {
        data := data.(epochTime := s.epochTime);
      }
      if s.feeder != None {
        data := data.(feeder := s.feeder);
      }
      if s.gateway != None {
        data := data.(gateway := Some((PointOf(s.gateway.value.place), s.gateway.value.altitude)));
      }
      if s.moving != None {
        data := data.(moving := Some(PointOf(s.moving.value)));
      }
      if s.polarization != None {
        var pol := s.polarization.value;
        if pol.dl != "" || pol.ul != "" {
          data := data.(polarization := pol);
        }
      }
      if s.taReport != None {
        data := data.(taReport := s.taReport);
      }
      if s.ulSync != None {
        data := data.(ulSync := s.ulSync);
      }
    }

    method ApplyStage3Fields(f: Format, s: Spec)
      requires data.neighbours == [] && data.reference == None && data.distance == None
      modifies this
      ensures data == old(data).(neighbours := DataOf(f, s).neighbours, reference := DataOf(f, s).reference, distance := DataOf(f, s).distance)
    {
      for i := 0 to |s.neighbours|
        invariant data == old(data).(neighbours := s.neighbours[..i])
      {
        data := data.(neighbours := data.neighbours + [s.neighbours[i]]);
      }
      assert s.neighbours[..|s.neighbours|] == s.neighbours;
      if s.reference != None {
        data := data.(reference := Some(PointOf(s.reference.value)));
      }
      if s.distance != None {
        data := data.(distance := s.distance);
      }
    }

    method ApplyCellOverrides(f: Format, s: Spec)
      requires data.pdschRetxs == 0 && data.msg3Retx == 0 && data.guardTime == 12800
      requires data.windowLength == 5 && data.period == 16 && data.windowPosition == 2
      modifies this
      ensures data == old(data).(pdschRetxs := DataOf(f, s).pdschRetxs, msg3Retx := DataOf(f, s).msg3Retx, guardTime := DataOf(f, s).guardTime,
                                 windowLength := DataOf(f, s).windowLength, period := DataOf(f, s).period,
                                 windowPosition := DataOf(f, s).windowPosition)
    {
      if s.overrides == None {
        return;
      }
      var o := s.overrides.value;
      if o.pdschRetxs > 0 {
        data := data.(pdschRetxs := o.pdschRetxs);
      }
      if o.msg3Retx > 0 {
        data := data.(msg3Retx := o.msg3Retx);
      }
      if o.guardTime > 0 {
        data := data.(guardTime := o.guardTime);
      }
      if o.schedule != None {
        var sched := o.schedule.value;
        if sched.windowLength > 0 {
          data := data.(windowLength := sched.windowLength);
        }
        if sched.period > 0 {
          data := data.(period := sched.period);
        }
        if sched.windowPosition != None {
          data := data.(windowPosition := sched.windowPosition.value);
        }
      }
    }

    /** The error, if any: both representations, or none. */
    method ApplyEphemeris(f: Format, s: Spec) returns (err: Option<Generation>)
      modifies this
      ensures err == if OneOf(s.ephemeris) then None else Some(if s.ephemeris.ecef.Some? then BothEphemerides else NoEphemeris)
      ensures data == if OneOf(s.ephemeris) then old(data).(ephemeris := PhysicalOf(f, s.ephemeris)) else old(data)
    {
      if s.ephemeris.ecef.Some? && s.ephemeris.orbital.Some? {
        return Some(BothEphemerides);
      }
      if s.ephemeris.orbital.Some? {
        var o := s.ephemeris.orbital.value;
        data := data.(ephemeris := PhysicalOrbital(o.semiMajorAxis, Scaled(o.eccentricity, ECCENTRICITY_SCALE), Scaled(o.inclination, f.radians),
                                     Scaled(o.rightAscension, f.radians), Scaled(o.argOfPeriapsis, f.radians), Scaled(o.meanAnomaly, f.radians)));
      } else if s.ephemeris.ecef.Some? {
        var e := s.ephemeris.ecef.value;
        data := data.(ephemeris := PhysicalEcef(Scaled(e.posX, POSITION_STEP), Scaled(e.posY, POSITION_STEP), Scaled(e.posZ, POSITION_STEP),
                                     Scaled(e.velX, VELOCITY_STEP), Scaled(e.velY, VELOCITY_STEP), Scaled(e.velZ, VELOCITY_STEP)));
      } else {
        return Some(NoEphemeris);
      }
      return None;
    }
  }

  /** A spec is rendered exactly when it has one ephemeris, and then as `Generated` says. */
  method GenerateConfig(f: Format, spec: Option<Spec>) returns (r: Generation)
    ensures spec == None <==> r == NilSpec
    ensures spec.Some? && OneOf(spec.value.ephemeris) ==> r == Bytes(Generated(f, spec.value))
    ensures spec.Some? && !OneOf(spec.value.ephemeris) ==>
      r == if spec.value.ephemeris.ecef.Some? then BothEphemerides else NoEphemeris
  {
    if spec == None {
      return NilSpec;
    }
    var s := spec.value;
    var c := new ConfigData(s);
    c.ApplyTAInfo(f, s);
    c.ApplyOptionalNTNFields(f, s);
    c.ApplyStage3Fields(f, s);
    c.ApplyCellOverrides(f, s);
    assert c.data == DataOf(f, s).(ephemeris := UNSET);
    var err := c.ApplyEphemeris(f, s);
    if err.Some? {
      return err.value;
    }
    assert c.data == DataOf(f, s);
    return Bytes(Join(ShowAll(Lines(f, c.data))));
  }
}

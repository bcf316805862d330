/**
 What a reader finds in a generated configuration (pkg/provider/ocudu/config.go): an indentation-based reader that knows
 nothing of the template, and the table of every field of a spec, where it stands and in which unit.
 */
module ConfigReader {
  import opened Prelude
  import opened Text
  import opened OcuduConfig
  import EphemerisRewrite

  // ---- the reader ------------------------------------------------------------------------------------------------

  /** A value and the keys it stands under, outermost first; a key that only opens a block has no value, a comment stands under "#". */
  datatype Entry = Entry(path: seq<string>, value: string)

  datatype Token = Empty | Note(text: string) | Opens(key: string) | Has(key: string, value: string)

  /** Where the key of a line ends. */
  function Colon(text: string): (n: nat)
    ensures n <= |text|
  {
    if text == [] || text[0] == ':' then 0 else 1 + Colon(text[1..])
  }

  function TokenOf(text: string): Token {
    if text == [] then Empty
    else if text[0] == '#' then Note(text[1..])
    else
      var n := Colon(text);
      if n + 2 <= |text| then Has(text[..n], text[n + 2..]) else Opens(text[..n])
  }

  /** The keys that enclose a line at this column, with two blanks to a level. */
  function Under(keys: seq<string>, column: nat): seq<string> {
    keys[..Min(|keys|, column / 2)]
  }

  function KeysAfter(keys: seq<string>, l: Line): seq<string> {
    match TokenOf(l.text)
    case Opens(k) => Under(keys, l.column) + [k]
    case Has(_, _) => Under(keys, l.column)
    case _ => keys
  }

  function EntryOf(keys: seq<string>, l: Line): seq<Entry> {
    match TokenOf(l.text)
    case Note(t) => [Entry(["#"], t)]
    case Opens(k) => [Entry(Under(keys, l.column) + [k], "")]
    case Has(k, v) => [Entry(Under(keys, l.column) + [k], v)]
    case _ => []
  }

  /** The entries of the lines, read under some open keys. */
  function Read(keys: seq<string>, lines: seq<Line>): seq<Entry>
    decreases |lines|
  {
    if lines == [] then [] else EntryOf(keys, lines[0]) + Read(KeysAfter(keys, lines[0]), lines[1..])
  }

  /** The keys that are open after them. */
  function After(keys: seq<string>, lines: seq<Line>): seq<string>
    decreases |lines|
  {
    if lines == [] then keys else After(KeysAfter(keys, lines[0]), lines[1..])
  }

  function LineOf(s: string): Line
  {
    LeadingFits(s);
    Line(LeadingSpaces(s), s[LeadingSpaces(s)..])
  }

  lemma {:induction false} LeadingFits(s: string)
    ensures LeadingSpaces(s) <= |s|
  {
    if s != [] && s[0] == ' ' {
      LeadingFits(s[1..]);
    }
  }

  function LinesOf(text: string): seq<Line> {
    var lines := Split(text);
    seq(|lines|, i requires 0 <= i < |lines| => LineOf(lines[i]))
  }

  function Entries(text: string): seq<Entry> {
    Read([], LinesOf(text))
  }

  // ---- what a generated configuration must show -------------------------------------------------------------------

  /** Values under one key. */
  function Group(path: seq<string>, fields: seq<(string, string)>): (r: seq<Entry>)
    ensures |r| == |fields|
  {
    seq(|fields|, i requires 0 <= i < |fields| => Entry(path + [fields[i].0], fields[i].1))
  }

  /** A key that opens a block. */
  function Heading(path: seq<string>): seq<Entry> {
    [Entry(path, "")]
  }

  /** A key and the values under it. */
  function Section(path: seq<string>, fields: seq<(string, string)>): seq<Entry> {
    Heading(path) + Group(path, fields)
  }

  const CELL := ["cell_cfg"]
  const NTN := CELL + ["ntn"]
  const TA := NTN + ["ta_info"]
  const SIB := CELL + ["sib"]
  const SCHEDULE := SIB + ["si_sched_info"]
  const PDSCH := CELL + ["pdsch"]
  const PRACH := CELL + ["prach"]
  const CU := ["cu_cp"]
  const RRC := CU + ["rrc"]

  function Remark(f: Format, k: nat): seq<Entry> {
    [Entry(["#"], " " + f.remark(k))]
  }

  function ShownBanner(f: Format, s: Spec): seq<Entry> {
    Remark(f, 0) + [Entry(["#"], " " + ("Payload type: " + Sanitize(if s.payloadType == "" then "transparent" else s.payloadType) + f.remark(1)))]
  }

  function Timing(f: Format, koffset: int, common: real, drift: Option<TADrift>): seq<Entry> {
    Heading(CELL) + Section(NTN, [("cell_specific_koffset", f.itoa(koffset))]) + Section(TA, [("ta_common", f.flt(common))])
      + match drift
        case None => []
        case Some(t) => Group(TA, [("ta_common_drift", f.flt(t.drift)), ("ta_common_drift_variant", f.flt(t.variant)), ("ta_common_offset", f.flt(t.offset))])
  }

  /** spec.ntn.taInfo wins over the plain ta_common; drift is shown only when some drift field is set. */
  function ShownTiming(f: Format, s: Spec): seq<Entry> {
    match s.taInfo
    case None => Timing(f, s.koffset, s.taCommon as real * 0.004072, None)
    case Some(t) =>
      Timing(f, s.koffset, t.common as real * 0.004072,
             if t.drift == 0 && t.driftVariant == 0 && t.offset == 0 then None
             else Some(TADrift(t.drift as real * 0.0002, t.driftVariant as real * 0.00002, t.offset as real * 0.004072)))
  }

  function Radians(f: Format, n: int): real {
    n as real * f.radians
  }

  /** Eccentricity in millionths, angles in radians. */
  function OrbitalFields(f: Format, o: Orbital): seq<(string, string)> {
    [("semi_major_axis", f.itoa(o.semiMajorAxis)), ("eccentricity", f.flt(o.eccentricity as real * 0.000001)),
     ("inclination", f.flt(Radians(f, o.inclination)))]
      + [("longitude", f.flt(Radians(f, o.rightAscension))), ("periapsis", f.flt(Radians(f, o.argOfPeriapsis))),
         ("mean_anomaly", f.flt(Radians(f, o.meanAnomaly)))]
  }

  /** Positions in steps of 1.3 m, velocities of 0.06 m/s. */
  function EcefFields(f: Format, c: Ecef): seq<(string, string)> {
    [("pos_x", f.flt(c.posX as real * 1.3)), ("pos_y", f.flt(c.posY as real * 1.3)), ("pos_z", f.flt(c.posZ as real * 1.3))]
      + [("vel_x", f.flt(c.velX as real * 0.06)), ("vel_y", f.flt(c.velY as real * 0.06)), ("vel_z", f.flt(c.velZ as real * 0.06))]
  }

  function ShownEphemeris(f: Format, e: Ephemeris): seq<Entry> {
    match e
    case Ephemeris(_, Some(o)) => Section(NTN + ["ephemeris_orbital"], OrbitalFields(f, o))
    case Ephemeris(Some(c), None) => Section(NTN + ["ephemeris_info_ecef"], EcefFields(f, c))
    case Ephemeris(None, None) => []
  }

  function ShownEpoch(f: Format, e: Option<EpochTime>): seq<Entry> {
    match e
    case None => []
    case Some(t) => Section(NTN + ["epoch_time"], [("sfn", f.itoa(t.sfn)), ("subframe_number", f.itoa(t.subframe))])
  }

  function ShownFeeder(f: Format, l: Option<FeederLink>): seq<Entry> {
    match l
    case None => []
    case Some(x) => Section(NTN + ["feeder_link"], [("enable_doppler_compensation", if x.doppler then "true" else "false"),
                                                    ("dl_freq", f.itoa(x.downlink)), ("ul_freq", f.itoa(x.uplink))])
  }

  /** Degrees, from ten-thousandths. */
  function Degrees(f: Format, p: Place): seq<(string, string)> {
    [("latitude", f.flt(p.latitude as real * 0.0001)), ("longitude", f.flt(p.longitude as real * 0.0001))]
  }

  function ShownGateway(f: Format, g: Option<Gateway>): seq<Entry> {
    match g
    case None => []
    case Some(x) => Section(NTN + ["gateway_location"], Degrees(f, x.place) + [("altitude", f.itoa(x.altitude))])
  }

  function ShownPlace(f: Format, key: string, p: Option<Place>): seq<Entry> {
    match p
    case None => []
    case Some(x) => Section(NTN + [key], Degrees(f, x))
  }

  /** One item per neighbour, in order; a frequency of 0 is not shown. */
  function ShownNeighbours(f: Format, ns: seq<Neighbour>): seq<Entry> {
    if ns == [] then []
    else
      var n := ns[|ns| - 1];
      ShownNeighbours(f, ns[..|ns| - 1]) + Group(NTN + ["ncells"], [("- pci", f.itoa(n.pci))])
        + if n.frequency == 0 then [] else Group(NTN + ["ncells"], [("carrier_freq", f.itoa(n.frequency))])
  }

  /** No block at all without neighbours. */
  function ShownNeighbourBlock(f: Format, ns: seq<Neighbour>): seq<Entry> {
    if ns == [] then [] else Heading(NTN + ["ncells"]) + ShownNeighbours(f, ns)
  }

  function PolarizationFields(f: Format, p: Polarization): seq<(string, string)> {
    (if p.dl == "" then [] else [("dl", f.quote(p.dl))]) + if p.ul == "" then [] else [("ul", f.quote(p.ul))]
  }

  /** No block at all without a polarization. */
  function ShownPolarization(f: Format, p: Option<Polarization>): seq<Entry> {
    if p.None? || (p.value.dl == "" && p.value.ul == "") then [] else Section(NTN + ["polarization"], PolarizationFields(f, p.value))
  }

  function ShownDistance(f: Format, n: Option<int>): seq<Entry> {
    if n.None? then [] else Group(NTN, [("distance_threshold", f.itoa(n.value))])
  }

  function ShownReport(f: Format, b: Option<bool>): seq<Entry> {
    if b.None? then [] else Group(NTN, [("ta_report", if b.value then "true" else "false")])
  }

  function ShownSync(f: Format, n: Option<int>): seq<Entry> {
    if n.None? then [] else Group(NTN, [("ntn_ul_sync_validity_dur", f.itoa(n.value))])
  }

  function ShownLinks(f: Format, s: Spec): seq<Entry> {
    ShownEpoch(f, s.epochTime) + ShownFeeder(f, s.feeder) + ShownGateway(f, s.gateway) + ShownNeighbourBlock(f, s.neighbours)
  }

  function ShownOthers(f: Format, s: Spec): seq<Entry> {
    ShownPlace(f, "reference_location", s.reference) + ShownDistance(f, s.distance) + ShownPlace(f, "moving_ref_location", s.moving)
      + ShownPolarization(f, s.polarization) + ShownReport(f, s.taReport) + ShownSync(f, s.ulSync)
  }

  /** Positive overrides replace the defaults. */
  function HarqRetries(s: Spec): int {
    if s.overrides.Some? && s.overrides.value.pdschRetxs > 0 then s.overrides.value.pdschRetxs else 0
  }

  function Msg3Retries(s: Spec): int {
    if s.overrides.Some? && s.overrides.value.msg3Retx > 0 then s.overrides.value.msg3Retx else 0
  }

  function GuardTime(s: Spec): int {
    if s.overrides.Some? && s.overrides.value.guardTime > 0 then s.overrides.value.guardTime else 12800
  }

  predicate Scheduled(s: Spec) {
    s.overrides.Some? && s.overrides.value.schedule.Some?
  }

  function WindowLength(s: Spec): int {
    if Scheduled(s) && s.overrides.value.schedule.value.windowLength > 0 then s.overrides.value.schedule.value.windowLength else 5
  }

  function Period(s: Spec): int {
    if Scheduled(s) && s.overrides.value.schedule.value.period > 0 then s.overrides.value.schedule.value.period else 16
  }

  /** The window position may be overridden by any value, not only a positive one. */
  function Position(s: Spec): int {
    if Scheduled(s) && s.overrides.value.schedule.value.windowPosition.Some?
    then s.overrides.value.schedule.value.windowPosition.value else 2
  }

  /** SIB2 comes before SIB19, both with the same period. */
  function ShownSibs(f: Format, s: Spec): seq<Entry> {
    (Section(SIB, [("si_window_length", f.itoa(WindowLength(s)))]) + Heading(SCHEDULE))
      + (Remark(f, 2) + Remark(f, 3) + Remark(f, 4) + Group(SCHEDULE, [("- si_period", f.itoa(Period(s)))] + [("sib_mapping", "[2]")]))
      + (Remark(f, 5) + Remark(f, 6) + Remark(f, 7)
         + Group(SCHEDULE, [("- si_period", f.itoa(Period(s)))] + [("sib_mapping", "[19]"), ("si_window_position", f.itoa(Position(s)))]))
  }

  function ShownRest(f: Format, s: Spec): seq<Entry> {
    Section(PDSCH, [("max_nof_harq_retxs", f.itoa(HarqRetries(s)))])
      + Section(PRACH, [("max_msg3_harq_retx", f.itoa(Msg3Retries(s)))])
      + (Heading(CU) + Section(RRC, [("rrc_procedure_guard_time_ms", f.itoa(GuardTime(s)))]))
  }

  /** Everything a configuration says about its spec, in order. */
  function Shown(f: Format, s: Spec): seq<Entry> {
    ShownBanner(f, s) + ShownTiming(f, s) + (ShownEphemeris(f, s.ephemeris) + (ShownLinks(f, s) + ShownOthers(f, s))) + (ShownSibs(f, s) + ShownRest(f, s))
  }

  // ---- reading fields and groups ------------------------------------------------------------------------------------

  /** A key as the template uses them. */
  predicate Plain(key: string) {
    key != [] && key[0] != '#' && ':' !in key
  }

  lemma {:induction false} ColonAfter(key: string, rest: string)
    requires ':' !in key
    ensures Colon(key + [':'] + rest) == |key|
  {
    var text := key + [':'] + rest;
    if key != [] {
      assert text[0] == key[0] && text[1..] == key[1..] + [':'] + rest;
      ColonAfter(key[1..], rest);
    }
  }

  lemma FieldToken(column: nat, key: string, value: string)
    requires Plain(key)
    ensures TokenOf(Field(column, key, value).text) == Has(key, value)
  {
    var text := Field(column, key, value).text;
    assert text == key + [':'] + ([' '] + value);
    ColonAfter(key, [' '] + value);
    assert text[..|key|] == key && text[|key| + 2..] == value;
  }

  lemma OpenToken(column: nat, key: string)
    requires Plain(key)
    ensures TokenOf(Open(column, key).text) == Opens(key)
  {
    var text := Open(column, key).text;
    assert text == key + [':'] + [];
    ColonAfter(key, []);
    assert text[..|key|] == key;
  }

  lemma {:induction false} ReadConcat(keys: seq<string>, a: seq<Line>, b: seq<Line>)
    ensures Read(keys, a + b) == Read(keys, a) + Read(After(keys, a), b)
    ensures After(keys, a + b) == After(After(keys, a), b)
    decreases |a|
  {
    if a == [] {
      assert a + b == b;
    } else {
      assert (a + b)[0] == a[0] && (a + b)[1..] == a[1..] + b;
      ReadConcat(KeysAfter(keys, a[0]), a[1..], b);
    }
  }

  lemma ReadOne(keys: seq<string>, l: Line)
    ensures Read(keys, [l]) == EntryOf(keys, l) && After(keys, [l]) == KeysAfter(keys, l)
  {
    assert [l][1..] == [];
  }

  function Fields(column: nat, fields: seq<(string, string)>): (r: seq<Line>)
    ensures |r| == |fields|
  {
    seq(|fields|, i requires 0 <= i < |fields| => Field(column, fields[i].0, fields[i].1))
  }

  predicate AllPlain(fields: seq<(string, string)>) {
    forall i | 0 <= i < |fields| :: Plain(fields[i].0)
  }

  /** Fields at a column where no key is to be closed. */
  lemma {:induction false} ReadFields(keys: seq<string>, column: nat, fields: seq<(string, string)>)
    requires AllPlain(fields) && |keys| <= column / 2
    ensures Read(keys, Fields(column, fields)) == Group(keys, fields) && After(keys, Fields(column, fields)) == keys
  {
    if fields != [] {
      var n := |fields| - 1;
      var init := fields[..n];
      ReadFields(keys, column, init);
      var last := Field(column, fields[n].0, fields[n].1);
      FieldToken(column, fields[n].0, fields[n].1);
      assert Fields(column, fields) == Fields(column, init) + [last];
      ReadConcat(keys, Fields(column, init), [last]);
      ReadOne(keys, last);
      assert Under(keys, column) == keys;
    }
  }

  lemma ReadOpen(keys: seq<string>, column: nat, key: string)
    requires Plain(key)
    ensures Read(keys, [Open(column, key)]) == Heading(Under(keys, column) + [key]) && After(keys, [Open(column, key)]) == Under(keys, column) + [key]
  {
    OpenToken(column, key);
    ReadOne(keys, Open(column, key));
  }

  /** A key and the fields below it. */
  lemma ReadGroup(keys: seq<string>, column: nat, key: string, fields: seq<(string, string)>, path: seq<string>, lines: seq<Line>)
    requires Plain(key) && AllPlain(fields) && path == Under(keys, column) + [key] && |path| <= (column + 2) / 2
    requires lines == [Open(column, key)] + Fields(column + 2, fields)
    ensures Read(keys, lines) == Section(path, fields) && After(keys, lines) == path
  {
    ReadOpen(keys, column, key);
    ReadConcat(keys, [Open(column, key)], Fields(column + 2, fields));
    ReadFields(path, column + 2, fields);
  }

  // ---- blocks side by side --------------------------------------------------------------------------------------------

  predicate Keyed(l: Line) {
    TokenOf(l.text).Opens? || TokenOf(l.text).Has?
  }

  /** Lines under cell_cfg.ntn, starting with one of its own keys. */
  predicate Block(lines: seq<Line>) {
    (forall i | 0 <= i < |lines| :: lines[i].column >= 4) && (lines == [] || (lines[0].column == 4 && Keyed(lines[0])))
  }

  lemma {:induction false} StaysInside(keys: seq<string>, lines: seq<Line>)
    requires |keys| >= 2 && forall i | 0 <= i < |lines| :: lines[i].column >= 4
    ensures |After(keys, lines)| >= 2 && After(keys, lines)[..2] == keys[..2]
    decreases |lines|
  {
    if lines != [] {
      assert |Under(keys, lines[0].column)| >= 2;
      StaysInside(KeysAfter(keys, lines[0]), lines[1..]);
    }
  }

  /** What a keyed line closes is forgotten. */
  lemma Forgets(keys: seq<string>, other: seq<string>, lines: seq<Line>)
    requires lines == [] || (Keyed(lines[0]) && Under(keys, lines[0].column) == Under(other, lines[0].column))
    ensures Read(keys, lines) == Read(other, lines)
    ensures lines != [] ==> After(keys, lines) == After(other, lines)
  {
  }

  lemma ReadBlocks(a: seq<Line>, b: seq<Line>)
    requires Block(a) && Block(b)
    ensures Block(a + b) && Read(NTN, a + b) == Read(NTN, a) + Read(NTN, b)
  {
    ReadConcat(NTN, a, b);
    StaysInside(NTN, a);
    Forgets(After(NTN, a), NTN, b);
  }

  lemma GroupBlock(key: string, fields: seq<(string, string)>, lines: seq<Line>)
    requires Plain(key) && AllPlain(fields) && lines == [Open(4, key)] + Fields(6, fields)
    ensures Block(lines) && Read(NTN, lines) == Section(NTN + [key], fields)
  {
    OpenToken(4, key);
    ReadGroup(NTN, 4, key, fields, NTN + [key], lines);
  }

  lemma FieldBlock(key: string, value: string)
    requires Plain(key)
    ensures Block([Field(4, key, value)]) && Read(NTN, [Field(4, key, value)]) == Group(NTN, [(key, value)])
  {
    FieldToken(4, key, value);
    ReadFields(NTN, 4, [(key, value)]);
    assert Fields(4, [(key, value)]) == [Field(4, key, value)];
  }

  /** Three fields and three more. */
  lemma GroupOfSix(key: string, first: seq<(string, string)>, more: seq<(string, string)>, lines: seq<Line>)
    requires Plain(key) && AllPlain(first) && AllPlain(more)
    requires lines == [Open(4, key)] + Fields(6, first) + Fields(6, more)
    ensures Block(lines) && Read(NTN, lines) == Section(NTN + [key], first + more)
  {
    assert Fields(6, first + more) == Fields(6, first) + Fields(6, more);
    assert lines == [Open(4, key)] + Fields(6, first + more);
    GroupBlock(key, first + more, lines);
  }

  /** The fields of a record's ephemeris. */
  function PhysicalFields(f: Format, e: Physical): seq<(string, string)> {
    match e
    case PhysicalOrbital(a, ecc, inc, lon, per, ano) =>
      [("semi_major_axis", f.itoa(a)), ("eccentricity", f.flt(ecc)), ("inclination", f.flt(inc))]
        + [("longitude", f.flt(lon)), ("periapsis", f.flt(per)), ("mean_anomaly", f.flt(ano))]
    case PhysicalEcef(px, py, pz, vx, vy, vz) =>
      [("pos_x", f.flt(px)), ("pos_y", f.flt(py)), ("pos_z", f.flt(pz))] + [("vel_x", f.flt(vx)), ("vel_y", f.flt(vy)), ("vel_z", f.flt(vz))]
  }

  lemma OrbitalShows(f: Format, e: Physical)
    requires e.PhysicalOrbital?
    ensures Block(EphemerisLines(f, e)) && Read(NTN, EphemerisLines(f, e)) == Section(NTN + ["ephemeris_orbital"], PhysicalFields(f, e))
  {
    var first := [("semi_major_axis", f.itoa(e.semiMajorAxis)), ("eccentricity", f.flt(e.eccentricity)), ("inclination", f.flt(e.inclination))];
    var more := [("longitude", f.flt(e.longitude)), ("periapsis", f.flt(e.periapsis)), ("mean_anomaly", f.flt(e.anomaly))];
    assert Fields(6, first) == [Field(6, "semi_major_axis", f.itoa(e.semiMajorAxis)), Field(6, "eccentricity", f.flt(e.eccentricity)), Field(6, "inclination", f.flt(e.inclination))];
    assert Fields(6, more) == [Field(6, "longitude", f.flt(e.longitude)), Field(6, "periapsis", f.flt(e.periapsis)), Field(6, "mean_anomaly", f.flt(e.anomaly))];
    GroupOfSix("ephemeris_orbital", first, more, EphemerisLines(f, e));
  }

  lemma EcefShows(f: Format, e: Physical)
    requires e.PhysicalEcef?
    ensures Block(EphemerisLines(f, e)) && Read(NTN, EphemerisLines(f, e)) == Section(NTN + ["ephemeris_info_ecef"], PhysicalFields(f, e))
  {
    var first := [("pos_x", f.flt(e.posX)), ("pos_y", f.flt(e.posY)), ("pos_z", f.flt(e.posZ))];
    var more := [("vel_x", f.flt(e.velX)), ("vel_y", f.flt(e.velY)), ("vel_z", f.flt(e.velZ))];
    assert Fields(6, first) == [Field(6, "pos_x", f.flt(e.posX)), Field(6, "pos_y", f.flt(e.posY)), Field(6, "pos_z", f.flt(e.posZ))];
    assert Fields(6, more) == [Field(6, "vel_x", f.flt(e.velX)), Field(6, "vel_y", f.flt(e.velY)), Field(6, "vel_z", f.flt(e.velZ))];
    GroupOfSix("ephemeris_info_ecef", first, more, EphemerisLines(f, e));
  }

  lemma PhysicalFieldsAre(f: Format, e: Ephemeris)
    requires OneOf(e)
    ensures PhysicalFields(f, PhysicalOf(f, e)) == if e.orbital.Some? then OrbitalFields(f, e.orbital.value) else EcefFields(f, e.ecef.value)
  {
    var p := PhysicalOf(f, e);
    if e.orbital.Some? {
      var o := e.orbital.value;
      assert f.flt(p.eccentricity) == f.flt(o.eccentricity as real * 0.000001);
      assert p.inclination == Radians(f, o.inclination) && p.longitude == Radians(f, o.rightAscension);
      assert p.periapsis == Radians(f, o.argOfPeriapsis) && p.anomaly == Radians(f, o.meanAnomaly);
    } else {
      var c := e.ecef.value;
      assert p.posX == c.posX as real * 1.3 && p.posY == c.posY as real * 1.3 && p.posZ == c.posZ as real * 1.3;
      assert p.velX == c.velX as real * 0.06 && p.velY == c.velY as real * 0.06 && p.velZ == c.velZ as real * 0.06;
    }
  }

  lemma EphemerisShows(f: Format, e: Ephemeris)
    requires OneOf(e)
    ensures Block(EphemerisLines(f, PhysicalOf(f, e))) && Read(NTN, EphemerisLines(f, PhysicalOf(f, e))) == ShownEphemeris(f, e)
  {
    PhysicalFieldsAre(f, e);
    if e.orbital.Some? {
      OrbitalShows(f, PhysicalOf(f, e));
    } else {
      EcefShows(f, PhysicalOf(f, e));
    }
  }

  lemma EpochShows(f: Format, e: Option<EpochTime>)
    ensures Block(EpochLines(f, e)) && Read(NTN, EpochLines(f, e)) == ShownEpoch(f, e)
  {
    if e.Some? {
      GroupBlock("epoch_time", [("sfn", f.itoa(e.value.sfn)), ("subframe_number", f.itoa(e.value.subframe))], EpochLines(f, e));
    }
  }

  lemma FeederShows(f: Format, l: Option<FeederLink>)
    ensures Block(FeederLines(f, l)) && Read(NTN, FeederLines(f, l)) == ShownFeeder(f, l)
  {
    if l.Some? {
      GroupBlock("feeder_link", [("enable_doppler_compensation", if l.value.doppler then "true" else "false"),
                                 ("dl_freq", f.itoa(l.value.downlink)), ("ul_freq", f.itoa(l.value.uplink))], FeederLines(f, l));
    }
  }

  lemma PlaceShows(f: Format, key: string, p: Place)
    requires Plain(key)
    ensures Block(PointLines(f, key, Some(PointOf(p)))) && Read(NTN, PointLines(f, key, Some(PointOf(p)))) == ShownPlace(f, key, Some(p))
    ensures PointLines(f, key, Some(PointOf(p))) == [Open(4, key)] + Fields(6, Degrees(f, p))
  {
    GroupBlock(key, Degrees(f, p), PointLines(f, key, Some(PointOf(p))));
  }

  lemma GatewayShows(f: Format, s: Spec)
    ensures Block(GatewayLines(f, DataOf(f, s).gateway)) && Read(NTN, GatewayLines(f, DataOf(f, s).gateway)) == ShownGateway(f, s.gateway)
  {
    if s.gateway.Some? {
      var g := s.gateway.value;
      PlaceShows(f, "gateway_location", g.place);
      var fields := Degrees(f, g.place) + [("altitude", f.itoa(g.altitude))];
      assert Fields(6, fields) == Fields(6, Degrees(f, g.place)) + [Field(6, "altitude", f.itoa(g.altitude))];
      GroupBlock("gateway_location", fields, GatewayLines(f, DataOf(f, s).gateway));
    }
  }

  const NCELLS := NTN + ["ncells"]

  lemma NeighbourShows(f: Format, n: Neighbour)
    ensures var lines := [Field(6, "- pci", f.itoa(n.pci))] + if n.frequency != 0 then [Field(8, "carrier_freq", f.itoa(n.frequency))] else [];
      Read(NCELLS, lines) == Group(NCELLS, [("- pci", f.itoa(n.pci))]) + (if n.frequency == 0 then [] else Group(NCELLS, [("carrier_freq", f.itoa(n.frequency))]))
      && After(NCELLS, lines) == NCELLS
  {
    var pci, freq := [("- pci", f.itoa(n.pci))], [("carrier_freq", f.itoa(n.frequency))];
    ReadFields(NCELLS, 6, pci);
    ReadFields(NCELLS, 8, freq);
    assert Fields(6, pci) == [Field(6, "- pci", f.itoa(n.pci))] && Fields(8, freq) == [Field(8, "carrier_freq", f.itoa(n.frequency))];
    ReadConcat(NCELLS, Fields(6, pci), Fields(8, freq));
    assert Fields(6, pci) + [] == Fields(6, pci) && Group(NCELLS, pci) + [] == Group(NCELLS, pci);
  }

  lemma {:induction false} NeighboursShow(f: Format, ns: seq<Neighbour>)
    ensures Read(NCELLS, NeighbourLines(f, ns)) == ShownNeighbours(f, ns) && After(NCELLS, NeighbourLines(f, ns)) == NCELLS
    ensures forall i | 0 <= i < |NeighbourLines(f, ns)| :: NeighbourLines(f, ns)[i].column >= 6
  {
    if ns != [] {
      var n, init := ns[|ns| - 1], ns[..|ns| - 1];
      NeighboursShow(f, init);
      NeighbourShows(f, n);
      var lines := [Field(6, "- pci", f.itoa(n.pci))] + if n.frequency != 0 then [Field(8, "carrier_freq", f.itoa(n.frequency))] else [];
      assert NeighbourLines(f, ns) == NeighbourLines(f, init) + lines;
      ReadConcat(NCELLS, NeighbourLines(f, init), lines);
      assert NTN + ["ncells"] == NCELLS;
      assert Read(NCELLS, NeighbourLines(f, ns)) == ShownNeighbours(f, init) + Read(NCELLS, lines);
    }
  }

  lemma NeighbourBlockShows(f: Format, ns: seq<Neighbour>)
    ensures Block(NeighbourBlock(f, ns)) && Read(NTN, NeighbourBlock(f, ns)) == ShownNeighbourBlock(f, ns)
  {
    if ns != [] {
      OpenToken(4, "ncells");
      ReadOpen(NTN, 4, "ncells");
      NeighboursShow(f, ns);
      ReadConcat(NTN, [Open(4, "ncells")], NeighbourLines(f, ns));
      assert Under(NTN, 4) + ["ncells"] == NCELLS;
    }
  }

  lemma PolarizationBlock(f: Format, p: Polarization)
    requires p.dl != "" || p.ul != ""
    ensures Block(PolarizationLines(f, p)) && Read(NTN, PolarizationLines(f, p)) == Section(NTN + ["polarization"], PolarizationFields(f, p))
  {
    var fields := PolarizationFields(f, p);
    assert Fields(6, fields) == (if p.dl != "" then [Field(6, "dl", f.quote(p.dl))] else []) + if p.ul != "" then [Field(6, "ul", f.quote(p.ul))] else [];
    GroupBlock("polarization", fields, PolarizationLines(f, p));
  }

  lemma PolarizationShows(f: Format, s: Spec)
    ensures Block(PolarizationLines(f, DataOf(f, s).polarization)) && Read(NTN, PolarizationLines(f, DataOf(f, s).polarization)) == ShownPolarization(f, s.polarization)
  {
    var p := DataOf(f, s).polarization;
    if p.dl != "" || p.ul != "" {
      PolarizationBlock(f, p);
    }
  }

  lemma ScalarsShow(f: Format, s: Spec)
    ensures Block(DistanceLines(f, s.distance)) && Read(NTN, DistanceLines(f, s.distance)) == ShownDistance(f, s.distance)
    ensures Block(ReportLines(f, s.taReport)) && Read(NTN, ReportLines(f, s.taReport)) == ShownReport(f, s.taReport)
    ensures Block(SyncLines(f, s.ulSync)) && Read(NTN, SyncLines(f, s.ulSync)) == ShownSync(f, s.ulSync)
  {
    if s.distance.Some? { FieldBlock("distance_threshold", f.itoa(s.distance.value)); }
    if s.taReport.Some? { FieldBlock("ta_report", if s.taReport.value then "true" else "false"); }
    if s.ulSync.Some? { FieldBlock("ntn_ul_sync_validity_dur", f.itoa(s.ulSync.value)); }
  }

  lemma LinksShow(f: Format, s: Spec)
    ensures var d := DataOf(f, s); Block(LinkLines(f, d)) && Read(NTN, LinkLines(f, d)) == ShownLinks(f, s)
  {
    var d := DataOf(f, s);
    EpochShows(f, s.epochTime);
    FeederShows(f, s.feeder);
    GatewayShows(f, s);
    NeighbourBlockShows(f, s.neighbours);
    var a, b, c, e := EpochLines(f, d.epochTime), FeederLines(f, d.feeder), GatewayLines(f, d.gateway), NeighbourBlock(f, d.neighbours);
    ReadBlocks(a, b);
    ReadBlocks(a + b, c);
    ReadBlocks(a + b + c, e);
  }

  lemma OthersShow(f: Format, s: Spec)
    ensures var d := DataOf(f, s); Block(OtherLines(f, d)) && Read(NTN, OtherLines(f, d)) == ShownOthers(f, s)
  {
    var d := DataOf(f, s);
    if s.reference.Some? { PlaceShows(f, "reference_location", s.reference.value); }
    if s.moving.Some? { PlaceShows(f, "moving_ref_location", s.moving.value); }
    PolarizationShows(f, s);
    ScalarsShow(f, s);
    var a, b, c := PointLines(f, "reference_location", d.reference), DistanceLines(f, d.distance), PointLines(f, "moving_ref_location", d.moving);
    var g, h, k := PolarizationLines(f, d.polarization), ReportLines(f, d.taReport), SyncLines(f, d.ulSync);
    ReadBlocks(a, b);
    ReadBlocks(a + b, c);
    ReadBlocks(a + b + c, g);
    ReadBlocks(a + b + c + g, h);
    ReadBlocks(a + b + c + g + h, k);
  }

  // ---- head and foot ---------------------------------------------------------------------------------------------------

  lemma ReadNote(keys: seq<string>, column: nat, text: string)
    ensures Read(keys, [Comment(column, text)]) == [Entry(["#"], " " + text)] && After(keys, [Comment(column, text)]) == keys
  {
    assert Comment(column, text).text[1..] == " " + text;
    ReadOne(keys, Comment(column, text));
  }

  lemma ReadBlank(keys: seq<string>)
    ensures Read(keys, [BLANK]) == [] && After(keys, [BLANK]) == keys
  {
    ReadOne(keys, BLANK);
  }

  lemma BannerShows(f: Format, s: Spec)
    ensures var lines := Banner(f, DataOf(f, s).payloadType); Read([], lines) == ShownBanner(f, s) && After([], lines) == []
  {
    var d := DataOf(f, s);
    var a, b := Comment(0, f.remark(0)), Comment(0, "Payload type: " + d.payloadType + f.remark(1));
    ReadNote([], 0, f.remark(0));
    ReadNote([], 0, "Payload type: " + d.payloadType + f.remark(1));
    ReadBlank([]);
    ReadConcat([], [a], [b]);
    ReadConcat([], [a] + [b], [BLANK]);
    assert Banner(f, d.payloadType) == [a] + [b] + [BLANK];
  }

  lemma ReadThree(keys: seq<string>, a: seq<Line>, x: seq<string>, b: seq<Line>, y: seq<string>, c: seq<Line>)
    requires After(keys, a) == x && After(x, b) == y
    ensures Read(keys, a + b + c) == Read(keys, a) + Read(x, b) + Read(y, c) && After(keys, a + b + c) == After(y, c)
  {
    ReadConcat(keys, a, b);
    ReadConcat(keys, a + b, c);
  }

  lemma TimingLinesShow(f: Format, d: Data)
    ensures Read([], TimingLines(f, d)) == Heading(CELL) + Section(NTN, [("cell_specific_koffset", f.itoa(d.koffset))]) + Section(TA, [("ta_common", f.flt(d.taCommon))])
    ensures After([], TimingLines(f, d)) == TA
  {
    var koffset, common := [("cell_specific_koffset", f.itoa(d.koffset))], [("ta_common", f.flt(d.taCommon))];
    TimingParts(f, d, koffset, common);
    ReadTiming(koffset, common, [Open(0, "cell_cfg")], [Open(2, "ntn")] + Fields(4, koffset), [Open(4, "ta_info")] + Fields(6, common));
  }

  lemma TimingParts(f: Format, d: Data, koffset: seq<(string, string)>, common: seq<(string, string)>)
    requires koffset == [("cell_specific_koffset", f.itoa(d.koffset))] && common == [("ta_common", f.flt(d.taCommon))]
    ensures TimingLines(f, d) == [Open(0, "cell_cfg")] + ([Open(2, "ntn")] + Fields(4, koffset)) + ([Open(4, "ta_info")] + Fields(6, common))
    ensures AllPlain(koffset) && AllPlain(common)
  {
    assert Fields(4, koffset) == [Field(4, "cell_specific_koffset", f.itoa(d.koffset))];
    assert Fields(6, common) == [Field(6, "ta_common", f.flt(d.taCommon))];
  }

  lemma ReadTiming(koffset: seq<(string, string)>, common: seq<(string, string)>, a: seq<Line>, b: seq<Line>, c: seq<Line>)
    requires AllPlain(koffset) && AllPlain(common) && a == [Open(0, "cell_cfg")]
    requires b == [Open(2, "ntn")] + Fields(4, koffset) && c == [Open(4, "ta_info")] + Fields(6, common)
    ensures Read([], a + b + c) == Heading(CELL) + Section(NTN, koffset) + Section(TA, common) && After([], a + b + c) == TA
  {
    ReadCellOpening(a);
    ReadNtnOpening(koffset, b);
    ReadTaOpening(common, c);
    ReadTimingParts(Section(NTN, koffset), Section(TA, common), a, b, c);
  }

  lemma ReadTimingParts(x: seq<Entry>, y: seq<Entry>, a: seq<Line>, b: seq<Line>, c: seq<Line>)
    requires Read([], a) == Heading(CELL) && After([], a) == CELL && Read(CELL, b) == x && After(CELL, b) == NTN && Read(NTN, c) == y && After(NTN, c) == TA
    ensures Read([], a + b + c) == Heading(CELL) + x + y && After([], a + b + c) == TA
  {
    ReadThree([], a, CELL, b, NTN, c);
  }

  lemma ReadCellOpening(a: seq<Line>)
    requires a == [Open(0, "cell_cfg")]
    ensures Read([], a) == Heading(CELL) && After([], a) == CELL
  {
    ReadOpen([], 0, "cell_cfg");
    assert Under([], 0) + ["cell_cfg"] == CELL;
  }

  lemma ReadNtnOpening(koffset: seq<(string, string)>, b: seq<Line>)
    requires AllPlain(koffset) && b == [Open(2, "ntn")] + Fields(4, koffset)
    ensures Read(CELL, b) == Section(NTN, koffset) && After(CELL, b) == NTN
  {
    assert Under(CELL, 2) == CELL;
    ReadGroup(CELL, 2, "ntn", koffset, NTN, b);
  }

  lemma ReadTaOpening(common: seq<(string, string)>, c: seq<Line>)
    requires AllPlain(common) && c == [Open(4, "ta_info")] + Fields(6, common)
    ensures Read(NTN, c) == Section(TA, common) && After(NTN, c) == TA
  {
    assert Under(NTN, 4) == NTN;
    ReadGroup(NTN, 4, "ta_info", common, TA, c);
  }

  lemma DriftShows(f: Format, drift: Option<TADrift>)
    ensures Read(TA, DriftLines(f, drift)) == if drift.None? then [] else
      Group(TA, [("ta_common_drift", f.flt(drift.value.drift)), ("ta_common_drift_variant", f.flt(drift.value.variant)), ("ta_common_offset", f.flt(drift.value.offset))])
    ensures After(TA, DriftLines(f, drift)) == TA
  {
    if drift.Some? {
      var t := drift.value;
      var fields := [("ta_common_drift", f.flt(t.drift)), ("ta_common_drift_variant", f.flt(t.variant)), ("ta_common_offset", f.flt(t.offset))];
      ReadFields(TA, 6, fields);
      assert DriftLines(f, drift) == Fields(6, fields);
    }
  }

  lemma TimingRecord(f: Format, s: Spec, ta: TAInfo)
    requires ta == if s.taInfo.Some? then s.taInfo.value else TAInfo(s.taCommon, 0, 0, 0)
    ensures var d := DataOf(f, s);
      && d.koffset == s.koffset && d.taCommon == ta.common as real * 0.004072
      && d.taDrift == if ta.drift == 0 && ta.driftVariant == 0 && ta.offset == 0 then None
                      else Some(TADrift(ta.drift as real * 0.0002, ta.driftVariant as real * 0.00002, ta.offset as real * 0.004072))
  {
  }

  lemma TimingIs(f: Format, s: Spec, d: Data)
    requires var ta := if s.taInfo.Some? then s.taInfo.value else TAInfo(s.taCommon, 0, 0, 0);
      && d.koffset == s.koffset && d.taCommon == ta.common as real * 0.004072
      && d.taDrift == if ta.drift == 0 && ta.driftVariant == 0 && ta.offset == 0 then None
                      else Some(TADrift(ta.drift as real * 0.0002, ta.driftVariant as real * 0.00002, ta.offset as real * 0.004072))
    ensures Timing(f, d.koffset, d.taCommon, d.taDrift) == ShownTiming(f, s)
  {
  }

  lemma TimingShows(f: Format, d: Data)
    ensures var lines := TimingLines(f, d) + DriftLines(f, d.taDrift); Read([], lines) == Timing(f, d.koffset, d.taCommon, d.taDrift) && After([], lines) == TA
  {
    TimingLinesShow(f, d);
    DriftShows(f, d.taDrift);
    ReadConcat([], TimingLines(f, d), DriftLines(f, d.taDrift));
  }

  lemma HeadShows(f: Format, s: Spec)
    ensures var head := Head(f, DataOf(f, s));
      Read([], head) == ShownBanner(f, s) + ShownTiming(f, s) && After([], head) == TA
  {
    var d := DataOf(f, s);
    TimingRecord(f, s, if s.taInfo.Some? then s.taInfo.value else TAInfo(s.taCommon, 0, 0, 0));
    TimingIs(f, s, d);
    BannerShows(f, s);
    HeadOf(f, d, ShownBanner(f, s));
  }

  lemma HeadOf(f: Format, d: Data, banner: seq<Entry>)
    requires Read([], Banner(f, d.payloadType)) == banner && After([], Banner(f, d.payloadType)) == []
    ensures Read([], Head(f, d)) == banner + Timing(f, d.koffset, d.taCommon, d.taDrift) && After([], Head(f, d)) == TA
  {
    var a, b, c := Banner(f, d.payloadType), TimingLines(f, d), DriftLines(f, d.taDrift);
    TimingShows(f, d);
    ReadConcat([], a, b + c);
    assert a + b + c == a + (b + c);
  }

  lemma ReadNotes(f: Format, keys: seq<string>, k: nat)
    ensures var lines := [Comment(6, f.remark(k)), Comment(6, f.remark(k + 1)), Comment(6, f.remark(k + 2))];
      Read(keys, lines) == Remark(f, k) + Remark(f, k + 1) + Remark(f, k + 2) && After(keys, lines) == keys
  {
    var a, b, c := Comment(6, f.remark(k)), Comment(6, f.remark(k + 1)), Comment(6, f.remark(k + 2));
    ReadNote(keys, 6, f.remark(k));
    ReadNote(keys, 6, f.remark(k + 1));
    ReadNote(keys, 6, f.remark(k + 2));
    ReadConcat(keys, [a], [b]);
    ReadConcat(keys, [a] + [b], [c]);
    assert [a, b, c] == [a] + [b] + [c];
  }

  lemma Depths()
    ensures Under(NTN, 2) == CELL && Under(SIB, 4) == SIB && Under(SCHEDULE, 2) == CELL && Under(PDSCH, 2) == CELL
    ensures Under(PRACH, 0) == [] && Under(CU, 2) == CU && Under(TA, 4) == NTN
  {
  }

  lemma SibOpeningShows(f: Format, d: Data)
    ensures Read(NTN, SibOpening(f, d)) == Section(SIB, [("si_window_length", f.itoa(d.windowLength))]) + Heading(SCHEDULE) && After(NTN, SibOpening(f, d)) == SCHEDULE
  {
    var length := [("si_window_length", f.itoa(d.windowLength))];
    var a := [Open(2, "sib")] + Fields(4, length);
    Depths();
    ReadGroup(NTN, 2, "sib", length, SIB, a);
    ReadOpen(SIB, 4, "si_sched_info");
    ReadConcat(NTN, a, [Open(4, "si_sched_info")]);
    assert SibOpening(f, d) == a + [Open(4, "si_sched_info")];
  }

  /** Fields at one column and then deeper ones, in the same item. */
  lemma ReadDeeper(keys: seq<string>, a: nat, first: seq<(string, string)>, b: nat, rest: seq<(string, string)>)
    requires AllPlain(first) && AllPlain(rest) && |keys| <= a / 2 && |keys| <= b / 2
    ensures Read(keys, Fields(a, first) + Fields(b, rest)) == Group(keys, first + rest) && After(keys, Fields(a, first) + Fields(b, rest)) == keys
  {
    ReadFields(keys, a, first);
    ReadFields(keys, b, rest);
    ReadConcat(keys, Fields(a, first), Fields(b, rest));
    GroupConcat(keys, first, rest);
  }

  lemma GroupConcat(path: seq<string>, a: seq<(string, string)>, b: seq<(string, string)>)
    ensures Group(path, a + b) == Group(path, a) + Group(path, b)
  {
  }

  /** One item of the schedule: its period and, deeper, the rest. */
  lemma ReadItem(keys: seq<string>, period: string, rest: seq<(string, string)>)
    requires AllPlain(rest) && |keys| == 3
    ensures var lines := [Field(6, "- si_period", period)] + Fields(8, rest);
      Read(keys, lines) == Group(keys, [("- si_period", period)] + rest) && After(keys, lines) == keys
  {
    var first := [("- si_period", period)];
    assert Fields(6, first) == [Field(6, "- si_period", period)];
    ReadDeeper(keys, 6, first, 8, rest);
  }

  lemma Sib2Shows(f: Format, d: Data)
    ensures Read(SCHEDULE, Sib2Lines(f, d)) == Remark(f, 2) + Remark(f, 3) + Remark(f, 4)
      + Group(SCHEDULE, [("- si_period", f.itoa(d.period))] + [("sib_mapping", "[2]")])
    ensures After(SCHEDULE, Sib2Lines(f, d)) == SCHEDULE
  {
    var period, rest := f.itoa(d.period), [("sib_mapping", "[2]")];
    var notes, item := [Comment(6, f.remark(2)), Comment(6, f.remark(3)), Comment(6, f.remark(4))], [Field(6, "- si_period", period)] + Fields(8, rest);
    ReadNotes(f, SCHEDULE, 2);
    ReadItem(SCHEDULE, period, rest);
    ReadConcat(SCHEDULE, notes, item);
    assert Sib2Lines(f, d) == notes + item;
  }

  lemma Sib19Parts(f: Format, d: Data, rest: seq<(string, string)>)
    requires rest == [("sib_mapping", "[19]"), ("si_window_position", f.itoa(d.windowPosition))]
    ensures Sib19Lines(f, d) == [Comment(6, f.remark(5)), Comment(6, f.remark(6)), Comment(6, f.remark(7))]
      + ([Field(6, "- si_period", f.itoa(d.period))] + Fields(8, rest))
  {
    assert Fields(8, rest) == [Field(8, "sib_mapping", "[19]"), Field(8, "si_window_position", f.itoa(d.windowPosition))];
  }

  lemma Sib19Shows(f: Format, d: Data)
    ensures Read(SCHEDULE, Sib19Lines(f, d)) == Remark(f, 5) + Remark(f, 6) + Remark(f, 7)
      + Group(SCHEDULE, [("- si_period", f.itoa(d.period))] + [("sib_mapping", "[19]"), ("si_window_position", f.itoa(d.windowPosition))])
    ensures After(SCHEDULE, Sib19Lines(f, d)) == SCHEDULE
  {
    var period, rest := f.itoa(d.period), [("sib_mapping", "[19]"), ("si_window_position", f.itoa(d.windowPosition))];
    var notes, item := [Comment(6, f.remark(5)), Comment(6, f.remark(6)), Comment(6, f.remark(7))], [Field(6, "- si_period", period)] + Fields(8, rest);
    ReadNotes(f, SCHEDULE, 5);
    ReadItem(SCHEDULE, period, rest);
    ReadConcat(SCHEDULE, notes, item);
    Sib19Parts(f, d, rest);
  }

  lemma ReadPdsch(fields: seq<(string, string)>, lines: seq<Line>)
    requires AllPlain(fields) && lines == [Open(2, "pdsch")] + Fields(4, fields)
    ensures Read(SCHEDULE, lines) == Section(PDSCH, fields) && After(SCHEDULE, lines) == PDSCH
  {
    Depths();
    ReadGroup(SCHEDULE, 2, "pdsch", fields, PDSCH, lines);
  }

  lemma ReadPrach(fields: seq<(string, string)>, lines: seq<Line>)
    requires AllPlain(fields) && lines == [Open(2, "prach")] + Fields(4, fields)
    ensures Read(PDSCH, lines) == Section(PRACH, fields) && After(PDSCH, lines) == PRACH
  {
    Depths();
    ReadGroup(PDSCH, 2, "prach", fields, PRACH, lines);
  }

  /** Two blocks and a blank line. */
  lemma ReadPair(keys: seq<string>, a: seq<Line>, x: seq<Entry>, between: seq<string>, b: seq<Line>, y: seq<Entry>, last: seq<string>)
    requires Read(keys, a) == x && After(keys, a) == between && Read(between, b) == y && After(between, b) == last
    ensures Read(keys, a + b + [BLANK]) == x + y && After(keys, a + b + [BLANK]) == last
  {
    ReadBlank(last);
    ReadThree(keys, a, between, b, last, [BLANK]);
  }

  lemma RetriesShow(f: Format, d: Data)
    ensures Read(SCHEDULE, RetryLines(f, d)) == Section(PDSCH, [("max_nof_harq_retxs", f.itoa(d.pdschRetxs))]) + Section(PRACH, [("max_msg3_harq_retx", f.itoa(d.msg3Retx))])
    ensures After(SCHEDULE, RetryLines(f, d)) == PRACH
  {
    var pdsch, prach := [("max_nof_harq_retxs", f.itoa(d.pdschRetxs))], [("max_msg3_harq_retx", f.itoa(d.msg3Retx))];
    var a, b := [Open(2, "pdsch")] + Fields(4, pdsch), [Open(2, "prach")] + Fields(4, prach);
    ReadPdsch(pdsch, a);
    ReadPrach(prach, b);
    ReadPair(SCHEDULE, a, Section(PDSCH, pdsch), PDSCH, b, Section(PRACH, prach), PRACH);
    assert RetryLines(f, d) == a + b + [BLANK];
  }

  lemma ReadCuOpening(lines: seq<Line>)
    requires lines == [Open(0, "cu_cp")]
    ensures Read(PRACH, lines) == Heading(CU) && After(PRACH, lines) == CU
  {
    Depths();
    ReadOpen(PRACH, 0, "cu_cp");
    assert Under(PRACH, 0) + ["cu_cp"] == CU;
  }

  lemma ReadRrc(fields: seq<(string, string)>, lines: seq<Line>)
    requires AllPlain(fields) && lines == [Open(2, "rrc")] + Fields(4, fields)
    ensures Read(CU, lines) == Section(RRC, fields) && After(CU, lines) == RRC
  {
    Depths();
    ReadGroup(CU, 2, "rrc", fields, RRC, lines);
  }

  lemma GuardShows(f: Format, d: Data)
    ensures Read(PRACH, GuardLines(f, d)) == Heading(CU) + Section(RRC, [("rrc_procedure_guard_time_ms", f.itoa(d.guardTime))])
  {
    var guard := [("rrc_procedure_guard_time_ms", f.itoa(d.guardTime))];
    var a, b := [Open(0, "cu_cp")], [Open(2, "rrc")] + Fields(4, guard);
    ReadCuOpening(a);
    ReadRrc(guard, b);
    ReadPair(PRACH, a, Heading(CU), CU, b, Section(RRC, guard), RRC);
    assert GuardLines(f, d) == a + b + [BLANK];
  }

  /** The schedule, with the values of the record. */
  lemma SibsShow(f: Format, d: Data)
    ensures var lines := SibOpening(f, d) + Sib2Lines(f, d) + Sib19Lines(f, d);
      && Read(NTN, lines) == Read(NTN, SibOpening(f, d)) + Read(SCHEDULE, Sib2Lines(f, d)) + Read(SCHEDULE, Sib19Lines(f, d))
      && After(NTN, lines) == SCHEDULE
  {
    SibOpeningShows(f, d);
    Sib2Shows(f, d);
    Sib19Shows(f, d);
    ReadThree(NTN, SibOpening(f, d), SCHEDULE, Sib2Lines(f, d), SCHEDULE, Sib19Lines(f, d));
  }

  lemma RecordShows(f: Format, s: Spec)
    ensures var d := DataOf(f, s);
      && d.windowLength == WindowLength(s) && d.period == Period(s) && d.windowPosition == Position(s)
      && d.pdschRetxs == HarqRetries(s) && d.msg3Retx == Msg3Retries(s) && d.guardTime == GuardTime(s)
  {
  }

  lemma ShownSibsAre(f: Format, s: Spec, d: Data)
    requires d.windowLength == WindowLength(s) && d.period == Period(s) && d.windowPosition == Position(s)
    ensures ShownSibs(f, s) == Read(NTN, SibOpening(f, d)) + Read(SCHEDULE, Sib2Lines(f, d)) + Read(SCHEDULE, Sib19Lines(f, d))
  {
    SibOpeningShows(f, d);
    Sib2Shows(f, d);
    Sib19Shows(f, d);
  }

  lemma FootShows(f: Format, s: Spec)
    ensures Read(NTN, Foot(f, DataOf(f, s))) == ShownSibs(f, s) + ShownRest(f, s)
  {
    RecordShows(f, s);
    FootOf(f, s, DataOf(f, s));
  }

  lemma RestIs(f: Format, s: Spec, d: Data)
    requires d.pdschRetxs == HarqRetries(s) && d.msg3Retx == Msg3Retries(s) && d.guardTime == GuardTime(s)
    ensures Read(SCHEDULE, RetryLines(f, d)) + Read(PRACH, GuardLines(f, d)) == ShownRest(f, s) && After(SCHEDULE, RetryLines(f, d)) == PRACH
  {
    RetriesShow(f, d);
    GuardShows(f, d);
  }

  lemma FootOf(f: Format, s: Spec, d: Data)
    requires d.windowLength == WindowLength(s) && d.period == Period(s) && d.windowPosition == Position(s)
    requires d.pdschRetxs == HarqRetries(s) && d.msg3Retx == Msg3Retries(s) && d.guardTime == GuardTime(s)
    ensures Read(NTN, Foot(f, d)) == ShownSibs(f, s) + ShownRest(f, s)
  {
    SibsShow(f, d);
    ShownSibsAre(f, s, d);
    RestIs(f, s, d);
    ReadThree(NTN, SibOpening(f, d) + Sib2Lines(f, d) + Sib19Lines(f, d), SCHEDULE, RetryLines(f, d), PRACH, GuardLines(f, d));
  }

  lemma FootStarts(f: Format, d: Data)
    ensures Foot(f, d) != [] && Keyed(Foot(f, d)[0]) && Foot(f, d)[0].column == 2
  {
    OpenToken(2, "sib");
  }

  /** A head, blocks under cell_cfg.ntn, and a foot that starts one level higher. */
  lemma ReadAround(keys: seq<string>, ntn: seq<string>, head: seq<Line>, mid: seq<Line>, foot: seq<Line>)
    requires After([], head) == keys && |keys| >= 2 && keys[..2] == ntn
    requires Block(mid) && foot != [] && Keyed(foot[0]) && foot[0].column == 2
    ensures Read([], head + mid + foot) == Read([], head) + Read(ntn, mid) + Read(ntn, foot)
  {
    ReadConcat([], head, mid);
    ReadConcat([], head + mid, foot);
    Forgets(keys, ntn, mid);
    StaysInside(keys, mid);
    SameAbove(After(keys, mid), keys);
    SameAbove(ntn, keys);
    Forgets(After(keys, mid), ntn, foot);
  }

  lemma SameAbove(a: seq<string>, b: seq<string>)
    requires |a| >= 2 && |b| >= 2 && a[..2] == b[..2]
    ensures Under(a, 2) == Under(b, 2) == [a[0]]
  {
    assert a[..2][0] == a[0] && b[..2][0] == b[0];
  }

  lemma MiddleShows(f: Format, s: Spec)
    requires OneOf(s.ephemeris)
    ensures var d := DataOf(f, s); var mid := EphemerisLines(f, d.ephemeris) + Optionals(f, d);
      Block(mid) && Read(NTN, mid) == ShownEphemeris(f, s.ephemeris) + (ShownLinks(f, s) + ShownOthers(f, s))
  {
    var d := DataOf(f, s);
    EphemerisShows(f, s.ephemeris);
    LinksShow(f, s);
    OthersShow(f, s);
    ReadBlocks(LinkLines(f, d), OtherLines(f, d));
    ReadBlocks(EphemerisLines(f, d.ephemeris), Optionals(f, d));
  }

  /** The lines of a generated configuration show every field of the spec under its key, in its unit, and nothing else. */
  lemma LinesShowTheSpec(f: Format, s: Spec)
    requires OneOf(s.ephemeris)
    ensures Read([], Lines(f, DataOf(f, s))) == Shown(f, s)
  {
    var d := DataOf(f, s);
    var head, mid, foot := Head(f, d), EphemerisLines(f, d.ephemeris) + Optionals(f, d), Foot(f, d);
    HeadShows(f, s);
    MiddleShows(f, s);
    FootShows(f, s);
    FootStarts(f, d);
    assert |TA| == 3 && TA[..2] == NTN;
    ReadAround(TA, NTN, head, mid, foot);
    LinesApart(f, d);
  }

  lemma LinesApart(f: Format, d: Data)
    ensures Lines(f, d) == Head(f, d) + (EphemerisLines(f, d.ephemeris) + Optionals(f, d)) + Foot(f, d)
  {
  }

  // ---- the text itself -------------------------------------------------------------------------------------------------

  predicate Upright(lines: seq<Line>) {
    forall i | 0 <= i < |lines| :: lines[i] == BLANK || EphemerisRewrite.Solid(lines[i])
  }

  lemma LineShown(l: Line)
    requires l == BLANK || EphemerisRewrite.Solid(l)
    ensures LineOf(Show(l)) == l
  {
    if l != BLANK {
      EphemerisRewrite.SolidLine(l, 0);
      assert Show(l)[l.column..] == l.text;
    }
  }

  lemma {:induction false} NeighboursUpright(f: Format, ns: seq<Neighbour>)
    ensures Upright(NeighbourLines(f, ns))
  {
    if ns != [] {
      NeighboursUpright(f, ns[..|ns| - 1]);
    }
  }

  lemma UprightConcat(a: seq<Line>, b: seq<Line>)
    requires Upright(a) && Upright(b)
    ensures Upright(a + b)
  {
  }

  lemma LinksUpright(f: Format, d: Data)
    ensures Upright(LinkLines(f, d))
  {
    NeighbourBlockUpright(f, d.neighbours);
    var a, b, c, e := EpochLines(f, d.epochTime), FeederLines(f, d.feeder), GatewayLines(f, d.gateway), NeighbourBlock(f, d.neighbours);
    EpochUpright(f, d.epochTime);
    FeederUpright(f, d.feeder);
    GatewayUpright(f, d.gateway);
    UprightConcat(a, b);
    UprightConcat(a + b, c);
    UprightConcat(a + b + c, e);
  }

  lemma EpochUpright(f: Format, e: Option<EpochTime>)
    ensures Upright(EpochLines(f, e))
  {
  }

  lemma FeederUpright(f: Format, l: Option<FeederLink>)
    ensures Upright(FeederLines(f, l))
  {
  }

  lemma GatewayUpright(f: Format, g: Option<(Point, int)>)
    ensures Upright(GatewayLines(f, g))
  {
    if g.Some? {
      PointUpright(f, "gateway_location", Some(g.value.0));
    }
  }

  lemma NeighbourBlockUpright(f: Format, ns: seq<Neighbour>)
    ensures Upright(NeighbourBlock(f, ns))
  {
    NeighboursUpright(f, ns);
    assert Upright([Open(4, "ncells")]);
    UprightConcat([Open(4, "ncells")], NeighbourLines(f, ns));
  }

  lemma PointUpright(f: Format, key: string, p: Option<Point>)
    requires key != [] && !IsSpace(key[0])
    ensures Upright(PointLines(f, key, p))
  {
  }

  lemma OthersUpright(f: Format, d: Data)
    ensures Upright(OtherLines(f, d))
  {
    var a, b, c := PointLines(f, "reference_location", d.reference), DistanceLines(f, d.distance), PointLines(f, "moving_ref_location", d.moving);
    var g, h, k := PolarizationLines(f, d.polarization), ReportLines(f, d.taReport), SyncLines(f, d.ulSync);
    PointUpright(f, "reference_location", d.reference);
    PointUpright(f, "moving_ref_location", d.moving);
    assert Upright(b) && Upright(g) && Upright(h) && Upright(k);
    UprightConcat(a, b);
    UprightConcat(a + b, c);
    UprightConcat(a + b + c, g);
    UprightConcat(a + b + c + g, h);
    UprightConcat(a + b + c + g + h, k);
  }

  lemma FootUpright(f: Format, d: Data)
    ensures Upright(Foot(f, d))
  {
    assert Upright(SibOpening(f, d)) && Upright(Sib2Lines(f, d)) && Upright(Sib19Lines(f, d));
    assert Upright(RetryLines(f, d)) && Upright(GuardLines(f, d));
  }

  lemma LinesUpright(f: Format, d: Data)
    ensures Upright(Lines(f, d))
  {
    EphemerisRewrite.HeadHasNoKey(f, d);
    var a, b, c, e, g := Head(f, d), EphemerisLines(f, d.ephemeris), LinkLines(f, d), OtherLines(f, d), Foot(f, d);
    EphemerisUpright(f, d.ephemeris);
    LinksUpright(f, d);
    OthersUpright(f, d);
    FootUpright(f, d);
    UprightConcat(a, b);
    UprightConcat(c, e);
    UprightConcat(c + e, g);
    UprightConcat(a + b, c + e + g);
  }

  lemma EphemerisUpright(f: Format, e: Physical)
    ensures Upright(EphemerisLines(f, e))
  {
  }

  lemma LinesRead(lines: seq<Line>)
    requires Upright(lines) && lines != [] && AllClean(ShowAll(lines))
    ensures LinesOf(Join(ShowAll(lines))) == lines
  {
    SplitJoin(ShowAll(lines));
    forall i | 0 <= i < |lines| ensures LineOf(ShowAll(lines)[i]) == lines[i] { LineShown(lines[i]); }
  }

  /**
   The generated text, read line by line by indentation alone, says exactly what the table says: every field of the spec
   that is set stands once under its own key, in its own unit, with its default where one applies, and nothing else is there.
   */
  lemma ConfigShowsTheSpec(f: Format, s: Spec)
    requires OneLine(f) && OneOf(s.ephemeris)
    ensures Entries(Generated(f, s)) == Shown(f, s)
  {
    EphemerisRewrite.LinesAreClean(f, s);
    LinesUpright(f, DataOf(f, s));
    LinesRead(Lines(f, DataOf(f, s)));
    LinesShowTheSpec(f, s);
  }

  /** And after a push it shows the pushed ephemeris, with everything else as it was. */
  lemma RewrittenShowsTheUpdate(f: Format, s: Spec, e: Ephemeris)
    requires OneLine(f) && OneOf(s.ephemeris) && OneOf(e)
    ensures Entries(EphemerisRewrite.Replace(EphemerisRewrite.RendererOf(f, e), Generated(f, s))) == Shown(f, s.(ephemeris := e))
  {
    EphemerisRewrite.RewriteIsRegenerate(f, s, e);
    ConfigShowsTheSpec(f, s.(ephemeris := e));
  }
}

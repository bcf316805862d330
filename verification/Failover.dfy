/**
 The failover engine (pkg/slice/failover.go): triggers, the hysteresis dead-band and the anti-flap
 gates. Trigger text is taken as already parsed: `Parsed` is what ParseTrigger accepts and
 `Malformed` is everything it rejects. Both spellings of a metric name read the same field, so a
 metric here is that field.
 */
module Failover {
  import opened Prelude

  datatype Path = Terrestrial | Satellite | Unavailable
  datatype Decision = Stay | Failover | Switchback
  datatype Verdict = Verdict(decision: Decision, target: Path)

  datatype Metric = Rsrp | Latency | PacketLoss
  datatype Operator = Lt | Gt | Le | Ge
  datatype Trigger = Trigger(metric: Metric, op: Operator, value: real)
  datatype Expr = Parsed(trigger: Trigger) | Malformed

  /** One reading per field; `None` is a field left at its placeholder (the *Missing flags). */
  datatype Metrics = Metrics(rsrp: Option<real>, latency: Option<real>, packetLoss: Option<real>)

  /** The source's sample and its timestamp; a zero timestamp means the reader cannot supply one. */
  datatype Sample = Sample(metrics: Metrics, observedAt: Instant)

  /** spec.failoverPolicy; `margin` is already defaulted to 0 when absent, invalid or negative. */
  datatype Policy = Policy(triggers: seq<Expr>, margin: real, delay: int, samples: int, dwell: int)

  datatype FlapState = FlapState(
    consecutive: nat, recoveryAt: Instant, lastSwitchback: Instant, cursor: Instant)

  const NO_FLAP := FlapState(0, 0, 0, 0)

  // ---- triggers -------------------------------------------------------------------------------

  function Reading(k: Metric, m: Metrics): Option<real> {
    match k
    case Rsrp => m.rsrp
    case Latency => m.latency
    case PacketLoss => m.packetLoss
  }

  predicate Known(t: Trigger, m: Metrics) {
    Reading(t.metric, m).Some?
  }

  /** Trigger.Evaluate */
  predicate Fires(t: Trigger, m: Metrics)
    requires Known(t, m)
  {
    var actual := Reading(t.metric, m).value;
    match t.op
    case Lt => actual < t.value
    case Gt => actual > t.value
    case Le => actual <= t.value
    case Ge => actual >= t.value
  }

  predicate LowerBound(t: Trigger) {
    t.op == Lt || t.op == Le
  }

  /** Trigger.EvaluateRecovery: an upper-bound recovery threshold is clamped up to 0. */
  predicate RecoveredPast(t: Trigger, m: Metrics, margin: real)
    requires Known(t, m)
  {
    var actual := Reading(t.metric, m).value;
    if LowerBound(t) then actual >= t.value + margin
    else actual <= (if t.value - margin < 0.0 then 0.0 else t.value - margin)
  }

  predicate Live(e: Expr, m: Metrics) {
    e.Parsed? && Known(e.trigger, m)
  }

  predicate Inert(e: Expr, m: Metrics) {
    e.Parsed? && !Known(e.trigger, m)
  }

  predicate Degraded(es: seq<Expr>, m: Metrics) {
    exists e | e in es :: Live(e, m) && Fires(e.trigger, m)
  }

  predicate HasInert(es: seq<Expr>, m: Metrics) {
    exists e | e in es :: Inert(e, m)
  }

  /** No live trigger at all, and at least one expression that did not parse. */
  predicate AllInvalid(es: seq<Expr>, m: Metrics) {
    Malformed in es && forall e | e in es :: !Live(e, m)
  }

  predicate PastDeadBand(es: seq<Expr>, m: Metrics, margin: real) {
    forall e | e in es :: Live(e, m) ==> RecoveredPast(e.trigger, m, margin)
  }

  /** Every parsed trigger is known and past the margin, and a non-empty policy has a parsed one. */
  predicate ConfirmedRecovered(es: seq<Expr>, m: Metrics, margin: real) {
    && (forall e | e in es :: e.Parsed? ==> Known(e.trigger, m) && RecoveredPast(e.trigger, m, margin))
    && (es != [] ==> exists e | e in es :: e.Parsed?)
  }

  // ---- the engine as functions ----------------------------------------------------------------

  predicate DelayPending(clock: Instant, now: Instant, delay: int) {
    clock != 0 && now - clock < delay
  }

  /** EvaluateFailoverWithContext */
  function Decide(path: Path, es: seq<Expr>, m: Metrics, available: bool, delay: int, clock: Instant, now: Instant): Verdict {
    if path == Satellite && !available then Verdict(Switchback, Terrestrial)
    else if AllInvalid(es, m) then Verdict(Stay, path)
    else
      match path
      case Terrestrial =>
        if Degraded(es, m) && available then Verdict(Failover, Satellite) else Verdict(Stay, Terrestrial)
      case Satellite =>
        if Degraded(es, m) || HasInert(es, m) || DelayPending(clock, now, delay) then Verdict(Stay, Satellite)
        else Verdict(Switchback, Terrestrial)
      case Unavailable =>
        if !Degraded(es, m) && !(HasInert(es, m) && available) then Verdict(Switchback, Terrestrial)
        else if available then Verdict(Failover, Satellite)
        else Verdict(Stay, Unavailable)
  }

  /** EvaluateFailoverWithHysteresis */
  function DecideWithHysteresis(path: Path, pol: Policy, m: Metrics, available: bool, clock: Instant, now: Instant): Verdict {
    if path != Satellite || pol.margin <= 0.0 then
      Decide(path, pol.triggers, m, available, pol.delay, clock, now)
    else if !available then Verdict(Switchback, Terrestrial)
    else if AllInvalid(pol.triggers, m) || Degraded(pol.triggers, m) || HasInert(pol.triggers, m) then
      Verdict(Stay, Satellite)
    else if !PastDeadBand(pol.triggers, m, pol.margin) || DelayPending(clock, now, pol.delay) then
      Verdict(Stay, Satellite)
    else Verdict(Switchback, Terrestrial)
  }

  /** Only a sample newer than the cursor, or one without a timestamp, advances the clocks. */
  predicate Counted(st: FlapState, s: Sample) {
    s.observedAt == 0 || s.observedAt > st.cursor
  }

  /** The confirmation counter and the recovery clock after one reliable sample. */
  function Tick(st: FlapState, pol: Policy, s: Sample, now: Instant): FlapState {
    if !Counted(st, s) then st
    else if Degraded(pol.triggers, s.metrics) then
      st.(consecutive := st.consecutive + 1, recoveryAt := 0, cursor := s.observedAt)
    else if ConfirmedRecovered(pol.triggers, s.metrics, pol.margin) then
      st.(consecutive := 0, recoveryAt := if st.recoveryAt == 0 then now else st.recoveryAt, cursor := s.observedAt)
    else
      st.(consecutive := 0, recoveryAt := 0, cursor := s.observedAt)
  }

  predicate Unconfirmed(pol: Policy, st: FlapState) {
    pol.samples > 1 && st.consecutive < pol.samples
  }

  predicate WithinDwell(pol: Policy, st: FlapState, now: Instant) {
    pol.dwell > 0 && st.lastSwitchback != 0 && now - st.lastSwitchback < pol.dwell
  }

  /** EvaluateFailoverWithAntiFlap */
  function AntiFlap(path: Path, pol: Policy, s: Sample, available: bool, now: Instant, st: FlapState): (Verdict, FlapState) {
    var st1 := Tick(st, pol, s, now);
    var raw := DecideWithHysteresis(path, pol, s.metrics, available, st1.recoveryAt, now);
    var v := if raw.decision == Failover && path == Terrestrial && (Unconfirmed(pol, st1) || WithinDwell(pol, st1, now))
             then Verdict(Stay, path) else raw;
    (v, if v.decision == Switchback && available && path == Satellite then st1.(lastSwitchback := now) else st1)
  }

  /** EvaluateSafeHold: quality transitions are suppressed, the orbital one is honored. */
  function SafeHold(path: Path, available: bool): Verdict {
    if path == Satellite && !available then Verdict(Switchback, Terrestrial) else Verdict(Stay, path)
  }

  // ---- the engine as the source runs it -------------------------------------------------------

  datatype TriggerSet = TriggerSet(parsed: seq<Trigger>, anyTriggered: bool, allInvalid: bool, hasUnknown: bool)

  /** The triggers parseTriggerSet keeps, in order. */
  function LiveTriggers(es: seq<Expr>, m: Metrics): seq<Trigger> {
    if es == [] then []
    else
      var rest := LiveTriggers(es[..|es| - 1], m);
      var e := es[|es| - 1];
      if Live(e, m) then rest + [e.trigger] else rest
  }

  lemma {:induction false} LiveTriggersMembers(es: seq<Expr>, m: Metrics, t: Trigger)
    ensures t in LiveTriggers(es, m) <==> Known(t, m) && Parsed(t) in es
  {
    if es != [] {
      LiveTriggersMembers(es[..|es| - 1], m, t);
      assert es == es[..|es| - 1] + [es[|es| - 1]];
    }
  }

  /**
   One pass over the expressions. Parse errors stop being counted at the first trigger that fires,
   and yet `allInvalid` comes out order-independent.
   */
  method ParseTriggerSet(es: seq<Expr>, m: Metrics) returns (ts: TriggerSet)
    ensures ts.parsed == LiveTriggers(es, m)
    ensures ts.anyTriggered == Degraded(es, m)
    ensures ts.hasUnknown == HasInert(es, m)
    ensures ts.allInvalid == AllInvalid(es, m)
  {
    ts := TriggerSet([], false, false, false);
    var parseErrors := 0;
    for i := 0 to |es|
      invariant ts.parsed == LiveTriggers(es[..i], m)
      invariant ts.anyTriggered == Degraded(es[..i], m)
      invariant ts.hasUnknown == HasInert(es[..i], m)
      invariant parseErrors >= 0
      invariant ts.parsed == [] <==> forall e | e in es[..i] :: !Live(e, m)
      invariant ts.parsed == [] ==> (parseErrors > 0 <==> Malformed in es[..i])
      invariant !ts.allInvalid
    {
      assert es[..i + 1][..i] == es[..i];
      assert es[i] in es[..i + 1] && forall e :: e in es[..i + 1] <==> e in es[..i] || e == es[i];
      match es[i]
      case Malformed =>
        if !ts.anyTriggered { parseErrors := parseErrors + 1; }
      case Parsed(t) =>
        if !Known(t, m) {
          ts := ts.(hasUnknown := true);
        } else {
          ts := ts.(parsed := ts.parsed + [t]);
          if !ts.anyTriggered && Fires(t, m) { ts := ts.(anyTriggered := true); }
        }
    }
    assert es[..|es|] == es;
    if |ts.parsed| == 0 && parseErrors > 0 { ts := ts.(allInvalid := true); }
  }

  method TerrestrialDegraded(es: seq<Expr>, m: Metrics) returns (b: bool)
    ensures b == Degraded(es, m)
  {
    for i := 0 to |es|
      invariant !Degraded(es[..i], m)
    {
      assert forall e :: e in es[..i + 1] <==> e in es[..i] || e == es[i];
      if es[i].Parsed? && Known(es[i].trigger, m) && Fires(es[i].trigger, m) {
        assert es[i] in es;
        return true;
      }
    }
    assert es[..|es|] == es;
    return false;
  }

  method TerrestrialConfirmedRecovered(es: seq<Expr>, m: Metrics, margin: real) returns (b: bool)
    ensures b == ConfirmedRecovered(es, m, margin)
  {
    var sawValid := false;
    for i := 0 to |es|
      invariant sawValid == exists e | e in es[..i] :: e.Parsed?
      invariant forall e | e in es[..i] :: e.Parsed? ==> Known(e.trigger, m) && RecoveredPast(e.trigger, m, margin)
    {
      assert forall e :: e in es[..i + 1] <==> e in es[..i] || e == es[i];
      assert es[i] in es;
      if es[i].Malformed? { continue; }
      sawValid := true;
      if !Known(es[i].trigger, m) || !RecoveredPast(es[i].trigger, m, margin) { return false; }
    }
    assert es[..|es|] == es;
    return |es| == 0 || sawValid;
  }

  method EvaluateFailoverWithContext(path: Path, es: seq<Expr>, m: Metrics, available: bool, delay: int,
                                     clock: Instant, now: Instant) returns (v: Verdict)
    ensures v == Decide(path, es, m, available, delay, clock, now)
  {
    var ts := ParseTriggerSet(es, m);
    if path == Satellite && !available { return Verdict(Switchback, Terrestrial); }
    if ts.allInvalid { return Verdict(Stay, path); }
    match path
    case Terrestrial =>
      if !ts.anyTriggered { return Verdict(Stay, Terrestrial); }
      if !available { return Verdict(Stay, Terrestrial); }
      return Verdict(Failover, Satellite);
    case Satellite =>
      if ts.anyTriggered { return Verdict(Stay, Satellite); }
      if ts.hasUnknown { return Verdict(Stay, Satellite); }
      if clock != 0 && now - clock < delay { return Verdict(Stay, Satellite); }
      return Verdict(Switchback, Terrestrial);
    case Unavailable =>
      if !ts.anyTriggered {
        if ts.hasUnknown && available { return Verdict(Failover, Satellite); }
        return Verdict(Switchback, Terrestrial);
      }
      if available { return Verdict(Failover, Satellite); }
      return Verdict(Stay, Unavailable);
  }

  method EvaluateFailoverWithHysteresis(path: Path, pol: Policy, m: Metrics, available: bool,
                                        clock: Instant, now: Instant) returns (v: Verdict)
    ensures v == DecideWithHysteresis(path, pol, m, available, clock, now)
  {
    if path != Satellite || pol.margin <= 0.0 {
      v := EvaluateFailoverWithContext(path, pol.triggers, m, available, pol.delay, clock, now);
      return;
    }
    var ts := ParseTriggerSet(pol.triggers, m);
    forall t ensures t in ts.parsed <==> Known(t, m) && Parsed(t) in pol.triggers {
      LiveTriggersMembers(pol.triggers, m, t);
    }
    if !available { return Verdict(Switchback, Terrestrial); }
    if ts.allInvalid { return Verdict(Stay, path); }
    if ts.anyTriggered { return Verdict(Stay, Satellite); }
    if ts.hasUnknown { return Verdict(Stay, Satellite); }
    var allRecovered := true;
    for i := 0 to |ts.parsed|
      invariant allRecovered
      invariant forall j | 0 <= j < i :: RecoveredPast(ts.parsed[j], m, pol.margin)
    {
      if !RecoveredPast(ts.parsed[i], m, pol.margin) {
        allRecovered := false;
        assert Parsed(ts.parsed[i]) in pol.triggers && Live(Parsed(ts.parsed[i]), m);
        break;
      }
    }
    if !allRecovered { return Verdict(Stay, Satellite); }
    assert PastDeadBand(pol.triggers, m, pol.margin) by {
      forall e | e in pol.triggers && Live(e, m) ensures RecoveredPast(e.trigger, m, pol.margin) {
        assert e.trigger in ts.parsed;
      }
    }
    if clock != 0 && now - clock < pol.delay { return Verdict(Stay, Satellite); }
    return Verdict(Switchback, Terrestrial);
  }

  /** The local copy of the state is updated step by step, as in the source. */
  method EvaluateFailoverWithAntiFlap(path: Path, pol: Policy, s: Sample, available: bool, now: Instant, st0: FlapState)
    returns (v: Verdict, st: FlapState)
    ensures (v, st) == AntiFlap(path, pol, s, available, now, st0)
  {
    st := st0;
    if s.observedAt == 0 || s.observedAt > st.cursor {
      var degraded := TerrestrialDegraded(pol.triggers, s.metrics);
      var recovered := TerrestrialConfirmedRecovered(pol.triggers, s.metrics, pol.margin);
      if degraded {
        st := st.(consecutive := st.consecutive + 1, recoveryAt := 0);
      } else if recovered {
        st := st.(consecutive := 0);
        if st.recoveryAt == 0 { st := st.(recoveryAt := now); }
      } else {
        st := st.(consecutive := 0, recoveryAt := 0);
      }
      st := st.(cursor := s.observedAt);
    }
    v := EvaluateFailoverWithHysteresis(path, pol, s.metrics, available, st.recoveryAt, now);
    if v.decision == Failover && path == Terrestrial {
      if pol.samples > 1 && st.consecutive < pol.samples {
        v := Verdict(Stay, path);
      } else if pol.dwell > 0 && st.lastSwitchback != 0 && now - st.lastSwitchback < pol.dwell {
        v := Verdict(Stay, path);
      }
    }
    if v.decision == Switchback && available && path == Satellite {
      st := st.(lastSwitchback := now);
    }
  }

  // ---- what a trigger reads -------------------------------------------------------------------

  /** Each metric reads its own field, whatever the others show; an unknown field makes only its own triggers inert. */
  lemma EachMetricReadsItsField(v: real, r: real, l: real, p: real)
    ensures var m := Metrics(Some(r), Some(l), Some(p));
            && (Fires(Trigger(Rsrp, Lt, v), m) <==> r < v) && (Fires(Trigger(Rsrp, Ge, v), m) <==> r >= v)
            && (Fires(Trigger(Latency, Gt, v), m) <==> l > v) && (Fires(Trigger(Latency, Le, v), m) <==> l <= v)
            && (Fires(Trigger(PacketLoss, Gt, v), m) <==> p > v) && (Fires(Trigger(PacketLoss, Lt, v), m) <==> p < v)
    ensures !Known(Trigger(Rsrp, Lt, v), Metrics(None, Some(l), Some(p)))
    ensures !Known(Trigger(Latency, Gt, v), Metrics(Some(r), None, Some(p)))
    ensures !Known(Trigger(PacketLoss, Gt, v), Metrics(Some(r), Some(l), None))
  {
  }

  // ---- what the engine promises ---------------------------------------------------------------

  /**
   A quality-driven hand-back is only ever decided on a sample that is confirmed recovered. With no
   margin the two evaluators agree because "does not fire" already implies "recovered past 0".
   */
  lemma HandBackNeedsConfirmedRecovery(pol: Policy, m: Metrics, clock: Instant, now: Instant)
    requires pol.margin >= 0.0
    requires DecideWithHysteresis(Satellite, pol, m, true, clock, now).decision == Switchback
    ensures ConfirmedRecovered(pol.triggers, m, pol.margin) && !Degraded(pol.triggers, m)
    ensures !DelayPending(clock, now, pol.delay)
  {
    forall e | e in pol.triggers && e.Parsed?
      ensures Known(e.trigger, m) && RecoveredPast(e.trigger, m, pol.margin)
    {
      assert !Inert(e, m);
      assert !Fires(e.trigger, m);
    }
    if pol.triggers != [] && forall e | e in pol.triggers :: !e.Parsed? {
      assert pol.triggers[0] == Malformed;
    }
  }

  /**
   Exactly when the engine hands back from an available satellite: the sample is confirmed recovered and
   either the recovery has lasted the switchback delay, or the sample is a replay that finds no recovery
   clock running. In the second case the delay is not consulted at all.
   */
  lemma HandBackExactly(pol: Policy, s: Sample, now: Instant, st: FlapState)
    requires pol.margin >= 0.0 && now > 0
    ensures AntiFlap(Satellite, pol, s, true, now, st).0.decision == Switchback <==>
            && ConfirmedRecovered(pol.triggers, s.metrics, pol.margin) && !Degraded(pol.triggers, s.metrics)
            && (if st.recoveryAt != 0 then now - st.recoveryAt >= pol.delay
                else !Counted(st, s) || 0 >= pol.delay)
  {
    var st1 := Tick(st, pol, s, now);
    if ConfirmedRecovered(pol.triggers, s.metrics, pol.margin) && !Degraded(pol.triggers, s.metrics) {
      assert !HasInert(pol.triggers, s.metrics);
      assert !AllInvalid(pol.triggers, s.metrics);
      assert PastDeadBand(pol.triggers, s.metrics, pol.margin);
    } else if DecideWithHysteresis(Satellite, pol, s.metrics, true, st1.recoveryAt, now).decision == Switchback {
      HandBackNeedsConfirmedRecovery(pol, s.metrics, st1.recoveryAt, now);
    }
  }

  /** A timestamped sample counts at most once: evaluated again, or after any newer one, it changes nothing. */
  lemma SampleCountsOnce(st: FlapState, pol: Policy, s: Sample, replay: Sample, now: Instant, later: Instant)
    requires Counted(st, s) && 0 < replay.observedAt <= s.observedAt
    ensures !Counted(Tick(st, pol, s, now), replay)
    ensures Tick(Tick(st, pol, s, now), pol, replay, later) == Tick(st, pol, s, now)
  {
  }

  /**
   Exactly when the engine fails over from terrestrial: on a degraded sample during an available pass, with the
   confirmations it asks for (this sample included, if it is a new one) and with the dwell over. Otherwise it stays.
   */
  lemma FailoverExactly(pol: Policy, s: Sample, available: bool, now: Instant, st: FlapState)
    ensures var v := AntiFlap(Terrestrial, pol, s, available, now, st).0;
            && (v == Verdict(Failover, Satellite) <==>
                  && available && Degraded(pol.triggers, s.metrics)
                  && (pol.samples <= 1 || st.consecutive + (if Counted(st, s) then 1 else 0) >= pol.samples)
                  && (pol.dwell <= 0 || st.lastSwitchback == 0 || now - st.lastSwitchback >= pol.dwell))
            && (v != Verdict(Failover, Satellite) ==> v == Verdict(Stay, Terrestrial))
  {
    if Degraded(pol.triggers, s.metrics) {
      assert !AllInvalid(pol.triggers, s.metrics);
    }
  }

  /**
   From satellite the engine leaves at once when the pass is over, whatever the sample, and only then or on a hand-back;
   from unavailable it goes wherever a path is known to work, and stays only on an all-invalid policy or with no path.
   */
  lemma OtherPathsExactly(pol: Policy, s: Sample, available: bool, now: Instant, st: FlapState)
    ensures AntiFlap(Satellite, pol, s, false, now, st).0 == Verdict(Switchback, Terrestrial)
    ensures AntiFlap(Satellite, pol, s, true, now, st).0 in {Verdict(Stay, Satellite), Verdict(Switchback, Terrestrial)}
    ensures var es, m := pol.triggers, s.metrics;
            AntiFlap(Unavailable, pol, s, available, now, st).0 ==
              if AllInvalid(es, m) then Verdict(Stay, Unavailable)
              else if available && (Degraded(es, m) || HasInert(es, m)) then Verdict(Failover, Satellite)
              else if Degraded(es, m) then Verdict(Stay, Unavailable)
              else Verdict(Switchback, Terrestrial)
  {
  }

  /** Everything the run-level proofs need to know about one evaluation. */
  lemma EvaluationFacts(path: Path, pol: Policy, s: Sample, available: bool, now: Instant, st: FlapState)
    requires pol.margin >= 0.0
    ensures var (v, st') := AntiFlap(path, pol, s, available, now, st);
            var st1 := Tick(st, pol, s, now);
            var handBack := v.decision == Switchback && path == Satellite && available;
            && st' == st1.(lastSwitchback := if handBack then now else st.lastSwitchback)
            && (v.decision == Stay ==> v.target == path)
            && (v.decision == Switchback ==> v.target == Terrestrial)
            && (v.decision == Failover <==> v.target == Satellite && path != Satellite)
            && (v.decision == Failover ==> available)
            && (!available ==> v.target != Satellite)
            && (path != Unavailable ==> v.target != Unavailable)
            && (handBack ==> ConfirmedRecovered(pol.triggers, s.metrics, pol.margin) && !Degraded(pol.triggers, s.metrics)
                             && !DelayPending(st1.recoveryAt, now, pol.delay))
            && (path == Terrestrial && v.decision == Failover ==>
                  Degraded(pol.triggers, s.metrics) && !Unconfirmed(pol, st1) && !WithinDwell(pol, st1, now))
            && (path == Terrestrial && v.decision != Failover ==> v.decision == Stay)
            && (path == Satellite && v.target == Terrestrial ==> v.decision == Switchback)
  {
    var (v, st') := AntiFlap(path, pol, s, available, now, st);
    var st1 := Tick(st, pol, s, now);
    if v.decision == Switchback && path == Satellite && available {
      HandBackNeedsConfirmedRecovery(pol, s.metrics, st1.recoveryAt, now);
    }
  }

  /** The two verdicts on one trigger overlap: on the threshold itself without a margin, or where the clamp lifts the threshold. */
  predicate Ambiguous(t: Trigger, m: Metrics, margin: real)
    requires Known(t, m)
  {
    var actual := Reading(t.metric, m).value;
    || (margin == 0.0 && (t.op == Le || t.op == Ge) && actual == t.value)
    || (t.op == Gt && t.value < actual <= 0.0)
    || (t.op == Ge && t.value <= actual <= 0.0)
  }

  lemma FiresAndRecoveredExactly(t: Trigger, m: Metrics, margin: real)
    requires Known(t, m) && margin >= 0.0
    ensures Fires(t, m) && RecoveredPast(t, m, margin) <==> Ambiguous(t, m, margin)
    ensures margin == 0.0 && !Fires(t, m) ==> RecoveredPast(t, m, margin)
  {
  }

  /** A sample that is confirmed recovered counts as degraded all the same exactly when some trigger is ambiguous on it. */
  lemma DegradedAndRecoveredExactly(es: seq<Expr>, m: Metrics, margin: real)
    requires margin >= 0.0 && ConfirmedRecovered(es, m, margin)
    ensures Degraded(es, m) <==> exists e | e in es :: Live(e, m) && Ambiguous(e.trigger, m, margin)
  {
    forall e | e in es && Live(e, m) ensures Fires(e.trigger, m) <==> Ambiguous(e.trigger, m, margin) {
      FiresAndRecoveredExactly(e.trigger, m, margin);
    }
  }

  /** Without a margin, confirmed recovery is: nothing inert, something parsed, and every trigger that fires is ambiguous. */
  lemma RecoveredWithoutMarginExactly(es: seq<Expr>, m: Metrics)
    ensures ConfirmedRecovered(es, m, 0.0) <==>
      && !HasInert(es, m) && (es == [] || exists e | e in es :: e.Parsed?)
      && forall e | e in es :: Live(e, m) && Fires(e.trigger, m) ==> Ambiguous(e.trigger, m, 0.0)
  {
    forall e | e in es && Live(e, m) ensures RecoveredPast(e.trigger, m, 0.0) <==> !Fires(e.trigger, m) || Ambiguous(e.trigger, m, 0.0) {
      FiresAndRecoveredExactly(e.trigger, m, 0.0);
    }
    if !HasInert(es, m) {
      forall e | e in es && e.Parsed? ensures Live(e, m) { assert !Inert(e, m); }
    }
  }

  /**
   "With margin <= 0 this reduces to !terrestrialDegraded" holds on a sample exactly when: if it is degraded, some
   metric is unknown or some firing trigger is unambiguous; if it is not, nothing is inert and something parsed.
   */
  lemma ReducesToNotDegradedExactly(es: seq<Expr>, m: Metrics)
    ensures (ConfirmedRecovered(es, m, 0.0) <==> !Degraded(es, m)) <==>
      if Degraded(es, m) then HasInert(es, m) || exists e | e in es :: Live(e, m) && Fires(e.trigger, m) && !Ambiguous(e.trigger, m, 0.0)
      else !HasInert(es, m) && (es == [] || exists e | e in es :: e.Parsed?)
  {
    RecoveredWithoutMarginExactly(es, m);
  }

  /** It fails on an unknown metric, which is neither degraded nor recovered ... */
  lemma InertIsNeither()
    ensures var es := [Parsed(Trigger(Rsrp, Lt, -120.0))]; var m := Metrics(None, None, None);
      !Degraded(es, m) && !ConfirmedRecovered(es, m, 0.0)
  {
    var es := [Parsed(Trigger(Rsrp, Lt, -120.0))];
    assert es[0] in es;
  }

  /** ... and on a reading that stands on an inclusive threshold, which is both. */
  lemma ThresholdIsBoth()
    ensures var es := [Parsed(Trigger(Rsrp, Le, -120.0))]; var m := Metrics(Some(-120.0), None, None);
      Degraded(es, m) && ConfirmedRecovered(es, m, 0.0)
  {
    var es := [Parsed(Trigger(Rsrp, Le, -120.0))];
    assert es[0] in es;
  }

  /** The all-invalid verdict does not need every trigger to be invalid: an inert one beside a malformed one is enough. */
  lemma AllInvalidWithAnInertTrigger()
    ensures AllInvalid([Malformed, Parsed(Trigger(Rsrp, Lt, -120.0))], Metrics(None, None, None))
    ensures !AllInvalid([Parsed(Trigger(Rsrp, Lt, -120.0))], Metrics(None, None, None))
  {
    assert [Malformed, Parsed(Trigger(Rsrp, Lt, -120.0))][0] == Malformed;
  }

  /** Between a reading that fires and one that no longer does and has recovered, the metric moves the margin ... */
  ghost predicate GapHolds(t: Trigger, margin: real) {
    forall m1, m2 :: Known(t, m1) && Known(t, m2) && Fires(t, m1) && !Fires(t, m2) && RecoveredPast(t, m2, margin)
      ==> Moved(t, m1, m2) >= margin
  }

  function Moved(t: Trigger, m1: Metrics, m2: Metrics): real
    requires Known(t, m1) && Known(t, m2)
  {
    var d := Reading(t.metric, m1).value - Reading(t.metric, m2).value;
    if d < 0.0 then -d else d
  }

  function With(k: Metric, x: real): Metrics {
    Metrics(if k == Rsrp then Some(x) else None, if k == Latency then Some(x) else None,
            if k == PacketLoss then Some(x) else None)
  }

  /** ... for every pair of readings exactly when the clamp at zero does not bite. */
  lemma GapExactlyWhenUnclamped(t: Trigger, margin: real)
    requires margin > 0.0
    ensures GapHolds(t, margin) <==> LowerBound(t) || t.value >= margin
  {
    if !LowerBound(t) && t.value < margin {
      var fired := if t.value > 0.0 then (t.value + margin) / 2.0 else t.value + margin / 4.0;
      var clear := if t.value > 0.0 then 0.0 else t.value - margin / 4.0;
      var m1, m2 := With(t.metric, fired), With(t.metric, clear);
      assert Fires(t, m1) && !Fires(t, m2) && RecoveredPast(t, m2, margin) && Moved(t, m1, m2) < margin;
    }
  }
}

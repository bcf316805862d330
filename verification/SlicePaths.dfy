/** Where the traffic goes over whole runs, what a sustained degradation achieves, and two runs that surprise. */
module SlicePaths {
  import opened Prelude
  import opened Failover
  import opened SliceReconciler
  import opened SliceRuns
  import opened SliceDwell
  import opened SliceStreaks

  // ---- paths ----------------------------------------------------------------------------------

  /** The orbital signal a reconcile saw. */
  function Signal(r: Record): Contact
    requires !r.Wiped?
  {
    if r.Evaluated? then Readable(r.available) else r.contact
  }

  predicate PathRules(r: Record) {
    r.Wiped? || (
      && r.from != Unavailable && r.verdict.target != Unavailable
      && (r.from != Satellite && r.verdict.target == Satellite ==> Signal(r) == Readable(true))
      && (Signal(r) == Readable(false) ==> r.verdict.target != Satellite)
      && (Signal(r) == Unreadable ==> r.verdict.target == r.from)
      && (r.from != Satellite && r.verdict.target == Satellite ==> r.Evaluated? && r.verdict.decision == Failover)
      && (r.Held? ==> r.verdict == if r.contact == Readable(false) && r.from == Satellite then Verdict(Switchback, Terrestrial) else Verdict(Stay, r.from)))
  }

  ghost predicate Tally(w: World)
    requires w.history != []
  {
    && (forall r | r in w.records :: PathRules(r))
    && Newest(w).status.failovers == Failovers(w.records, Newest(w).uid)
    && (forall r | r in w.records && r.Evaluated? :: r.uid <= Newest(w).uid)
  }

  /** Durably recorded failovers of one object. */
  function Failovers(rs: seq<Record>, uid: nat): nat {
    if rs == [] then 0
    else
      var r := rs[|rs| - 1];
      Failovers(rs[..|rs| - 1], uid) + if r.Evaluated? && r.durable && r.uid == uid && r.verdict.decision == Failover then 1 else 0
  }

  lemma {:induction false} NoFailoversYet(rs: seq<Record>, uid: nat)
    requires forall r | r in rs && r.Evaluated? :: r.uid < uid
    ensures Failovers(rs, uid) == 0
  {
    if rs != [] { NoFailoversYet(rs[..|rs| - 1], uid); }
  }

  /** One reconcile: its record obeys the orbit, and a durable write counts a failover exactly when it decides one. */
  lemma ReconcileTally(w: World, a: Action)
    requires WellFormed(w) && Enabled(w, a) && a.Reconcile?
    ensures var r := RecordOf(w, a);
            && PathRules(r)
            && (r.Evaluated? ==> r.uid <= Newest(w).uid)
            && PlanOf(w, a).status.failovers == w.history[a.readAt].status.failovers
                                                + (if r.Evaluated? && r.verdict.decision == Failover then 1 else 0)
  {
    var ns := w.history[a.readAt];
    var r := RecordOf(w, a);
    assert NoLaterThan(ns, w.clock);
    assert Ordered(ns, Newest(w));
    if r.Evaluated? { EvaluationFacts(r.from, ns.policy, r.sample, r.available, r.at, r.before); }
  }

  lemma StepTally(w: World, a: Action)
    requires WellFormed(w) && Enabled(w, a) && Tally(w)
    ensures Tally(StepW(w, a))
  {
    var w' := StepW(w, a);
    if a.Reconcile? {
      ReconcileTally(w, a);
      var r := RecordOf(w, a);
      assert w'.records == w.records + [r] && w'.records[..|w.records|] == w.records;
      assert r.durable ==> Newest(w) == w.history[a.readAt];
    } else if a.Wipe? {
      assert w'.records[..|w.records|] == w.records;
    } else if a.Recreate? {
      NoFailoversYet(w.records, Newest(w').uid);
    }
  }

  lemma {:induction false} RunTally(w: World, trace: seq<Action>)
    requires WellFormed(w) && Tally(w) && Legal(w, trace)
    ensures WellFormed(Run(w, trace)) && Tally(Run(w, trace))
    decreases |trace|
  {
    if trace != [] {
      StepWellFormed(w, trace[0]);
      StepTally(w, trace[0]);
      RunTally(Step(w, trace[0]), trace[1..]);
    }
  }

  /**
   In every run: no decision leaves {terrestrial, satellite}; satellite is entered only on a pass that is
   known to be active, and only by a failover that was decided on a sample; a pass that is known to be over never leaves
   the decision on satellite; an unknown pass leaves the path alone; without a usable sample the only move is off a
   satellite whose pass is over; and status.failoverCount counts exactly the failovers that became durable.
   */
  lemma PathsObeyTheOrbit(policy: Policy, trace: seq<Action>)
    requires policy.margin >= 0.0 && Legal(Init(policy), trace)
    ensures var w := Run(Init(policy), trace);
            w.history != [] && Tally(w)
  {
    InitWellFormed(policy);
    RunTally(Init(policy), trace);
  }

  /** A reconcile that read the newest version and whose write, if any, was applied leaves that decision in force. */
  lemma DecisionTakesEffect(w: World, a: Action)
    requires WellFormed(w) && Enabled(w, a) && a.Reconcile? && a.readAt == |w.history| - 1 && a.write != Rejected
    ensures var w' := StepW(w, a);
            && Newest(w').status.path == Some(RecordOf(w, a).verdict.target)
            && (a.contact == Readable(false) ==> Newest(w').status.path != Some(Satellite))
  {
    var ns := w.history[a.readAt];
    assert NoLaterThan(ns, w.clock);
    var r := RecordOf(w, a);
    if r.Evaluated? { EvaluationFacts(r.from, ns.policy, r.sample, r.available, r.at, r.before); }
  }

  // ---- the dead-band over a run ---------------------------------------------------------------

  predicate Unclamped(pol: Policy) {
    forall e | e in pol.triggers && e.Parsed? :: LowerBound(e.trigger) || e.trigger.value >= pol.margin
  }

  /** Every evaluation record carries the engine's own verdict on what it saw. */
  ghost predicate Honest(rs: seq<Record>) {
    forall r | r in rs && r.Evaluated? ::
      r.policy.margin >= 0.0 && r.verdict == AntiFlap(r.from, r.policy, r.sample, r.available, r.at, r.before).0
  }

  lemma {:induction false} RunHonest(w: World, trace: seq<Action>)
    requires WellFormed(w) && Honest(w.records) && Legal(w, trace)
    ensures Honest(Run(w, trace).records)
    decreases |trace|
  {
    if trace != [] {
      var a := trace[0];
      StepWellFormed(w, a);
      if a.Reconcile? { assert NoLaterThan(w.history[a.readAt], w.clock); }
      RunHonest(Step(w, a), trace[1..]);
    }
  }

  /**
   For a policy with a positive margin that no upper-bound threshold undercuts, between any failover and any
   hand-back some trigger's metric has moved by at least the margin, in every run.
   */
  lemma MarginSeparatesFailoverAndHandBack(policy: Policy, trace: seq<Action>, i: nat, j: nat) returns (t: Trigger)
    requires policy.margin >= 0.0 && Legal(Init(policy), trace)
    requires var rs := Run(Init(policy), trace).records;
             i < |rs| && j < |rs| && FailedOver(rs[i]) && HandBack(rs[j]) && rs[i].policy == rs[j].policy
             && rs[i].policy.margin > 0.0 && Unclamped(rs[i].policy)
    ensures var rs := Run(Init(policy), trace).records;
            && Parsed(t) in rs[i].policy.triggers
            && Known(t, rs[i].sample.metrics) && Known(t, rs[j].sample.metrics)
            && Moved(t, rs[i].sample.metrics, rs[j].sample.metrics) >= rs[i].policy.margin
  {
    InitWellFormed(policy);
    RunHonest(Init(policy), trace);
    var rs := Run(Init(policy), trace).records;
    var f, h := rs[i], rs[j];
    EvaluationFacts(f.from, f.policy, f.sample, f.available, f.at, f.before);
    EvaluationFacts(h.from, h.policy, h.sample, h.available, h.at, h.before);
    var e :| e in f.policy.triggers && Live(e, f.sample.metrics) && Fires(e.trigger, f.sample.metrics);
    t := e.trigger;
    GapExactlyWhenUnclamped(t, f.policy.margin);
    assert Live(e, h.sample.metrics) && !Fires(t, h.sample.metrics);
  }

  // ---- a sustained degradation fails over -----------------------------------------------------

  /** A fresh degraded sample, evaluated on the newest version during a known pass, whose write goes through. */
  predicate FreshDegradation(w: World, a: Action) {
    && Enabled(w, a) && a.Reconcile? && a.readAt == |w.history| - 1 && a.write == Acked
    && a.contact == Readable(true) && a.sample != None
    && Degraded(Newest(w).policy.triggers, a.sample.value.metrics)
    && Counted(Merged(w.memory, Newest(w), a.now), a.sample.value)
  }

  predicate Sustained(w: World, trace: seq<Action>)
    decreases |trace|
  {
    trace == [] || (FreshDegradation(w, trace[0]) && Sustained(Step(w, trace[0]), trace[1..]))
  }

  lemma {:induction false} SustainedIsLegal(w: World, trace: seq<Action>)
    requires Sustained(w, trace)
    ensures Legal(w, trace)
    decreases |trace|
  {
    if trace != [] { SustainedIsLegal(Step(w, trace[0]), trace[1..]); }
  }

  /** Confirmations the engine would start from if it read the newest version now. */
  function Confirmations(w: World): nat
    requires w.history != []
  {
    StateOf(LoadEntry(w.memory, Newest(w).uid, Newest(w).generation)).consecutive
  }

  ghost predicate DwellOver(w: World, now: Instant)
    requires w.history != []
  {
    forall r | r in w.records && HandBack(r) && r.uid == Newest(w).uid :: now - r.at >= Newest(w).policy.dwell
  }

  predicate OnSatellite(w: World)
    requires w.history != []
  {
    Newest(w).status.path == Some(Satellite)
  }

  lemma DwellClears(w: World, pol: Policy, st: FlapState, now: Instant)
    requires w.history != [] && DwellOver(w, now) && pol == Newest(w).policy
    requires st.lastSwitchback != 0 ==> Witnessed(w.records, Newest(w).uid, st.lastSwitchback)
    ensures !WithinDwell(pol, st, now)
  {
    if st.lastSwitchback != 0 {
      var h :| h in w.records && HandBack(h) && h.uid == Newest(w).uid && (st.lastSwitchback == h.at || st.lastSwitchback == FloorSecond(h.at));
      assert now - h.at >= pol.dwell;
    }
  }

  lemma FreshDegradationProgress(w: World, a: Action)
    requires WellFormed(w) && Authentic(w) && FreshDegradation(w, a)
    ensures var w' := StepW(w, a);
            && Newest(w').policy == Newest(w).policy && Newest(w').uid == Newest(w).uid
            && w'.records == w.records + [RecordOf(w, a)] && !HandBack(RecordOf(w, a))
            && (OnSatellite(w) ==> OnSatellite(w'))
            && (OnSatellite(w') || Confirmations(w') == Confirmations(w) + 1)
            && (Confirmations(w) + 1 >= Newest(w).policy.samples && DwellOver(w, a.now) ==> OnSatellite(w'))
  {
    var ns := Newest(w);
    var r := RecordOf(w, a);
    assert NoLaterThan(ns, w.clock);
    EvaluationFacts(r.from, ns.policy, r.sample, r.available, r.at, r.before);
    DegradedOnAvailablePass(r.from, ns.policy, r.sample, r.at, r.before);
    MergedAuthentic(w, a);
    if DwellOver(w, a.now) {
      DwellClears(w, ns.policy, r.before, a.now);
    }
  }

  lemma DegradedOnAvailablePass(path: Path, pol: Policy, s: Sample, now: Instant, st: FlapState)
    requires pol.margin >= 0.0 && path != Unavailable && Degraded(pol.triggers, s.metrics) && Counted(st, s)
    ensures var (v, st') := AntiFlap(path, pol, s, true, now, st);
            && st'.consecutive == st.consecutive + 1
            && (path == Satellite ==> v.target == Satellite)
            && (st.consecutive + 1 >= pol.samples && !WithinDwell(pol, st, now) ==> v.target == Satellite)
  {
    var e :| e in pol.triggers && Live(e, s.metrics) && Fires(e.trigger, s.metrics);
    assert !AllInvalid(pol.triggers, s.metrics);
  }

  lemma DwellStaysOver(w: World, w': World, r: Record, now: Instant)
    requires w.history != [] && w'.history != [] && w'.records == w.records + [r] && !HandBack(r)
    requires Newest(w').uid == Newest(w).uid && Newest(w').policy == Newest(w).policy && DwellOver(w, now)
    ensures DwellOver(w', now)
  {
  }

  lemma {:induction false} SustainedReaches(w: World, trace: seq<Action>)
    requires WellFormed(w) && Authentic(w) && Sustained(w, trace) && trace != []
    requires OnSatellite(w) || Confirmations(w) + |trace| >= Newest(w).policy.samples
    requires trace[|trace| - 1].Reconcile? && DwellOver(w, trace[|trace| - 1].now)
    ensures Legal(w, trace) && Run(w, trace).history != [] && OnSatellite(Run(w, trace))
    decreases |trace|
  {
    SustainedIsLegal(w, trace);
    var a := trace[0];
    var w' := StepW(w, a);
    FreshDegradationProgress(w, a);
    StepWellFormed(w, a);
    StepAuthentic(w, a);
    if |trace| > 1 {
      assert trace[1..][|trace| - 2] == trace[|trace| - 1];
      DwellStaysOver(w, w', RecordOf(w, a), trace[|trace| - 1].now);
      SustainedReaches(w', trace[1..]);
    } else {
      assert Run(w', trace[1..]) == w';
    }
  }

  /**
   From any reachable world, confirmationSamples fresh degraded samples in a row during a known pass have the
   slice on satellite by the last of them, once every recorded hand-back is minTerrestrialDwell old.
   */
  lemma SustainedDegradationFailsOver(policy: Policy, past: seq<Action>, trace: seq<Action>)
    requires policy.margin >= 0.0 && Legal(Init(policy), past)
    requires var w := Run(Init(policy), past);
             && w.history != [] && Sustained(w, trace) && trace != []
             && |trace| >= Newest(w).policy.samples && trace[|trace| - 1].Reconcile? && DwellOver(w, trace[|trace| - 1].now)
    ensures var w := Run(Init(policy), past);
            Legal(w, trace) && Run(w, trace).history != [] && OnSatellite(Run(w, trace))
  {
    InitWellFormed(policy);
    RunKeeps(Init(policy), past);
    SustainedReaches(Run(Init(policy), past), trace);
  }

  // ---- a sustained recovery hands back --------------------------------------------------------

  /** A fresh sample with every trigger known and past the margin, evaluated on the newest version, whose write goes through. */
  predicate FreshRecovery(w: World, a: Action) {
    && Enabled(w, a) && a.Reconcile? && a.readAt == |w.history| - 1 && a.write == Acked
    && a.contact == Readable(true) && a.sample != None
    && ConfirmedRecovered(Newest(w).policy.triggers, a.sample.value.metrics, Newest(w).policy.margin)
    && !Degraded(Newest(w).policy.triggers, a.sample.value.metrics)
    && Counted(Merged(w.memory, Newest(w), a.now), a.sample.value)
  }

  predicate Recovering(w: World, trace: seq<Action>)
    decreases |trace|
  {
    trace == [] || (FreshRecovery(w, trace[0]) && Recovering(Step(w, trace[0]), trace[1..]))
  }

  lemma {:induction false} RecoveringIsLegal(w: World, trace: seq<Action>)
    requires Recovering(w, trace)
    ensures Legal(w, trace)
    decreases |trace|
  {
    if trace != [] { RecoveringIsLegal(Step(w, trace[0]), trace[1..]); }
  }

  /** The recovery clock the engine would start from if it read the newest version now. */
  function RecoveryClock(w: World): Instant
    requires w.history != []
  {
    StateOf(LoadEntry(w.memory, Newest(w).uid, Newest(w).generation)).recoveryAt
  }

  lemma FreshRecoveryProgress(w: World, a: Action)
    requires WellFormed(w) && FreshRecovery(w, a)
    ensures var w' := StepW(w, a); var clock := if RecoveryClock(w) == 0 then a.now else RecoveryClock(w);
            && Newest(w').policy == Newest(w).policy && RecoveryClock(w') == clock
            && (!OnSatellite(w) || a.now - clock >= Newest(w).policy.delay ==> !OnSatellite(w'))
  {
    var ns := Newest(w);
    var r := RecordOf(w, a);
    assert NoLaterThan(ns, w.clock);
    EvaluationFacts(r.from, ns.policy, r.sample, r.available, r.at, r.before);
    HandBackExactly(ns.policy, r.sample, r.at, r.before);
    if r.from == Terrestrial {
      FailoverExactly(ns.policy, r.sample, r.available, r.at, r.before);
    }
  }

  lemma {:induction false} RecoveringReaches(w: World, trace: seq<Action>, since: Instant)
    requires WellFormed(w) && Recovering(w, trace) && trace != []
    requires !OnSatellite(w) || (trace[0].Reconcile? && (if RecoveryClock(w) == 0 then trace[0].now else RecoveryClock(w)) <= since)
    requires trace[|trace| - 1].Reconcile? && trace[|trace| - 1].now - since >= Newest(w).policy.delay
    ensures Legal(w, trace) && Run(w, trace).history != [] && !OnSatellite(Run(w, trace))
    decreases |trace|
  {
    RecoveringIsLegal(w, trace);
    var a := trace[0];
    var w' := StepW(w, a);
    FreshRecoveryProgress(w, a);
    StepWellFormed(w, a);
    if |trace| > 1 {
      assert trace[1..][|trace| - 2] == trace[|trace| - 1] && FreshRecovery(w', trace[1..][0]);
      RecoveringReaches(w', trace[1..], since);
    } else {
      assert Run(w', trace[1..]) == w';
    }
  }

  /**
   From any reachable world, fresh samples in a row that are all confirmed recovered have the slice off the satellite by the
   first of them that comes switchbackDelay after the first, though its pass goes on.
   */
  lemma SustainedRecoveryHandsBack(policy: Policy, past: seq<Action>, trace: seq<Action>)
    requires policy.margin >= 0.0 && Legal(Init(policy), past)
    requires var w := Run(Init(policy), past);
             && w.history != [] && Recovering(w, trace) && trace != [] && trace[0].Reconcile? && trace[|trace| - 1].Reconcile?
             && trace[|trace| - 1].now - trace[0].now >= Newest(w).policy.delay
    ensures var w := Run(Init(policy), past);
            Legal(w, trace) && Run(w, trace).history != [] && !OnSatellite(Run(w, trace))
  {
    InitWellFormed(policy);
    RunKeeps(Init(policy), past);
    RecoveringReaches(Run(Init(policy), past), trace, trace[0].now);
  }

  // ---- two runs -------------------------------------------------------------------------------

  const LOW_SIGNAL := Policy([Parsed(Trigger(Rsrp, Lt, -120.0))], 0.0, 60 * SECOND, 0, 0)

  function RsrpAt(x: real, seconds: nat): Sample {
    Sample(Metrics(Some(x), None, None), seconds * SECOND)
  }

  /** A reconcile during a known pass; a rejected write is one forced by a changed condition message. */
  function Observe(version: nat, seconds: nat, sample: Option<Sample>, write: WriteOutcome): Action {
    Reconcile(version, seconds * SECOND, sample, Readable(true), write == Rejected, write)
  }

  /** LOW_SIGNAL's slice after its first failover. */
  function Aloft(st: FlapState, clock: Instant, rs: seq<Record>): World {
    World([Slice(0, 1, LOW_SIGNAL, FRESH), Slice(0, 1, LOW_SIGNAL, Status(Some(Satellite), None, 1))], Some(Entry(0, 1, st)), clock, rs)
  }

  lemma LowSignalJudges(x: real, seconds: nat)
    ensures var m := RsrpAt(x, seconds).metrics;
            && (Degraded(LOW_SIGNAL.triggers, m) <==> x < -120.0)
            && (ConfirmedRecovered(LOW_SIGNAL.triggers, m, 0.0) <==> x >= -120.0)
            && !HasInert(LOW_SIGNAL.triggers, m) && !AllInvalid(LOW_SIGNAL.triggers, m)
  {
    assert LOW_SIGNAL.triggers[0] in LOW_SIGNAL.triggers;
  }

  lemma FirstFailover()
    ensures var a := Observe(0, 10, Some(RsrpAt(-130.0, 9)), Acked);
            Enabled(Init(LOW_SIGNAL), a)
            && Step(Init(LOW_SIGNAL), a) == Aloft(FlapState(1, 0, 0, 9 * SECOND), 10 * SECOND, [RecordOf(Init(LOW_SIGNAL), a)])
            && !HandBack(RecordOf(Init(LOW_SIGNAL), a)) && Bad(RecordOf(Init(LOW_SIGNAL), a))
  {
    LowSignalJudges(-130.0, 9);
  }

  /** What an observation on satellite records, and what it leaves behind if it is not a hand-back. */
  lemma WhileAloft(st: FlapState, clock: Instant, rs: seq<Record>, x: real, at: nat, seconds: nat, write: WriteOutcome)
    requires clock <= seconds * SECOND && 1 <= seconds && st.lastSwitchback == 0 && write != AckLost
    ensures var w := Aloft(st, clock, rs);
            var s := RsrpAt(x, at);
            var a := Observe(1, seconds, Some(s), write);
            var v := AntiFlap(Satellite, LOW_SIGNAL, s, true, a.now, st).0;
            && Enabled(w, a)
            && RecordOf(w, a) == Evaluated(a.now, 0, 1, LOW_SIGNAL, s, true, Satellite, st, v, write == Acked,
                                           v.decision == Switchback && write == Acked)
            && Step(w, a).records == rs + [RecordOf(w, a)]
            && (v.decision != Switchback ==>
                  Step(w, a) == Aloft(if write == Rejected then st else Tick(st, LOW_SIGNAL, s, a.now), a.now, rs + [RecordOf(w, a)]))
  {
    EvaluationFacts(Satellite, LOW_SIGNAL, RsrpAt(x, at), true, seconds * SECOND, st);
  }

  lemma GapAloft(st: FlapState, clock: Instant, rs: seq<Record>, seconds: nat)
    requires clock <= seconds * SECOND && 1 <= seconds
    ensures var w := Aloft(st, clock, rs);
            var a := Observe(1, seconds, None, Acked);
            && Enabled(w, a) && RecordOf(w, a).Held?
            && Step(w, a) == Aloft(st.(consecutive := 0, recoveryAt := 0), a.now, rs + [RecordOf(w, a)])
  {
  }

  lemma RunCons(w: World, a: Action, rest: seq<Action>)
    requires Enabled(w, a) && Legal(Step(w, a), rest)
    ensures Legal(w, [a] + rest) && Run(w, [a] + rest) == Run(Step(w, a), rest)
  {
    assert ([a] + rest)[1..] == rest;
  }

  lemma RunOfFour(w0: World, w1: World, w2: World, w3: World, w4: World, a0: Action, a1: Action, a2: Action, a3: Action)
    requires Enabled(w0, a0) && Step(w0, a0) == w1
    requires Enabled(w1, a1) && Step(w1, a1) == w2
    requires Enabled(w2, a2) && Step(w2, a2) == w3
    requires Enabled(w3, a3) && Step(w3, a3) == w4
    ensures Legal(w0, [a0, a1, a2, a3]) && Run(w0, [a0, a1, a2, a3]) == w4
  {
    RunCons(w3, a3, []);
    RunCons(w2, a2, [a3] + []);
    RunCons(w1, a1, [a2] + ([a3] + []));
    RunCons(w0, a0, [a1] + ([a2] + ([a3] + [])));
    assert [a0, a1, a2, a3] == [a0] + ([a1] + ([a2] + ([a3] + [])));
  }

  /**
   resetRecoveryStreak clears the recovery clock but keeps the cursor. A healthy sample replayed after the gap
   is therefore not counted, no clock starts, and a clock that is not running passes the delay check: the slice
   hands back at once, 20 s into a 60 s delay and right after an unreliable reconcile.
   */
  lemma ReplayAfterGapSkipsTheDelay() returns (trace: seq<Action>)
    ensures Legal(Init(LOW_SIGNAL), trace)
    ensures var rs := Run(Init(LOW_SIGNAL), trace).records;
            && |rs| == 4 && rs[2].Held? && HandBack(rs[3]) && !Waited(rs[3])
            && rs[1].Evaluated? && Healthy(rs[1]) && rs[3].at - rs[1].at < LOW_SIGNAL.delay
            && !RecoveryBehind(rs, 3)
  {
    var a0, a1 := Observe(0, 10, Some(RsrpAt(-130.0, 9)), Acked), Observe(1, 20, Some(RsrpAt(-100.0, 19)), Acked);
    var a2, a3 := Observe(1, 30, None, Acked), Observe(1, 40, Some(RsrpAt(-100.0, 19)), Acked);
    trace := [a0, a1, a2, a3];
    LowSignalJudges(-100.0, 19);
    FirstFailover();
    var rs1 := [RecordOf(Init(LOW_SIGNAL), a0)];
    var st1, st2, st3 := FlapState(1, 0, 0, 9 * SECOND), FlapState(0, 20 * SECOND, 0, 19 * SECOND), FlapState(0, 0, 0, 19 * SECOND);
    HandBackExactly(LOW_SIGNAL, RsrpAt(-100.0, 19), 20 * SECOND, st1);
    WhileAloft(st1, 10 * SECOND, rs1, -100.0, 19, 20, Acked);
    var rs2 := rs1 + [RecordOf(Aloft(st1, 10 * SECOND, rs1), a1)];
    GapAloft(st2, 20 * SECOND, rs2, 30);
    var rs3 := rs2 + [RecordOf(Aloft(st2, 20 * SECOND, rs2), a2)];
    HandBackExactly(LOW_SIGNAL, RsrpAt(-100.0, 19), 40 * SECOND, st3);
    WhileAloft(st3, 30 * SECOND, rs3, -100.0, 19, 40, Acked);
    var w3 := Aloft(st3, 30 * SECOND, rs3);
    RunOfFour(Init(LOW_SIGNAL), Aloft(st1, 10 * SECOND, rs1), Aloft(st2, 20 * SECOND, rs2), w3, Step(w3, a3), a0, a1, a2, a3);
    var rs := Run(Init(LOW_SIGNAL), trace).records;
    assert rs == rs3 + [RecordOf(Aloft(st3, 30 * SECOND, rs3), a3)];
    assert !SamePolicy(rs[2], 0, 1, LOW_SIGNAL);
    forall k: nat | Recovery(rs, k, 4, 0, 1, LOW_SIGNAL) ensures rs[3].at - rs[k].at < LOW_SIGNAL.delay {
      assert k == 3;
    }
  }

  /**
   Exactly when a degraded sample ends a recovery: a counted one, read while the recovery clock runs, stops the clock
   in memory if and only if its evaluation is committed, that is, if its status write was acknowledged or not needed.
   */
  lemma DegradedSampleStopsTheClockExactly(w: World, a: Action)
    requires WellFormed(w) && Enabled(w, a) && a.Reconcile? && RecordOf(w, a).Evaluated?
    requires Bad(RecordOf(w, a)) && Advances(RecordOf(w, a)) && RecordOf(w, a).before.recoveryAt != 0
    ensures StateOf(Step(w, a).memory).recoveryAt == 0 <==> RecordOf(w, a).committed
    ensures RecordOf(w, a).committed <==> !Writes(w.history[a.readAt], PlanOf(w, a), a.other) || Effective(w, a) == Acked
  {
    var ns := w.history[a.readAt];
    var r := RecordOf(w, a);
    assert NoLaterThan(ns, w.clock);
    EvaluationFacts(r.from, ns.policy, r.sample, r.available, r.at, r.before);
  }

  /**
   The memory is left alone when the status write is rejected, and that also forgets bad news: a degraded sample
   in the middle of the delay, whose write lost a conflict, does not restart the recovery clock.
   */
  lemma RejectedWriteHidesADegradedSample() returns (trace: seq<Action>)
    ensures Legal(Init(LOW_SIGNAL), trace)
    ensures var rs := Run(Init(LOW_SIGNAL), trace).records;
            && |rs| == 4 && HandBack(rs[3]) && rs[2].Evaluated? && Bad(rs[2]) && !rs[2].committed
            && rs[3].at - rs[2].at < LOW_SIGNAL.delay
  {
    var a0, a1 := Observe(0, 10, Some(RsrpAt(-130.0, 9)), Acked), Observe(1, 20, Some(RsrpAt(-100.0, 19)), Acked);
    var a2, a3 := Observe(1, 50, Some(RsrpAt(-130.0, 49)), Rejected), Observe(1, 80, Some(RsrpAt(-100.0, 79)), Acked);
    trace := [a0, a1, a2, a3];
    LowSignalJudges(-100.0, 19);
    LowSignalJudges(-100.0, 79);
    LowSignalJudges(-130.0, 49);
    FirstFailover();
    var rs1 := [RecordOf(Init(LOW_SIGNAL), a0)];
    var st1, st2 := FlapState(1, 0, 0, 9 * SECOND), FlapState(0, 20 * SECOND, 0, 19 * SECOND);
    HandBackExactly(LOW_SIGNAL, RsrpAt(-100.0, 19), 20 * SECOND, st1);
    WhileAloft(st1, 10 * SECOND, rs1, -100.0, 19, 20, Acked);
    var rs2 := rs1 + [RecordOf(Aloft(st1, 10 * SECOND, rs1), a1)];
    HandBackExactly(LOW_SIGNAL, RsrpAt(-130.0, 49), 50 * SECOND, st2);
    WhileAloft(st2, 20 * SECOND, rs2, -130.0, 49, 50, Rejected);
    var rs3 := rs2 + [RecordOf(Aloft(st2, 20 * SECOND, rs2), a2)];
    HandBackExactly(LOW_SIGNAL, RsrpAt(-100.0, 79), 80 * SECOND, st2);
    WhileAloft(st2, 50 * SECOND, rs3, -100.0, 79, 80, Acked);
    var w3 := Aloft(st2, 50 * SECOND, rs3);
    RunOfFour(Init(LOW_SIGNAL), Aloft(st1, 10 * SECOND, rs1), Aloft(st2, 20 * SECOND, rs2), w3, Step(w3, a3), a0, a1, a2, a3);
    assert Run(Init(LOW_SIGNAL), trace).records == rs3 + [RecordOf(Aloft(st2, 50 * SECOND, rs3), a3)];
  }
}

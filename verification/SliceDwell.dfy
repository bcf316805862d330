/** The min-dwell clock over whole runs: it survives restarts, lost writes and stale reads, and it is never invented. */
module SliceDwell {
  import opened Prelude
  import opened Failover
  import opened SliceReconciler
  import opened SliceRuns

  /** A durably recorded quality-driven switchback: off a satellite that was still available. */
  predicate HandBack(r: Record) {
    r.Evaluated? && r.durable && r.from == Satellite && r.available && r.verdict.decision == Switchback
  }

  /** A durably recorded terrestrial-to-satellite failover. */
  predicate FailedOver(r: Record) {
    r.Evaluated? && r.durable && r.from == Terrestrial && r.verdict.decision == Failover
  }

  ghost predicate DwellRespected(rs: seq<Record>) {
    forall i, j | 0 <= i < j < |rs| && HandBack(rs[i]) && FailedOver(rs[j]) && rs[i].uid == rs[j].uid ::
      rs[j].at >= FloorSecond(rs[i].at) + rs[j].policy.dwell
  }

  /** The newest status remembers every hand-back of its own UID, to the second. */
  ghost predicate Remembered(w: World)
    requires w.history != []
  {
    forall r | r in w.records && HandBack(r) ::
      && r.uid <= Newest(w).uid && SECOND <= r.at <= w.clock
      && (r.uid == Newest(w).uid ==> Newest(w).status.lastSwitchback != None
                                     && Newest(w).status.lastSwitchback.value >= FloorSecond(r.at))
  }

  ghost predicate Witnessed(rs: seq<Record>, uid: nat, t: Instant) {
    exists r | r in rs :: HandBack(r) && r.uid == uid && (t == r.at || t == FloorSecond(r.at))
  }

  ghost predicate WitnessedSecond(rs: seq<Record>, uid: nat, t: Instant) {
    exists r | r in rs :: HandBack(r) && r.uid == uid && t == FloorSecond(r.at)
  }

  /** Every clock, in any version of the status or in memory, is the time of a hand-back that is durable. */
  ghost predicate Authentic(w: World) {
    && (forall s | s in w.history && s.status.lastSwitchback != None ::
          WitnessedSecond(w.records, s.uid, s.status.lastSwitchback.value))
    && (w.memory != None && w.memory.value.state.lastSwitchback != 0 ==>
          Witnessed(w.records, w.memory.value.uid, w.memory.value.state.lastSwitchback))
  }

  /** A write over the newest version: the failover it records is past the dwell, the clock it stores never goes back. */
  lemma DurableEvaluation(w: World, a: Action)
    requires WellFormed(w) && Enabled(w, a) && Remembered(w) && a.Reconcile?
    requires RecordOf(w, a).Evaluated? && RecordOf(w, a).durable
    ensures var r := RecordOf(w, a);
            var clock, clock' := Newest(w).status.lastSwitchback, PlanOf(w, a).status.lastSwitchback;
            && (clock != None ==> clock' != None && clock'.value >= clock.value)
            && (HandBack(r) ==> clock' != None && clock'.value >= FloorSecond(r.at))
            && (FailedOver(r) ==> forall h | h in w.records && HandBack(h) && h.uid == r.uid ::
                  r.at >= FloorSecond(h.at) + r.policy.dwell)
  {
    var ns := w.history[a.readAt];
    var r := RecordOf(w, a);
    assert NoLaterThan(ns, w.clock);
    EvaluationFacts(r.from, ns.policy, a.sample.value, a.contact.available, a.now, r.before);
    if FailedOver(r) {
      forall h | h in w.records && HandBack(h) && h.uid == r.uid
        ensures r.at >= FloorSecond(h.at) + r.policy.dwell
      {
        FloorSecondMonotone(SECOND, h.at);
        assert r.before.lastSwitchback >= FloorSecond(h.at) >= SECOND;
      }
    }
  }

  lemma DwellAppend(rs: seq<Record>, r: Record)
    requires DwellRespected(rs)
    requires FailedOver(r) ==> forall h | h in rs && HandBack(h) && h.uid == r.uid :: r.at >= FloorSecond(h.at) + r.policy.dwell
    ensures DwellRespected(rs + [r])
  {
    var more := rs + [r];
    forall i, j | 0 <= i < j < |more| && HandBack(more[i]) && FailedOver(more[j]) && more[i].uid == more[j].uid
      ensures more[j].at >= FloorSecond(more[i].at) + more[j].policy.dwell
    {
      if j == |rs| {
        assert more[i] in rs;
      }
    }
  }

  lemma StepRemembers(w: World, a: Action)
    requires WellFormed(w) && Enabled(w, a) && Remembered(w)
    ensures Remembered(StepW(w, a))
  {
    if a.Reconcile? {
      var r := RecordOf(w, a);
      if r.Evaluated? && r.durable { DurableEvaluation(w, a); }
      assert Step(w, a).records == w.records + [r];
      assert w.history[a.readAt].uid <= Newest(w).uid;
    }
  }

  lemma StepDwell(w: World, a: Action)
    requires WellFormed(w) && Enabled(w, a) && Remembered(w) && DwellRespected(w.records)
    ensures Remembered(StepW(w, a)) && DwellRespected(StepW(w, a).records)
  {
    StepRemembers(w, a);
    if a.Reconcile? {
      var r := RecordOf(w, a);
      if r.Evaluated? && r.durable { DurableEvaluation(w, a); }
      DwellAppend(w.records, r);
    } else if a.Wipe? {
      DwellAppend(w.records, Wiped);
    }
  }

  function StepW(w: World, a: Action): (w': World)
    requires WellFormed(w) && Enabled(w, a)
    ensures w'.history != []
  {
    StepWellFormed(w, a);
    Step(w, a)
  }

  lemma WitnessGrows(rs: seq<Record>, rs': seq<Record>, uid: nat, t: Instant)
    requires rs <= rs'
    ensures Witnessed(rs, uid, t) ==> Witnessed(rs', uid, t)
    ensures WitnessedSecond(rs, uid, t) ==> WitnessedSecond(rs', uid, t)
  {
    assert forall r | r in rs :: r in rs';
  }

  /** What an evaluation would put in the status or in memory is witnessed once it may be kept. */
  lemma EvaluationAuthentic(w: World, a: Action)
    requires WellFormed(w) && Enabled(w, a) && Authentic(w) && a.Reconcile? && RecordOf(w, a).Evaluated?
    ensures var r := RecordOf(w, a);
            var plan := PlanOf(w, a);
            var rs := w.records + [r];
            && (r.durable && plan.status.lastSwitchback != None ==> WitnessedSecond(rs, r.uid, plan.status.lastSwitchback.value))
            && (r.committed && plan.pending.value.state.lastSwitchback != 0 ==>
                  Witnessed(rs, r.uid, plan.pending.value.state.lastSwitchback))
  {
    var ns := w.history[a.readAt];
    var r := RecordOf(w, a);
    var rs := w.records + [r];
    assert ns in w.history && NoLaterThan(ns, w.clock);
    EvaluationFacts(r.from, ns.policy, a.sample.value, a.contact.available, a.now, r.before);
    MergedAuthentic(w, a);
    var kept := r.before.lastSwitchback;
    WitnessGrows(w.records, rs, r.uid, kept);
    WitnessGrows(w.records, rs, r.uid, FloorSecond(kept));
    if ns.status.lastSwitchback != None { WitnessGrows(w.records, rs, r.uid, ns.status.lastSwitchback.value); }
    assert r in rs;
  }

  lemma StepAuthentic(w: World, a: Action)
    requires WellFormed(w) && Enabled(w, a) && Authentic(w)
    ensures Authentic(Step(w, a))
  {
    var w' := Step(w, a);
    StepWellFormed(w, a);
    assert Newest(w) in w.history;
    if a.Reconcile? && RecordOf(w, a).Evaluated? { EvaluationAuthentic(w, a); }
    forall s | s in w'.history && s.status.lastSwitchback != None
      ensures WitnessedSecond(w'.records, s.uid, s.status.lastSwitchback.value)
    {
      WitnessGrows(w.records, w'.records, s.uid, s.status.lastSwitchback.value);
      if a.Reconcile? { assert w.history[a.readAt] in w.history; }
    }
    if w'.memory != None && w.memory != None {
      WitnessGrows(w.records, w'.records, w.memory.value.uid, w.memory.value.state.lastSwitchback);
    }
  }

  /** The clock handed to the engine is witnessed, whichever version of the status was read. */
  lemma MergedAuthentic(w: World, a: Action)
    requires WellFormed(w) && Enabled(w, a) && Authentic(w) && a.Reconcile?
    ensures var ns := w.history[a.readAt];
            var clock := Merged(w.memory, ns, a.now).lastSwitchback;
            clock != 0 ==> Witnessed(w.records, ns.uid, clock) && WitnessedSecond(w.records, ns.uid, FloorSecond(clock))
  {
    var ns := w.history[a.readAt];
    assert ns in w.history;
    var clock := Merged(w.memory, ns, a.now).lastSwitchback;
    if clock != 0 {
      assert Witnessed(w.records, ns.uid, clock) by {
        if clock != StateOf(LoadEntry(w.memory, ns.uid, ns.generation)).lastSwitchback {
          assert WitnessedSecond(w.records, ns.uid, clock);
        }
      }
      var h :| h in w.records && HandBack(h) && h.uid == ns.uid && (clock == h.at || clock == FloorSecond(h.at));
      FloorSecondIdempotent(h.at);
    }
  }

  lemma {:induction false} RunKeeps(w: World, trace: seq<Action>)
    requires WellFormed(w) && Remembered(w) && DwellRespected(w.records) && Authentic(w) && Legal(w, trace)
    ensures WellFormed(Run(w, trace)) && Remembered(Run(w, trace)) && DwellRespected(Run(w, trace).records) && Authentic(Run(w, trace))
    decreases |trace|
  {
    if trace != [] {
      StepWellFormed(w, trace[0]);
      StepDwell(w, trace[0]);
      StepAuthentic(w, trace[0]);
      RunKeeps(Step(w, trace[0]), trace[1..]);
    }
  }

  /**
   In every run, a durably recorded failover comes at least minTerrestrialDwell after the whole second
   of every earlier durably recorded quality-driven switchback of the same object.
   */
  lemma MinDwellHoldsInEveryRun(policy: Policy, trace: seq<Action>)
    requires policy.margin >= 0.0 && Legal(Init(policy), trace)
    ensures DwellRespected(Run(Init(policy), trace).records)
  {
    InitWellFormed(policy);
    RunKeeps(Init(policy), trace);
  }

  /** Memory is never ahead of the newest status of its object, to the second. */
  ghost predicate NeverAhead(w: World)
    requires w.history != []
  {
    w.memory != None && w.memory.value.uid == Newest(w).uid && w.memory.value.state.lastSwitchback != 0 ==>
      Newest(w).status.lastSwitchback != None
      && FloorSecond(w.memory.value.state.lastSwitchback) <= Newest(w).status.lastSwitchback.value
  }

  lemma MemoryIsNeverAhead(w: World)
    requires w.history != [] && Remembered(w) && Authentic(w)
    ensures NeverAhead(w)
  {
    if w.memory != None && w.memory.value.uid == Newest(w).uid && w.memory.value.state.lastSwitchback != 0 {
      var t := w.memory.value.state.lastSwitchback;
      var h :| h in w.records && HandBack(h) && h.uid == Newest(w).uid && (t == h.at || t == FloorSecond(h.at));
      FloorSecondIdempotent(h.at);
    }
  }

  /**
   The converse guard: a failover is only ever held back by a hand-back that really became durable, and
   memory is never ahead of the newest status of the same object at whole-second granularity.
   */
  lemma DwellIsNeverInvented(policy: Policy, trace: seq<Action>, a: Action)
    requires policy.margin >= 0.0 && Legal(Init(policy), trace)
    requires a.Reconcile? && Enabled(Run(Init(policy), trace), a)
    ensures Run(Init(policy), trace).history != [] && NeverAhead(Run(Init(policy), trace))
    ensures var w := Run(Init(policy), trace);
            var ns := w.history[a.readAt];
            WithinDwell(ns.policy, Merged(w.memory, ns, a.now), a.now) ==>
              exists r | r in w.records :: HandBack(r) && r.uid == ns.uid && a.now - r.at < ns.policy.dwell
  {
    InitWellFormed(policy);
    RunKeeps(Init(policy), trace);
    var w := Run(Init(policy), trace);
    MemoryIsNeverAhead(w);
    MergedAuthentic(w, a);
  }
}

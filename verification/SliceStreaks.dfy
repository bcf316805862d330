/** The two streaks over whole runs: continuous recovery before a hand-back, N confirmations before a failover. */
module SliceStreaks {
  import opened Prelude
  import opened Failover
  import opened SliceReconciler
  import opened SliceRuns
  import opened SliceDwell

  predicate Advances(r: Record)
    requires r.Evaluated?
  {
    Counted(r.before, r.sample)
  }

  predicate Healthy(r: Record)
    requires r.Evaluated?
  {
    ConfirmedRecovered(r.policy.triggers, r.sample.metrics, r.policy.margin)
      && !Degraded(r.policy.triggers, r.sample.metrics)
  }

  predicate Bad(r: Record)
    requires r.Evaluated?
  {
    Degraded(r.policy.triggers, r.sample.metrics)
  }

  /** An evaluation of the same object under the same policy; anything else breaks a streak. */
  predicate SamePolicy(r: Record, uid: nat, generation: nat, policy: Policy) {
    r.Evaluated? && r.uid == uid && r.generation == generation && r.policy == policy
  }

  predicate Kept(r: Record) {
    r.Evaluated? && r.committed && Advances(r)
  }

  // ---- recovery -------------------------------------------------------------------------------

  /** From `k` up to but excluding `end` nothing broke the recovery that began at `k`. */
  ghost predicate Recovery(rs: seq<Record>, k: nat, end: nat, uid: nat, generation: nat, policy: Policy)
    requires end <= |rs|
  {
    k < end && forall i | k <= i < end ::
      SamePolicy(rs[i], uid, generation, policy) && (Kept(rs[i]) || i == k ==> Healthy(rs[i]))
  }

  /** The policy that belongs to a UID and generation, as any version of the object shows it. */
  ghost predicate PolicyOf(w: World, uid: nat, generation: nat, policy: Policy) {
    exists s | s in w.history :: s.uid == uid && s.generation == generation && s.policy == policy
  }

  /** A running recovery clock in memory is the time at which an unbroken recovery began. */
  ghost predicate ClockBacked(w: World) {
    w.memory != None && w.memory.value.state.recoveryAt != 0 ==>
      exists k: nat, policy | PolicyOf(w, w.memory.value.uid, w.memory.value.generation, policy) ::
        && Recovery(w.records, k, |w.records|, w.memory.value.uid, w.memory.value.generation, policy)
        && w.records[k].at == w.memory.value.state.recoveryAt
  }

  /** The hand-backs that waited: the sample was new, or a recovery clock was already running. */
  predicate Waited(r: Record) {
    HandBack(r) && (Advances(r) || r.before.recoveryAt != 0)
  }

  ghost predicate RecoveryBehind(rs: seq<Record>, j: nat)
    requires j < |rs| && rs[j].Evaluated?
  {
    exists k: nat :: Recovery(rs, k, j + 1, rs[j].uid, rs[j].generation, rs[j].policy)
                     && rs[j].at - rs[k].at >= rs[j].policy.delay && Healthy(rs[j])
  }

  ghost predicate HandBacksBacked(rs: seq<Record>) {
    forall j | 0 <= j < |rs| && Waited(rs[j]) :: RecoveryBehind(rs, j)
  }

  lemma SamePolicyInHistory(w: World, a: Action, policy: Policy)
    requires WellFormed(w) && Enabled(w, a) && a.Reconcile?
    requires PolicyOf(w, w.history[a.readAt].uid, w.history[a.readAt].generation, policy)
    ensures policy == w.history[a.readAt].policy
  {
    var ns := w.history[a.readAt];
    var s :| s in w.history && s.uid == ns.uid && s.generation == ns.generation && s.policy == policy;
    var i :| 0 <= i < |w.history| && w.history[i] == s;
    if i <= a.readAt { assert Ordered(w.history[i], w.history[a.readAt]); } else { assert Ordered(w.history[a.readAt], w.history[i]); }
  }

  /** The recovery clock the engine is given, if it is running, comes from a recovery under this very policy. */
  lemma GivenClockIsBacked(w: World, a: Action) returns (k: nat)
    requires WellFormed(w) && Enabled(w, a) && ClockBacked(w) && a.Reconcile? && RecordOf(w, a).Evaluated?
    ensures var r := RecordOf(w, a);
            r.before.recoveryAt != 0 ==>
              Recovery(w.records, k, |w.records|, r.uid, r.generation, r.policy) && w.records[k].at == r.before.recoveryAt
  {
    var ns := w.history[a.readAt];
    k := 0;
    if RecordOf(w, a).before.recoveryAt != 0 {
      var e := w.memory.value;
      assert e.uid == ns.uid && e.generation == ns.generation;
      var k0: nat, policy :| PolicyOf(w, e.uid, e.generation, policy)
        && Recovery(w.records, k0, |w.records|, e.uid, e.generation, policy) && w.records[k0].at == e.state.recoveryAt;
      SamePolicyInHistory(w, a, policy);
      k := k0;
    }
  }

  lemma RecoveryExtends(rs: seq<Record>, k: nat, r: Record, policy: Policy)
    requires r.Evaluated? && r.policy == policy && (Kept(r) || k == |rs| ==> Healthy(r))
    requires k < |rs| ==> Recovery(rs, k, |rs|, r.uid, r.generation, policy)
    requires k <= |rs|
    ensures Recovery(rs + [r], k, |rs| + 1, r.uid, r.generation, policy)
  {
    assert forall i | 0 <= i < |rs| :: (rs + [r])[i] == rs[i];
  }

  /** What an evaluation does to the recovery clock, as memory shows it afterwards. */
  predicate Clocks(r: Record, st: FlapState)
    requires r.Evaluated?
  {
    && (if r.before.recoveryAt == 0 then Healthy(r) && st.recoveryAt == r.at else st.recoveryAt == r.before.recoveryAt)
    && (Kept(r) ==> Healthy(r))
  }

  lemma EvaluationClocks(w: World, a: Action)
    requires WellFormed(w) && Enabled(w, a) && a.Reconcile? && RecordOf(w, a).Evaluated?
    ensures var r := RecordOf(w, a);
            var w' := Step(w, a);
            && w'.records == w.records + [r] && PolicyOf(w', r.uid, r.generation, r.policy)
            && (w'.memory != None && w'.memory.value.state.recoveryAt != 0 ==>
                  w'.memory.value.uid == r.uid && w'.memory.value.generation == r.generation && Clocks(r, w'.memory.value.state))
  {
    var ns := w.history[a.readAt];
    var r := RecordOf(w, a);
    assert NoLaterThan(ns, w.clock);
    EvaluationFacts(r.from, ns.policy, r.sample, r.available, r.at, r.before);
    assert ns in Step(w, a).history;
  }

  lemma RecoveryBacksClock(w': World, rs: seq<Record>, k: nat, r: Record, e: Entry)
    requires r.Evaluated? && w'.memory == Some(e) && w'.records == rs + [r] && PolicyOf(w', e.uid, e.generation, r.policy)
    requires e.uid == r.uid && e.generation == r.generation && Clocks(r, e.state)
    requires r.before.recoveryAt != 0 ==> Recovery(rs, k, |rs|, r.uid, r.generation, r.policy) && rs[k].at == r.before.recoveryAt
    ensures ClockBacked(w')
  {
    var start := if r.before.recoveryAt == 0 then |rs| else k;
    RecoveryExtends(rs, start, r, r.policy);
    assert w'.records[start].at == e.state.recoveryAt;
  }

  lemma EvaluationKeepsClockBacked(w: World, a: Action)
    requires WellFormed(w) && Enabled(w, a) && ClockBacked(w) && a.Reconcile? && RecordOf(w, a).Evaluated?
    ensures ClockBacked(Step(w, a))
  {
    EvaluationClocks(w, a);
    var k := GivenClockIsBacked(w, a);
    var w' := Step(w, a);
    if w'.memory != None && w'.memory.value.state.recoveryAt != 0 {
      RecoveryBacksClock(w', w.records, k, RecordOf(w, a), w'.memory.value);
    }
  }

  lemma StepKeepsClockBacked(w: World, a: Action)
    requires WellFormed(w) && Enabled(w, a) && ClockBacked(w)
    ensures ClockBacked(Step(w, a))
  {
    if a.Reconcile? {
      if RecordOf(w, a).Evaluated? { EvaluationKeepsClockBacked(w, a); }
    } else if (a.EditSpec? || a.Recreate?) && w.memory != None && w.memory.value.state.recoveryAt != 0 {
      var e := w.memory.value;
      var k: nat, policy :| PolicyOf(w, e.uid, e.generation, policy)
        && Recovery(w.records, k, |w.records|, e.uid, e.generation, policy) && w.records[k].at == e.state.recoveryAt;
      var s :| s in w.history && s.uid == e.uid && s.generation == e.generation && s.policy == policy;
      assert s in Step(w, a).history;
      assert PolicyOf(Step(w, a), e.uid, e.generation, policy);
    }
  }

  lemma NewHandBackIsBacked(w: World, a: Action)
    requires WellFormed(w) && Enabled(w, a) && ClockBacked(w) && a.Reconcile?
    requires Waited(RecordOf(w, a))
    ensures RecoveryBehind(w.records + [RecordOf(w, a)], |w.records|)
  {
    var ns := w.history[a.readAt];
    var r := RecordOf(w, a);
    assert NoLaterThan(ns, w.clock);
    EvaluationFacts(r.from, ns.policy, r.sample, r.available, r.at, r.before);
    var k := GivenClockIsBacked(w, a);
    if r.before.recoveryAt == 0 { k := |w.records|; }
    RecoveryExtends(w.records, k, r, ns.policy);
    assert (w.records + [r])[k].at == Tick(r.before, r.policy, r.sample, r.at).recoveryAt;
  }

  lemma BackedHandBacksStayBacked(rs: seq<Record>, r: Record)
    requires HandBacksBacked(rs)
    requires Waited(r) ==> RecoveryBehind(rs + [r], |rs|)
    ensures HandBacksBacked(rs + [r])
  {
    var rs' := rs + [r];
    forall j | 0 <= j < |rs'| && Waited(rs'[j]) ensures RecoveryBehind(rs', j) {
      if j < |rs| {
        assert RecoveryBehind(rs, j);
        var k: nat :| Recovery(rs, k, j + 1, rs[j].uid, rs[j].generation, rs[j].policy)
          && rs[j].at - rs[k].at >= rs[j].policy.delay && Healthy(rs[j]);
        assert forall i | 0 <= i < |rs| :: rs'[i] == rs[i];
        assert Recovery(rs', k, j + 1, rs'[j].uid, rs'[j].generation, rs'[j].policy);
      }
    }
  }

  lemma {:induction false} RunKeepsRecovery(w: World, trace: seq<Action>)
    requires WellFormed(w) && ClockBacked(w) && HandBacksBacked(w.records) && Legal(w, trace)
    ensures HandBacksBacked(Run(w, trace).records)
    decreases |trace|
  {
    if trace != [] {
      var a := trace[0];
      StepWellFormed(w, a);
      StepKeepsClockBacked(w, a);
      if a.Reconcile? {
        if Waited(RecordOf(w, a)) { NewHandBackIsBacked(w, a); }
        BackedHandBacksStayBacked(w.records, RecordOf(w, a));
      } else if a.Wipe? {
        BackedHandBacksStayBacked(w.records, Wiped);
      }
      RunKeepsRecovery(Step(w, a), trace[1..]);
    }
  }

  /**
   In every run, a durable hand-back whose sample was new, or that found a recovery clock running, ends an
   unbroken recovery of the same object and policy that began at least switchbackDelay earlier: no
   unreliable or unknown step, no spec edit, no restart, and no kept sample that was not past the margin.
   */
  lemma HandBackEndsAnUnbrokenRecovery(policy: Policy, trace: seq<Action>)
    requires policy.margin >= 0.0 && Legal(Init(policy), trace)
    ensures HandBacksBacked(Run(Init(policy), trace).records)
  {
    InitWellFormed(policy);
    RunKeepsRecovery(Init(policy), trace);
  }

  /** An unbroken streak in which every single record was healthy. */
  ghost predicate HealthyStreak(rs: seq<Record>, k: nat, j: nat)
    requires j < |rs| && rs[j].Evaluated?
  {
    k <= j && forall i | k <= i <= j :: SamePolicy(rs[i], rs[j].uid, rs[j].generation, rs[j].policy) && Healthy(rs[i])
  }

  /**
   In every run in which each evaluation is committed and advances the cursor, every durable hand-back ends a streak of
   evaluations of one object and policy, each with every trigger known and past the margin, that began at least
   switchbackDelay earlier.
   */
  lemma HandBackEndsAHealthyStreak(policy: Policy, trace: seq<Action>, j: nat) returns (k: nat)
    requires policy.margin >= 0.0 && Legal(Init(policy), trace)
    requires forall r | r in Run(Init(policy), trace).records && r.Evaluated? :: r.committed && Advances(r)
    requires j < |Run(Init(policy), trace).records| && HandBack(Run(Init(policy), trace).records[j])
    ensures var rs := Run(Init(policy), trace).records;
      HealthyStreak(rs, k, j) && rs[j].at - rs[k].at >= rs[j].policy.delay
  {
    var rs := Run(Init(policy), trace).records;
    HandBackEndsAnUnbrokenRecovery(policy, trace);
    assert rs[j] in rs && Waited(rs[j]);
    assert RecoveryBehind(rs, j);
    k :| Recovery(rs, k, j + 1, rs[j].uid, rs[j].generation, rs[j].policy) && rs[j].at - rs[k].at >= rs[j].policy.delay;
    forall i | k <= i <= j ensures SamePolicy(rs[i], rs[j].uid, rs[j].generation, rs[j].policy) && Healthy(rs[i]) {
      assert rs[i] in rs;
    }
  }

  // ---- confirmation ---------------------------------------------------------------------------

  /** Each sample is newer than the one before it, or carries no timestamp. */
  predicate Newer(r: Record, than: Record)
    requires r.Evaluated? && than.Evaluated?
  {
    r.sample.observedAt == 0 || r.sample.observedAt > than.sample.observedAt
  }

  /**
   `idx` picks, in order, degraded evaluations below `end` of one object and policy, each newer than the
   last; since the first of them every evaluation was under that policy and no other sample was kept.
   */
  ghost predicate Chain(rs: seq<Record>, idx: seq<nat>, end: nat, uid: nat, generation: nat, policy: Policy)
    requires end <= |rs|
  {
    && (forall n | 0 <= n < |idx| :: idx[n] < end && SamePolicy(rs[idx[n]], uid, generation, policy) && Bad(rs[idx[n]]) && Advances(rs[idx[n]]))
    && (forall n | 0 < n < |idx| :: idx[n - 1] < idx[n] && Newer(rs[idx[n]], rs[idx[n - 1]]))
    && (idx != [] ==> forall i | idx[0] <= i < end ::
          SamePolicy(rs[i], uid, generation, policy) && (Kept(rs[i]) ==> i in idx))
  }

  ghost predicate CounterBacked(w: World) {
    w.memory != None && w.memory.value.state.consecutive > 0 ==>
      exists idx: seq<nat>, policy | PolicyOf(w, w.memory.value.uid, w.memory.value.generation, policy) ::
        && Chain(w.records, idx, |w.records|, w.memory.value.uid, w.memory.value.generation, policy)
        && |idx| == w.memory.value.state.consecutive
        && w.memory.value.state.cursor == w.records[idx[|idx| - 1]].sample.observedAt
  }

  ghost predicate ConfirmedBehind(rs: seq<Record>, j: nat)
    requires j < |rs| && rs[j].Evaluated?
  {
    exists idx: seq<nat> :: Chain(rs, idx, j + 1, rs[j].uid, rs[j].generation, rs[j].policy) && |idx| >= rs[j].policy.samples
  }

  ghost predicate FailoversConfirmed(rs: seq<Record>) {
    forall j | 0 <= j < |rs| && FailedOver(rs[j]) && rs[j].policy.samples > 1 :: ConfirmedBehind(rs, j)
  }

  /** The chain behind the counter the engine is given. */
  lemma GivenCounterIsBacked(w: World, a: Action) returns (idx: seq<nat>)
    requires WellFormed(w) && Enabled(w, a) && CounterBacked(w) && a.Reconcile? && RecordOf(w, a).Evaluated?
    ensures var r := RecordOf(w, a);
            && Chain(w.records, idx, |w.records|, r.uid, r.generation, r.policy)
            && |idx| == r.before.consecutive
            && (idx != [] ==> r.before.cursor == w.records[idx[|idx| - 1]].sample.observedAt)
  {
    var ns := w.history[a.readAt];
    idx := [];
    if RecordOf(w, a).before.consecutive > 0 {
      var e := w.memory.value;
      assert e.uid == ns.uid && e.generation == ns.generation;
      var idx0: seq<nat>, policy :| PolicyOf(w, e.uid, e.generation, policy)
        && Chain(w.records, idx0, |w.records|, e.uid, e.generation, policy) && |idx0| == e.state.consecutive
        && e.state.cursor == w.records[idx0[|idx0| - 1]].sample.observedAt;
      SamePolicyInHistory(w, a, policy);
      idx := idx0;
    }
  }

  /** An evaluation that is not kept leaves the chain as it is. */
  lemma ChainHolds(rs: seq<Record>, idx: seq<nat>, r: Record, policy: Policy)
    requires r.Evaluated? && r.policy == policy && !Kept(r) && Chain(rs, idx, |rs|, r.uid, r.generation, policy)
    ensures Chain(rs + [r], idx, |rs| + 1, r.uid, r.generation, policy)
  {
    assert forall i | 0 <= i < |rs| :: (rs + [r])[i] == rs[i];
  }

  /** A new degraded sample lengthens the chain. */
  lemma ChainGrows(rs: seq<Record>, idx: seq<nat>, r: Record, policy: Policy)
    requires r.Evaluated? && r.policy == policy && Chain(rs, idx, |rs|, r.uid, r.generation, policy)
    requires idx != [] ==> r.before.cursor == rs[idx[|idx| - 1]].sample.observedAt
    requires Advances(r) && Bad(r)
    ensures Chain(rs + [r], idx + [|rs|], |rs| + 1, r.uid, r.generation, policy)
  {
    var rs', idx' := rs + [r], idx + [|rs|];
    forall n | 0 <= n < |idx'|
      ensures idx'[n] < |rs'| && SamePolicy(rs'[idx'[n]], r.uid, r.generation, policy) && Bad(rs'[idx'[n]]) && Advances(rs'[idx'[n]])
    {
      if n < |idx| { assert rs'[idx'[n]] == rs[idx[n]]; }
    }
    forall n | 0 < n < |idx'| ensures idx'[n - 1] < idx'[n] && Newer(rs'[idx'[n]], rs'[idx'[n - 1]]) {
      assert rs'[idx'[n - 1]] == rs[idx[n - 1]];
      if n < |idx| { assert rs'[idx'[n]] == rs[idx[n]]; }
    }
    forall i | idx'[0] <= i < |rs'| ensures SamePolicy(rs'[i], r.uid, r.generation, policy) && (Kept(rs'[i]) ==> i in idx') {
      if i == |rs| { assert idx'[|idx|] == i; } else { assert rs'[i] == rs[i]; }
    }
  }

  /** What an evaluation does to the counter and its cursor, as memory shows it afterwards. */
  predicate Counts(r: Record, st: FlapState)
    requires r.Evaluated?
  {
    if Kept(r) then Bad(r) && st.consecutive == r.before.consecutive + 1 && st.cursor == r.sample.observedAt
    else st.consecutive == r.before.consecutive && (st.consecutive > 0 ==> st.cursor == r.before.cursor)
  }

  lemma EvaluationCounts(w: World, a: Action)
    requires WellFormed(w) && Enabled(w, a) && a.Reconcile? && RecordOf(w, a).Evaluated?
    ensures var r := RecordOf(w, a);
            var w' := Step(w, a);
            && w'.records == w.records + [r] && r.policy == w.history[a.readAt].policy
            && PolicyOf(w', r.uid, r.generation, r.policy)
            && (w'.memory != None && w'.memory.value.state.consecutive > 0 ==>
                  w'.memory.value.uid == r.uid && w'.memory.value.generation == r.generation && Counts(r, w'.memory.value.state))
  {
    var ns := w.history[a.readAt];
    var r := RecordOf(w, a);
    assert NoLaterThan(ns, w.clock);
    EvaluationFacts(r.from, ns.policy, r.sample, r.available, r.at, r.before);
    assert ns in Step(w, a).history;
  }

  lemma ChainBacksCounter(w': World, rs: seq<Record>, idx: seq<nat>, r: Record, e: Entry)
    requires r.Evaluated? && w'.memory == Some(e) && w'.records == rs + [r] && PolicyOf(w', e.uid, e.generation, r.policy)
    requires e.uid == r.uid && e.generation == r.generation && e.state.consecutive > 0 && Counts(r, e.state)
    requires Chain(rs, idx, |rs|, r.uid, r.generation, r.policy) && |idx| == r.before.consecutive
    requires idx != [] ==> r.before.cursor == rs[idx[|idx| - 1]].sample.observedAt
    ensures CounterBacked(w')
  {
    if Kept(r) {
      ChainGrows(rs, idx, r, r.policy);
      assert |idx + [|rs|]| == e.state.consecutive;
    } else {
      ChainHolds(rs, idx, r, r.policy);
      assert w'.records[idx[|idx| - 1]] == rs[idx[|idx| - 1]];
    }
  }

  lemma EvaluationKeepsCounterBacked(w: World, a: Action)
    requires WellFormed(w) && Enabled(w, a) && CounterBacked(w) && a.Reconcile? && RecordOf(w, a).Evaluated?
    ensures CounterBacked(Step(w, a))
  {
    EvaluationCounts(w, a);
    var idx := GivenCounterIsBacked(w, a);
    var w' := Step(w, a);
    if w'.memory != None && w'.memory.value.state.consecutive > 0 {
      ChainBacksCounter(w', w.records, idx, RecordOf(w, a), w'.memory.value);
    }
  }

  lemma StepKeepsCounterBacked(w: World, a: Action)
    requires WellFormed(w) && Enabled(w, a) && CounterBacked(w)
    ensures CounterBacked(Step(w, a))
  {
    if a.Reconcile? {
      if RecordOf(w, a).Evaluated? { EvaluationKeepsCounterBacked(w, a); }
    } else if (a.EditSpec? || a.Recreate?) && w.memory != None && w.memory.value.state.consecutive > 0 {
      var e := w.memory.value;
      var idx: seq<nat>, policy :| PolicyOf(w, e.uid, e.generation, policy)
        && Chain(w.records, idx, |w.records|, e.uid, e.generation, policy) && |idx| == e.state.consecutive
        && e.state.cursor == w.records[idx[|idx| - 1]].sample.observedAt;
      var s :| s in w.history && s.uid == e.uid && s.generation == e.generation && s.policy == policy;
      assert s in Step(w, a).history;
      assert PolicyOf(Step(w, a), e.uid, e.generation, policy);
    }
  }

  lemma ChainConfirms(rs: seq<Record>, idx: seq<nat>, r: Record)
    requires r.Evaluated? && Chain(rs, idx, |rs|, r.uid, r.generation, r.policy) && |idx| == r.before.consecutive
    requires idx != [] ==> r.before.cursor == rs[idx[|idx| - 1]].sample.observedAt
    requires if Advances(r) then Bad(r) && |idx| + 1 >= r.policy.samples else |idx| >= r.policy.samples
    ensures ConfirmedBehind(rs + [r], |rs|)
  {
    if Advances(r) {
      ChainGrows(rs, idx, r, r.policy);
      assert |idx + [|rs|]| >= r.policy.samples;
    } else {
      ChainHolds(rs, idx, r, r.policy);
    }
  }

  /** A failover under N > 1 was decided with the counter at N, this sample included if it is new. */
  lemma FailoverCounts(w: World, a: Action)
    requires WellFormed(w) && Enabled(w, a) && a.Reconcile?
    requires FailedOver(RecordOf(w, a)) && RecordOf(w, a).policy.samples > 1
    ensures var r := RecordOf(w, a);
            if Advances(r) then Bad(r) && r.before.consecutive + 1 >= r.policy.samples else r.before.consecutive >= r.policy.samples
  {
    var ns := w.history[a.readAt];
    var r := RecordOf(w, a);
    assert NoLaterThan(ns, w.clock);
    EvaluationFacts(r.from, ns.policy, r.sample, r.available, r.at, r.before);
  }

  lemma NewFailoverIsConfirmed(w: World, a: Action)
    requires WellFormed(w) && Enabled(w, a) && CounterBacked(w) && a.Reconcile?
    requires FailedOver(RecordOf(w, a)) && RecordOf(w, a).policy.samples > 1
    ensures ConfirmedBehind(w.records + [RecordOf(w, a)], |w.records|)
  {
    FailoverCounts(w, a);
    var idx := GivenCounterIsBacked(w, a);
    ChainConfirms(w.records, idx, RecordOf(w, a));
  }

  lemma ConfirmedFailoversStayConfirmed(rs: seq<Record>, r: Record)
    requires FailoversConfirmed(rs)
    requires FailedOver(r) && r.policy.samples > 1 ==> ConfirmedBehind(rs + [r], |rs|)
    ensures FailoversConfirmed(rs + [r])
  {
    var rs' := rs + [r];
    forall j | 0 <= j < |rs'| && FailedOver(rs'[j]) && rs'[j].policy.samples > 1 ensures ConfirmedBehind(rs', j) {
      if j < |rs| {
        assert ConfirmedBehind(rs, j);
        var idx: seq<nat> :| Chain(rs, idx, j + 1, rs[j].uid, rs[j].generation, rs[j].policy) && |idx| >= rs[j].policy.samples;
        assert forall i | 0 <= i < |rs| :: rs'[i] == rs[i];
        assert Chain(rs', idx, j + 1, rs'[j].uid, rs'[j].generation, rs'[j].policy);
      }
    }
  }

  lemma {:induction false} RunKeepsConfirmation(w: World, trace: seq<Action>)
    requires WellFormed(w) && CounterBacked(w) && FailoversConfirmed(w.records) && Legal(w, trace)
    ensures FailoversConfirmed(Run(w, trace).records)
    decreases |trace|
  {
    if trace != [] {
      var a := trace[0];
      StepWellFormed(w, a);
      StepKeepsCounterBacked(w, a);
      if a.Reconcile? {
        if FailedOver(RecordOf(w, a)) && RecordOf(w, a).policy.samples > 1 { NewFailoverIsConfirmed(w, a); }
        ConfirmedFailoversStayConfirmed(w.records, RecordOf(w, a));
      } else if a.Wipe? {
        ConfirmedFailoversStayConfirmed(w.records, Wiped);
      }
      RunKeepsConfirmation(Step(w, a), trace[1..]);
    }
  }

  /**
   In every run, a durable failover under confirmationSamples N > 1 rests on at least N degraded samples of
   that very object and policy, each newer than the last, with no other sample kept in between.
   */
  lemma FailoverRestsOnNDistinctSamples(policy: Policy, trace: seq<Action>)
    requires policy.margin >= 0.0 && Legal(Init(policy), trace)
    ensures FailoversConfirmed(Run(Init(policy), trace).records)
  {
    InitWellFormed(policy);
    RunKeepsConfirmation(Init(policy), trace);
  }
}

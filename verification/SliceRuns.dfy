/**
 Whole runs of one NTNSlice: the API server as a sequence of object versions, the reconciler's memory,
 and a trace of actions chosen by an adversary. A reconcile may read any past version (a stale
 informer cache); its status write is applied only if that version is still the newest one.
 */
module SliceRuns {
  import opened Prelude
  import opened Failover
  import opened SliceReconciler

  /** What one reconcile did. `before` is the state given to the engine. */
  datatype Record =
    | Evaluated(at: Instant, uid: nat, generation: nat, policy: Policy, sample: Sample, available: bool,
                from: Path, before: FlapState, verdict: Verdict, committed: bool, durable: bool)
    | Held(at: Instant, contact: Contact, from: Path, verdict: Verdict, durable: bool)
    | Wiped

  /** `history` holds every version of the object; the index is its resourceVersion. */
  datatype World = World(history: seq<Slice>, memory: Option<Entry>, clock: Instant, records: seq<Record>)

  datatype Action =
    | Reconcile(readAt: nat, now: Instant, sample: Option<Sample>, contact: Contact, other: bool, write: WriteOutcome)
    | EditSpec(policy: Policy)
    | Recreate(policy: Policy)
    | Wipe  // restart, leader handoff, or the entry being dropped on deletion

  const FRESH := Status(None, None, 0)

  function Init(policy: Policy): World {
    World([Slice(0, 1, policy, FRESH)], None, 0, [])
  }

  function Newest(w: World): Slice
    requires w.history != []
  {
    w.history[|w.history| - 1]
  }

  /** The clock never runs backwards and has left the first second of the calendar. */
  predicate Enabled(w: World, a: Action) {
    match a
    case Reconcile(readAt, now, _, _, _, _) => readAt < |w.history| && w.clock <= now && SECOND <= now
    case EditSpec(p) => w.history != [] && p.margin >= 0.0
    case Recreate(p) => w.history != [] && p.margin >= 0.0
    case Wipe => true
  }

  /** Optimistic concurrency: only the newest version can be written over. */
  function Effective(w: World, a: Action): WriteOutcome
    requires a.Reconcile?
  {
    if a.readAt == |w.history| - 1 then a.write else Rejected
  }

  function PlanOf(w: World, a: Action): Plan
    requires a.Reconcile? && Enabled(w, a)
  {
    PlanFor(w.memory, w.history[a.readAt], a.now, a.sample, a.contact)
  }

  predicate Durable(w: World, a: Action)
    requires a.Reconcile? && Enabled(w, a)
  {
    Writes(w.history[a.readAt], PlanOf(w, a), a.other) && Effective(w, a) != Rejected
  }

  function RecordOf(w: World, a: Action): Record
    requires a.Reconcile? && Enabled(w, a)
  {
    var ns := w.history[a.readAt];
    var plan := PlanOf(w, a);
    var from := CurrentPath(ns.status);
    if a.sample == None || a.contact == Unreadable then Held(a.now, a.contact, from, plan.verdict, Durable(w, a))
    else Evaluated(a.now, ns.uid, ns.generation, ns.policy, a.sample.value, a.contact.available, from,
                   Merged(w.memory, ns, a.now), plan.verdict,
                   !Writes(ns, plan, a.other) || Effective(w, a) == Acked, Durable(w, a))
  }

  function Step(w: World, a: Action): World
    requires Enabled(w, a)
  {
    match a
    case Reconcile(readAt, now, sample, contact, other, write) =>
      var ns := w.history[readAt];
      var plan := PlanOf(w, a);
      World(if Durable(w, a) then w.history + [ns.(status := plan.status)] else w.history,
            Commit(ns, plan, other, Effective(w, a)), now, w.records + [RecordOf(w, a)])
    case EditSpec(p) =>
      var ns := Newest(w);
      w.(history := w.history + [ns.(generation := ns.generation + 1, policy := p)])
    case Recreate(p) => w.(history := w.history + [Slice(Newest(w).uid + 1, 1, p, FRESH)])
    case Wipe => w.(memory := None, records := w.records + [Wiped])
  }

  predicate Legal(w: World, trace: seq<Action>)
    decreases |trace|
  {
    trace == [] || (Enabled(w, trace[0]) && Legal(Step(w, trace[0]), trace[1..]))
  }

  function Run(w: World, trace: seq<Action>): World
    requires Legal(w, trace)
    decreases |trace|
  {
    if trace == [] then w else Run(Step(w, trace[0]), trace[1..])
  }

  // ---- facts every reachable world satisfies --------------------------------------------------

  predicate NoLaterThan(s: Slice, clock: Instant) {
    s.policy.margin >= 0.0 && (s.status.lastSwitchback == None || s.status.lastSwitchback.value <= clock)
      && s.status.path != Some(Unavailable)
  }

  predicate Ordered(a: Slice, b: Slice) {
    a.uid < b.uid || (a.uid == b.uid && (a.generation < b.generation || (a.generation == b.generation && a.policy == b.policy)))
  }

  predicate ClocksBy(st: FlapState, clock: Instant) {
    st.lastSwitchback <= clock && st.recoveryAt <= clock
  }

  /** UIDs and generations only grow, and a generation has one policy. */
  predicate WellFormed(w: World) {
    && w.history != []
    && (w.memory == None || ClocksBy(w.memory.value.state, w.clock))
    && (forall s | s in w.history :: NoLaterThan(s, w.clock))
    && (forall i, j | 0 <= i <= j < |w.history| :: Ordered(w.history[i], w.history[j]))
  }

  /** A new version that is not behind the newest one keeps the history in order. */
  lemma AppendVersion(w: World, s: Slice, clock: Instant)
    requires WellFormed(w) && w.clock <= clock && NoLaterThan(s, clock) && Ordered(Newest(w), s)
    ensures forall x | x in w.history + [s] :: NoLaterThan(x, clock)
    ensures forall i, j | 0 <= i <= j < |w.history + [s]| :: Ordered((w.history + [s])[i], (w.history + [s])[j])
  {
    var more := w.history + [s];
    forall i, j | 0 <= i <= j < |more| ensures Ordered(more[i], more[j]) {
      if i < |w.history| {
        assert Ordered(w.history[i], Newest(w));
      }
    }
  }

  /** What a reconcile may put in the status and in memory. */
  lemma PlanIsTimely(w: World, a: Action)
    requires WellFormed(w) && Enabled(w, a) && a.Reconcile?
    ensures var ns := w.history[a.readAt];
            && NoLaterThan(ns.(status := PlanOf(w, a).status), a.now)
            && (PlanOf(w, a).memory != None ==> ClocksBy(PlanOf(w, a).memory.value.state, a.now))
            && (PlanOf(w, a).pending != None ==> ClocksBy(PlanOf(w, a).pending.value.state, a.now))
  {
    var ns := w.history[a.readAt];
    assert NoLaterThan(ns, w.clock);
    if a.sample != None && a.contact != Unreadable {
      EvaluationFacts(CurrentPath(ns.status), ns.policy, a.sample.value, a.contact.available, a.now, Merged(w.memory, ns, a.now));
    }
  }

  lemma StepWellFormed(w: World, a: Action)
    requires WellFormed(w) && Enabled(w, a)
    ensures WellFormed(Step(w, a))
    ensures w.records <= Step(w, a).records && w.history <= Step(w, a).history
  {
    assert NoLaterThan(Newest(w), w.clock);
    match a
    case Reconcile(_, _, _, _, _, _) =>
      PlanIsTimely(w, a);
      if Durable(w, a) {
        AppendVersion(w, w.history[a.readAt].(status := PlanOf(w, a).status), a.now);
      }
    case EditSpec(p) => AppendVersion(w, Newest(w).(generation := Newest(w).generation + 1, policy := p), w.clock);
    case Recreate(p) => AppendVersion(w, Slice(Newest(w).uid + 1, 1, p, FRESH), w.clock);
    case Wipe =>
  }

  lemma {:induction false} RunWellFormed(w: World, trace: seq<Action>)
    requires WellFormed(w) && Legal(w, trace)
    ensures WellFormed(Run(w, trace))
    decreases |trace|
  {
    if trace != [] {
      StepWellFormed(w, trace[0]);
      RunWellFormed(Step(w, trace[0]), trace[1..]);
    }
  }

  lemma InitWellFormed(policy: Policy)
    requires policy.margin >= 0.0
    ensures WellFormed(Init(policy))
  {
  }
}

/**
 The NTNSlice reconciler (internal/controller/ntnslice_controller.go): the in-memory anti-flap map,
 the min-dwell clock mirrored to status, and Reconcile's rule that memory is committed only after the
 status is durable. The metrics reader, the ephemeris lookup and the API server's answer are inputs.
 */
module SliceReconciler {
  import opened Prelude
  import opened Failover

  type Key = string

  datatype Entry = Entry(uid: nat, generation: nat, state: FlapState)

  /** The status fields the engine reads or writes; `path` is None before the first reconcile. */
  datatype Status = Status(path: Option<Path>, lastSwitchback: Option<Instant>, failovers: nat)

  datatype Slice = Slice(uid: nat, generation: nat, policy: Policy, status: Status)

  /** checkSatelliteAvailability's answer. */
  datatype Contact = Unreadable | Readable(available: bool)

  /** What the API server did with a status write; AckLost is applied but reported as an error. */
  datatype WriteOutcome = Rejected | AckLost | Acked

  function CurrentPath(s: Status): Path {
    if s.path == None then Terrestrial else s.path.value
  }

  // ---- the anti-flap map, one key at a time ---------------------------------------------------

  /** loadFlapState: another UID is evicted; another generation loses its streak but keeps the dwell clock. */
  function LoadEntry(mem: Option<Entry>, uid: nat, generation: nat): Option<Entry> {
    if mem == None || mem.value.uid != uid then None
    else if mem.value.generation == generation then mem
    else Some(Entry(uid, generation, mem.value.state.(consecutive := 0, recoveryAt := 0, cursor := 0)))
  }

  function StateOf(mem: Option<Entry>): FlapState {
    if mem == None then NO_FLAP else mem.value.state
  }

  /** A new object or generation starts over: no streak, and its first sample counts; only a dwell clock of the same object survives. */
  lemma NewGenerationStartsOver(mem: Option<Entry>, uid: nat, generation: nat, s: Sample)
    requires mem == None || mem.value.uid != uid || mem.value.generation != generation
    ensures var st := StateOf(LoadEntry(mem, uid, generation));
            && st.consecutive == 0 && st.recoveryAt == 0 && Counted(st, s)
            && st.lastSwitchback == if mem != None && mem.value.uid == uid then mem.value.state.lastSwitchback else 0
  {
  }

  /** resetRecoveryStreak: the cursor and the dwell clock survive. */
  function ResetStreak(mem: Option<Entry>): Option<Entry> {
    if mem == None then None
    else Some(mem.value.(state := mem.value.state.(recoveryAt := 0, consecutive := 0)))
  }

  /** seedLastSwitchbackFromStatus: the clock it leaves in memory, and the status it leaves behind. */
  function SeedClock(clock: Instant, durable: Option<Instant>, now: Instant): Instant {
    if durable == None || durable.value > now || durable.value <= clock then clock else durable.value
  }

  function SeedDurable(durable: Option<Instant>, now: Instant): Option<Instant> {
    if durable != None && durable.value > now then None else durable
  }

  /** persistLastSwitchbackToStatus, as read back after serialisation to whole seconds. */
  function MirrorClock(durable: Option<Instant>, latest: Instant, now: Instant): Option<Instant> {
    if latest != 0 && (durable == None || FloorSecond(latest) > durable.value || durable.value > now)
    then Some(FloorSecond(latest)) else durable
  }

  // ---- one reconcile --------------------------------------------------------------------------

  /** What Reconcile has computed when it reaches the status write. */
  datatype Plan = Plan(memory: Option<Entry>, verdict: Verdict, pending: Option<Entry>, status: Status)

  /** The anti-flap state the engine is given: memory merged with the durable dwell clock. */
  function Merged(mem: Option<Entry>, ns: Slice, now: Instant): FlapState {
    var st := StateOf(LoadEntry(mem, ns.uid, ns.generation));
    st.(lastSwitchback := SeedClock(st.lastSwitchback, ns.status.lastSwitchback, now))
  }

  function PlanFor(mem: Option<Entry>, ns: Slice, now: Instant, sample: Option<Sample>, contact: Contact): Plan {
    var path := CurrentPath(ns.status);
    if contact == Unreadable then
      Plan(ResetStreak(mem), Verdict(Stay, path), None, ns.status.(path := Some(path)))
    else if sample == None then
      var v := SafeHold(path, contact.available);
      Plan(ResetStreak(mem), v, None, ns.status.(path := Some(v.target)))
    else
      var (v, st) := AntiFlap(path, ns.policy, sample.value, contact.available, now, Merged(mem, ns, now));
      var durable := MirrorClock(SeedDurable(ns.status.lastSwitchback, now), st.lastSwitchback, now);
      Plan(LoadEntry(mem, ns.uid, ns.generation), v, Some(Entry(ns.uid, ns.generation, st)),
           Status(Some(v.target), durable, ns.status.failovers + (if v.decision == Failover then 1 else 0)))
  }

  /** A durable dwell clock dated in the future holds nothing back and is gone from the next status that is evaluated. */
  lemma FutureClockSelfHeals(mem: Option<Entry>, ns: Slice, now: Instant, sample: Sample, available: bool)
    requires StateOf(mem).lastSwitchback <= now && ns.status.lastSwitchback.Some? && ns.status.lastSwitchback.value > now
    ensures Merged(mem, ns, now).lastSwitchback == StateOf(LoadEntry(mem, ns.uid, ns.generation)).lastSwitchback
    ensures var durable := PlanFor(mem, ns, now, Some(sample), Readable(available)).status.lastSwitchback; durable == None || durable.value <= now
  {
  }

  /** persistStatusIfChanged writes when the status changed or an event is queued (`other`). */
  predicate Writes(ns: Slice, plan: Plan, other: bool) {
    plan.status != ns.status || other
  }

  /** Memory is committed once the write is acknowledged, or when there was nothing to write. */
  function Commit(ns: Slice, plan: Plan, other: bool, write: WriteOutcome): Option<Entry> {
    if plan.pending != None && (!Writes(ns, plan, other) || write == Acked) then plan.pending else plan.memory
  }

  function Lookup(m: map<Key, Entry>, key: Key): Option<Entry> {
    if key in m then Some(m[key]) else None
  }

  class Reconciler {
    var flapState: map<Key, Entry>

    constructor ()
      ensures flapState == map[]
    {
      flapState := map[];
    }

    method LoadFlapState(key: Key, uid: nat, generation: nat) returns (st: FlapState)
      modifies this
      ensures Lookup(flapState, key) == LoadEntry(Lookup(old(flapState), key), uid, generation)
      ensures st == StateOf(Lookup(flapState, key))
      ensures flapState - {key} == old(flapState) - {key}
    {
      if key !in flapState || flapState[key].uid != uid {
        flapState := flapState - {key};
        return NO_FLAP;
      }
      var entry := flapState[key];
      if entry.generation != generation {
        entry := entry.(state := entry.state.(consecutive := 0, recoveryAt := 0, cursor := 0), generation := generation);
        flapState := flapState[key := entry];
      }
      st := entry.state;
    }

    method StoreFlapState(key: Key, uid: nat, generation: nat, st: FlapState)
      modifies this
      ensures flapState == old(flapState)[key := Entry(uid, generation, st)]
    {
      flapState := flapState[key := Entry(uid, generation, st)];
    }

    method ResetRecoveryStreak(key: Key)
      modifies this
      ensures Lookup(flapState, key) == ResetStreak(Lookup(old(flapState), key))
      ensures flapState - {key} == old(flapState) - {key}
    {
      if key !in flapState || (flapState[key].state.recoveryAt == 0 && flapState[key].state.consecutive == 0) {
        return;
      }
      var entry := flapState[key];
      entry := entry.(state := entry.state.(recoveryAt := 0, consecutive := 0));
      flapState := flapState[key := entry];
    }

    /** seedLastSwitchbackFromStatus: adopt a newer durable clock, and clear one dated in the future. */
    method SeedLastSwitchbackFromStatus(af: FlapState, durable: Option<Instant>, now: Instant)
      returns (af': FlapState, durable': Option<Instant>)
      ensures af' == af.(lastSwitchback := SeedClock(af.lastSwitchback, durable, now))
      ensures durable' == SeedDurable(durable, now)
    {
      af', durable' := af, durable;
      if durable == None { return; }
      if durable.value > now { durable' := None; return; }
      if durable.value <= af.lastSwitchback { return; }
      af' := af'.(lastSwitchback := durable.value);
    }

    /** Step 4 with reliable metrics and a readable ephemeris. */
    method EvaluateReliable(key: Key, ns: Slice, now: Instant, sample: Sample, available: bool)
      returns (plan: Plan)
      modifies this
      ensures plan == PlanFor(Lookup(old(flapState), key), ns, now, Some(sample), Readable(available))
      ensures Lookup(flapState, key) == plan.memory
      ensures flapState - {key} == old(flapState) - {key}
    {
      var af := LoadFlapState(key, ns.uid, ns.generation);
      var durable;
      af, durable := SeedLastSwitchbackFromStatus(af, ns.status.lastSwitchback, now);
      var v, st := EvaluateFailoverWithAntiFlap(CurrentPath(ns.status), ns.policy, sample, available, now, af);
      if st.lastSwitchback != 0 {
        if durable == None || FloorSecond(st.lastSwitchback) > durable.value || durable.value > now {
          durable := Some(FloorSecond(st.lastSwitchback));
        }
      }
      var failovers := ns.status.failovers;
      if v.decision == Failover { failovers := failovers + 1; }
      plan := Plan(Lookup(flapState, key), v, Some(Entry(ns.uid, ns.generation, st)), Status(Some(v.target), durable, failovers));
    }

    /** Steps 4-8: decide, write the status, then commit memory. `sent` is the status write, if any. */
    method Reconcile(key: Key, ns: Slice, now: Instant, sample: Option<Sample>, contact: Contact, other: bool,
                     write: WriteOutcome) returns (v: Verdict, sent: Option<Status>)
      modifies this
      ensures var plan := PlanFor(Lookup(old(flapState), key), ns, now, sample, contact);
              && v == plan.verdict
              && sent == (if Writes(ns, plan, other) then Some(plan.status) else None)
              && Lookup(flapState, key) == Commit(ns, plan, other, write)
      ensures flapState - {key} == old(flapState) - {key}
    {
      var plan;
      if contact != Unreadable && sample != None {
        plan := EvaluateReliable(key, ns, now, sample.value, contact.available);
      } else {
        var path := CurrentPath(ns.status);
        v := if contact == Unreadable then Verdict(Stay, path) else SafeHold(path, contact.available);
        ResetRecoveryStreak(key);
        plan := Plan(Lookup(flapState, key), v, None, ns.status.(path := Some(v.target)));
      }
      v, sent := plan.verdict, None;
      if plan.status != ns.status || other {
        sent := Some(plan.status);
        if write != Acked { return; }
      }
      if plan.pending != None { StoreFlapState(key, ns.uid, ns.generation, plan.pending.value.state); }
    }
  }
}

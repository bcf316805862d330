/** The per-UID stale cache in front of a metrics source (pkg/slice/metrics/stale.go) and what a replay can do. */
module StaleCache {
  import opened Prelude
  import opened Failover
  import SliceReconciler
  import SliceRuns

  const MAX_STALENESS := 90 * SECOND

  datatype Stored = Stored(sample: Sample, freshAt: Instant)
  datatype Answer = Reading(sample: Sample, stale: bool, lastFreshAt: Instant) | NoMetrics | Abandoned

  /** One Read: `inner` is what the source answered, None on failure. */
  function Serve(stored: Option<Stored>, inner: Option<Sample>, cancelled: bool, now: Instant): (Answer, Option<Stored>) {
    if inner != None then (Reading(inner.value, false, now), Some(Stored(inner.value, now)))
    else if cancelled then (Abandoned, stored)
    else if stored == None then (NoMetrics, None)
    else (Reading(stored.value.sample, true, stored.value.freshAt), stored)
  }

  class Cache {
    var entries: map<nat, Stored>

    constructor ()
      ensures entries == map[]
    {
      entries := map[];
    }

    method Read(uid: nat, inner: Option<Sample>, cancelled: bool, now: Instant) returns (a: Answer)
      modifies this
      ensures var was := if uid in old(entries) then Some(old(entries)[uid]) else None;
              var (answer, next) := Serve(was, inner, cancelled, now);
              && a == answer
              && (if uid in entries then Some(entries[uid]) else None) == next
      ensures entries - {uid} == old(entries) - {uid}
    {
      if inner != None {
        entries := entries[uid := Stored(inner.value, now)];
        return Reading(inner.value, false, now);
      }
      if cancelled { return Abandoned; }
      if uid !in entries { return NoMetrics; }
      return Reading(entries[uid].sample, true, entries[uid].freshAt);
    }
  }

  /** One read of an object: what the source answered, whether the caller was already cancelled, and when. */
  datatype Call = Call(inner: Option<Sample>, cancelled: bool, at: Instant)

  /** What the cache holds after a sequence of reads of one object. */
  function StoredAfter(calls: seq<Call>): Option<Stored> {
    if calls == [] then None
    else
      var c := calls[|calls| - 1];
      Serve(StoredAfter(calls[..|calls| - 1]), c.inner, c.cancelled, c.at).1
  }

  /** The last answer of the source, and when it came. */
  function LastAnswer(calls: seq<Call>): Option<Stored> {
    if calls == [] then None
    else if calls[|calls| - 1].inner.Some? then Some(Stored(calls[|calls| - 1].inner.value, calls[|calls| - 1].at))
    else LastAnswer(calls[..|calls| - 1])
  }

  /**
   Over every sequence of reads: an answer of the source is passed on as fresh; without one, a caller that is not yet
   cancelled gets the last answer there was, marked stale and dated when it came, and no metrics if there was none.
   */
  lemma {:induction false} ServesTheLastAnswer(calls: seq<Call>, c: Call)
    ensures var a := Serve(StoredAfter(calls), c.inner, c.cancelled, c.at).0; var last := LastAnswer(calls);
      if c.inner.Some? then a == Reading(c.inner.value, false, c.at)
      else if c.cancelled then a == Abandoned
      else if last.None? then a == NoMetrics
      else a == Reading(last.value.sample, true, last.value.freshAt)
  {
    if calls != [] {
      ServesTheLastAnswer(calls[..|calls| - 1], c);
    }
  }

  /** readPathQuality: a stale reading drives a decision only within the freshness bound. */
  function Usable(a: Answer, now: Instant): Option<Sample> {
    if a.Reading? && (!a.stale || now - a.lastFreshAt <= MAX_STALENESS) then Some(a.sample) else None
  }

  /** The samples that reach the engine from a sequence of reads of one object. */
  function Delivered(stored: Option<Stored>, calls: seq<(Option<Sample>, bool, Instant)>): seq<Sample>
    decreases |calls|
  {
    if calls == [] then []
    else
      var (a, next) := Serve(stored, calls[0].0, calls[0].1, calls[0].2);
      var rest := Delivered(next, calls[1..]);
      var u := Usable(a, calls[0].2);
      if u == None then rest else [u.value] + rest
  }

  /** The anti-flap clocks after a run of kept samples, each at its own time. */
  function TickAll(st: FlapState, pol: Policy, ss: seq<Sample>, nows: seq<Instant>): FlapState
    requires |ss| == |nows|
    decreases |ss|
  {
    if ss == [] then st else TickAll(Tick(st, pol, ss[0], nows[0]), pol, ss[1..], nows[1..])
  }

  /** While the source is down, every sample that gets through is the one stored, timestamp included. */
  lemma {:induction false} OutageOnlyReplays(stored: Option<Stored>, calls: seq<(Option<Sample>, bool, Instant)>)
    requires forall r | r in calls :: r.0 == None
    ensures forall s | s in Delivered(stored, calls) :: stored != None && s == stored.value.sample
  {
    if calls != [] {
      assert calls[0] in calls && forall r | r in calls[1..] :: r in calls;
      OutageOnlyReplays(stored, calls[1..]);
    }
  }

  /**
   After a timestamped sample was counted, no number of usable replays of it moves an anti-flap clock:
   confirmationSamples counts observations, not reconciles.
   */
  lemma {:induction false} OutageMovesNoClock(st: FlapState, pol: Policy, s: Sample, freshAt: Instant,
                                              calls: seq<(Option<Sample>, bool, Instant)>, nows: seq<Instant>)
    requires s.observedAt != 0 && st.cursor >= s.observedAt
    requires forall r | r in calls :: r.0 == None
    requires |nows| == |Delivered(Some(Stored(s, freshAt)), calls)|
    ensures TickAll(st, pol, Delivered(Some(Stored(s, freshAt)), calls), nows) == st
  {
    OutageOnlyReplays(Some(Stored(s, freshAt)), calls);
    HeldByReplays(st, pol, s, Delivered(Some(Stored(s, freshAt)), calls), nows);
  }

  lemma {:induction false} HeldByReplays(st: FlapState, pol: Policy, s: Sample, ss: seq<Sample>, nows: seq<Instant>)
    requires s.observedAt != 0 && st.cursor >= s.observedAt && |ss| == |nows|
    requires forall x | x in ss :: x == s
    ensures TickAll(st, pol, ss, nows) == st
  {
    if ss != [] {
      assert ss[0] in ss && forall x | x in ss[1..] :: x in ss;
      HeldByReplays(st, pol, s, ss[1..], nows[1..]);
    }
  }

  // ---- an outage as the reconciler lives through it ---------------------------------------------------------------

  /** The reconcile does not evaluate: the ephemeris was unreadable or there was no usable sample. */
  predicate Holds(a: SliceRuns.Action)
    requires a.Reconcile?
  {
    a.contact.Unreadable? || a.sample == None
  }

  /** A reconcile while the source is down: the sample it gets, if any, is the stored one, while that may be used. */
  predicate Down(a: SliceRuns.Action, stored: Stored, cancelled: bool) {
    a.Reconcile? && a.sample == Usable(Serve(Some(stored), None, cancelled, a.now).0, a.now)
  }

  /** Versions from `base` on are of the object and generation that the entry in memory belongs to. */
  predicate SameObject(w: SliceRuns.World, base: nat, e: SliceReconciler.Entry) {
    forall i | base <= i < |w.history| :: w.history[i].uid == e.uid && w.history[i].generation == e.generation
  }

  /** Memory with the streak clocks as they were, or cleared; the dwell clock is not spoken of. */
  predicate Frozen(m: Option<SliceReconciler.Entry>, e: SliceReconciler.Entry, cleared: bool) {
    && m.Some? && m.value.uid == e.uid && m.value.generation == e.generation && m.value.state.cursor == e.state.cursor
    && m.value.state.consecutive == (if cleared then 0 else e.state.consecutive)
    && m.value.state.recoveryAt == (if cleared then 0 else e.state.recoveryAt)
  }

  lemma DownStep(w: SliceRuns.World, a: SliceRuns.Action, stored: Stored, cancelled: bool, base: nat, e: SliceReconciler.Entry)
    requires w.memory == Some(e) && SliceRuns.Enabled(w, a) && Down(a, stored, cancelled) && SameObject(w, base, e) && base <= a.readAt
    requires stored.sample.observedAt != 0 && e.state.cursor >= stored.sample.observedAt
    ensures Frozen(SliceRuns.Step(w, a).memory, e, Holds(a)) && SameObject(SliceRuns.Step(w, a), base, e)
  {
    var ns := w.history[a.readAt];
    if !Holds(a) {
      var st := SliceReconciler.Merged(w.memory, ns, a.now);
      assert Tick(st, ns.policy, a.sample.value, a.now) == st;
    }
  }

  /**
   An outage of any length, in any run of reconciles without a spec edit, whatever becomes of their writes: the cursor
   stays, and counter and recovery clock stay as well until the first reconcile that holds, which clears both. So no
   outage ever advances the confirmation counter or starts a recovery.
   */
  lemma {:induction false} OutageNeverAdvances(w: SliceRuns.World, trace: seq<SliceRuns.Action>, stored: Stored, cancelled: seq<bool>,
                                               base: nat, e: SliceReconciler.Entry)
    requires w.memory == Some(e) && SliceRuns.Legal(w, trace) && SameObject(w, base, e) && |cancelled| == |trace|
    requires forall i | 0 <= i < |trace| :: trace[i].Reconcile? && base <= trace[i].readAt
    requires forall i | 0 <= i < |trace| :: Down(trace[i], stored, cancelled[i])
    requires stored.sample.observedAt != 0 && e.state.cursor >= stored.sample.observedAt
    ensures Frozen(SliceRuns.Run(w, trace).memory, e, SomeHolds(trace))
    decreases |trace|
  {
    if trace != [] {
      DownStep(w, trace[0], stored, cancelled[0], base, e);
      var v, rest := SliceRuns.Step(w, trace[0]), trace[1..];
      OutageNeverAdvances(v, rest, stored, cancelled[1..], base, v.memory.value);
      HoldsFirstOrLater(trace);
    }
  }

  predicate SomeHolds(trace: seq<SliceRuns.Action>)
    requires forall i | 0 <= i < |trace| :: trace[i].Reconcile?
  {
    exists i | 0 <= i < |trace| :: Holds(trace[i])
  }

  lemma HoldsFirstOrLater(trace: seq<SliceRuns.Action>)
    requires trace != [] && forall i | 0 <= i < |trace| :: trace[i].Reconcile?
    ensures SomeHolds(trace) <==> Holds(trace[0]) || SomeHolds(trace[1..])
  {
    if SomeHolds(trace) && !Holds(trace[0]) {
      var i :| 0 <= i < |trace| && Holds(trace[i]);
      assert Holds(trace[1..][i - 1]);
    }
    if SomeHolds(trace[1..]) {
      var i :| 0 <= i < |trace| - 1 && Holds(trace[1..][i]);
      assert Holds(trace[i + 1]);
    }
  }

  /** Reconciles happen in the order of their clocks. */
  lemma {:induction false} ClockOrder(w: SliceRuns.World, trace: seq<SliceRuns.Action>, i: nat)
    requires SliceRuns.Legal(w, trace) && i < |trace| && forall k | 0 <= k < |trace| :: trace[k].Reconcile?
    ensures w.clock <= trace[i].now <= trace[|trace| - 1].now
    decreases |trace|
  {
    if |trace| > 1 {
      ClockOrder(SliceRuns.Step(w, trace[0]), trace[1..], if i == 0 then 0 else i - 1);
    }
  }

  /** With a readable ephemeris and no cancelled read, the outage clears counter and clock exactly once the sample is over 90 s old. */
  lemma OutageClearsExactlyWhenStale(w: SliceRuns.World, trace: seq<SliceRuns.Action>, stored: Stored, base: nat, e: SliceReconciler.Entry)
    requires w.memory == Some(e) && SliceRuns.Legal(w, trace) && SameObject(w, base, e) && trace != []
    requires forall i | 0 <= i < |trace| :: trace[i].Reconcile? && base <= trace[i].readAt
    requires forall i | 0 <= i < |trace| :: Down(trace[i], stored, false) && trace[i].contact.Readable?
    requires stored.sample.observedAt != 0 && e.state.cursor >= stored.sample.observedAt
    ensures Frozen(SliceRuns.Run(w, trace).memory, e, trace[|trace| - 1].now - stored.freshAt > 90 * SECOND)
  {
    OutageNeverAdvances(w, trace, stored, seq(|trace|, _ => false), base, e);
    if SomeHolds(trace) {
      var i :| 0 <= i < |trace| && Holds(trace[i]);
      ClockOrder(w, trace, i);
      assert Down(trace[i], stored, false);
    } else {
      assert Down(trace[|trace| - 1], stored, false) && !Holds(trace[|trace| - 1]);
    }
  }
}

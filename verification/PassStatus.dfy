/**
 The two-write status protocol of the pass windows (Reconcile, passSweepDue, passPredictionInputSignature and
 invalidatePassPredictionStatus in internal/controller/satelliteephemeris_controller.go). A reconcile reads the
 object, digests its inputs, writes the heartbeat (write A), sweeps, and writes the windows (write B); stations
 and spec may change, and the reconcile may be cancelled, lose a write or crash, at any point in between.
 */
module PassStatus {
  import opened Prelude

  // ---- ground stations over time --------------------------------------------------------------------------

  /** A GroundStationLifecycle as the informer shows it. */
  datatype Station = Absent | Present(uid: nat, generation: nat, terminating: bool, location: string)

  type Snapshot = map<string, Station>

  function At(s: Snapshot, name: string): Station {
    if name in s then s[name] else Absent
  }

  datatype Change =
    | Create(location: string)    // a new object: new UID, generation 1
    | Edit(location: string)      // a spec edit: next generation
    | Terminate                   // a deletion timestamp, held by a finalizer
    | Remove

  function Changed(prior: Station, c: Change, nextUid: nat): Station {
    match (c, prior)
    case (Create(l), Absent) => Present(nextUid, 1, false, l)
    case (Edit(l), Present(u, g, t, _)) => Present(u, g + 1, t, l)
    case (Terminate, Present(u, g, _, l)) => Present(u, g, true, l)
    case (Remove, Present(_, _, _, _)) => Absent
    case _ => prior
  }

  // ---- the inputs and their signature ------------------------------------------------------------------------

  datatype Spec = Spec(stations: seq<string>, minElevation: string, horizon: int, norad: seq<int>, source: string)

  datatype Mark = AbsentMark | Identity(uid: nat, generation: nat, terminating: bool)

  /** What passPredictionInputSignature digests: selectors up to order (and duplicate NORADs), one mark per station. */
  datatype Signature = Signature(minElevation: string, horizon: int, norad: set<int>, source: string,
                                 stations: multiset<string>, marks: map<string, Mark>)

  function MarkOf(s: Station): Mark {
    match s
    case Absent => AbsentMark
    case Present(u, g, t, _) => Identity(u, g, t)
  }

  /** When each station was read: the index of the snapshot, None when the read failed. */
  type Reads = map<string, Option<nat>>

  predicate ReadsOf(r: Reads, names: seq<string>, snapshots: seq<Snapshot>) {
    forall n | n in names :: n in r && (r[n].Some? ==> r[n].value < |snapshots|)
  }

  function ReadMark(snapshots: seq<Snapshot>, r: Reads, n: string): Mark
    requires n in r && (r[n].Some? ==> r[n].value < |snapshots|)
  {
    if r[n].None? then AbsentMark else MarkOf(At(snapshots[r[n].value], n))
  }

  function Digest(s: Spec, snapshots: seq<Snapshot>, r: Reads): Signature
    requires ReadsOf(r, s.stations, snapshots)
  {
    Signature(s.minElevation, s.horizon, (set x | x in s.norad), s.source, multiset(s.stations),
              map n | n in s.stations :: ReadMark(snapshots, r, n))
  }

  function LiveReads(s: Spec, snapshots: seq<Snapshot>): Reads
    requires snapshots != []
  {
    map n | n in s.stations :: Some(|snapshots| - 1)
  }

  function LiveSignature(s: Spec, snapshots: seq<Snapshot>): Signature
    requires snapshots != []
  {
    Digest(s, snapshots, LiveReads(s, snapshots))
  }

  // ---- the status, and what one reconcile does to it --------------------------------------------------------------

  /** Windows are identified by what they were swept from: the spec, the signature reads and the sweep reads. */
  datatype Windows = NoWindows | Swept(spec: Spec, signed: Reads, swept: Reads)

  datatype Condition = Missing | Unknown | False | True

  datatype Status = Status(windows: Windows, sweptAt: Option<Instant>, hash: Option<Signature>, predicted: Condition)

  const CLEARED := Status(NoWindows, None, None, Missing)
  const SWEEP_INTERVAL: int := 15 * MINUTE

  predicate SweepDue(st: Status, now: Instant, sig: Signature) {
    st.hash != Some(sig) || st.sweptAt == None || st.sweptAt.value > now || now >= st.sweptAt.value + SWEEP_INTERVAL
  }

  predicate Configured(s: Spec) {
    s.stations != []
  }

  /** The pass part of write A. */
  function Heartbeat(s: Spec, st: Status, sig: Signature): Status {
    if !Configured(s) then CLEARED
    else if st.hash != Some(sig) then CLEARED.(predicted := Unknown)
    else st
  }

  /** How a sweep ends; a cancelled one leaves nothing to write. */
  datatype SweepEnd = Cancelled | Failed | Succeeded

  /** The pass part of write B. */
  function AfterSweep(s: Spec, st: Status, sig: Signature, signed: Reads, swept: Reads, end: SweepEnd, done: Instant): Status {
    var outcome := if end == Succeeded then st.(windows := Swept(s, signed, swept), predicted := True)
                   else st.(windows := NoWindows, predicted := False);
    outcome.(sweptAt := Some(done), hash := Some(sig))
  }

  /** eph.Status as the reconcile mutates it. */
  class EphStatus {
    var windows: Windows
    var sweptAt: Option<Instant>
    var hash: Option<Signature>
    var predicted: Condition

    function Value(): Status
      reads this
    {
      Status(windows, sweptAt, hash, predicted)
    }

    constructor (st: Status)
      ensures Value() == st
    {
      windows, sweptAt, hash, predicted := st.windows, st.sweptAt, st.hash, st.predicted;
    }

    method InvalidatePassPredictionStatus()
      modifies this
      ensures Value() == CLEARED
    {
      windows, sweptAt, hash := NoWindows, None, None;
      predicted := Missing;
    }

    /** The decision and the invalidation that ride with write A. */
    method PrepareWriteA(s: Spec, sig: Signature, now: Instant) returns (sweepDue: bool)
      modifies this
      ensures Value() == Heartbeat(s, old(Value()), sig)
      ensures sweepDue == (Configured(s) && SweepDue(old(Value()), now, sig))
      ensures !sweepDue && Configured(s) ==>
        Value() == old(Value()) && hash == Some(sig) && sweptAt.Some? && now - SWEEP_INTERVAL < sweptAt.value <= now
    {
      sweepDue := Configured(s) && (hash != Some(sig) || sweptAt == None || sweptAt.value > now || now >= sweptAt.value + SWEEP_INTERVAL);
      if !Configured(s) {
        InvalidatePassPredictionStatus();
      } else if hash != Some(sig) {
        InvalidatePassPredictionStatus();
        predicted := Unknown;
      }
    }

    method PrepareWriteB(s: Spec, sig: Signature, signed: Reads, swept: Reads, end: SweepEnd, done: Instant)
      requires end != Cancelled
      modifies this
      ensures Value() == AfterSweep(s, old(Value()), sig, signed, swept, end, done)
    {
      if end == Succeeded {
        windows := Swept(s, signed, swept);
        predicted := True;
      } else {
        windows := NoWindows;
        predicted := False;
      }
      sweptAt := Some(done);
      hash := Some(sig);
    }
  }

  // ---- every interleaving ----------------------------------------------------------------------------------------

  datatype Object = Object(spec: Spec, status: Status)

  /** The reconcile in flight: before write A, or between write A and write B. */
  datatype Pending =
    | Idle
    | BeforeA(version: nat, read: Object, signed: Reads, sig: Signature, now: Instant)
    | BeforeB(version: nat, read: Object, signed: Reads, sig: Signature)

  /** `objects` holds every version of the SatelliteEphemeris, `snapshots` every state of the stations. */
  datatype World = World(objects: seq<Object>, snapshots: seq<Snapshot>, nextUid: nat, pending: Pending)

  datatype Action =
    | ChangeStation(name: string, change: Change)
    | EditSpec(spec: Spec)
    | Begin(readAt: nat, signed: Reads, now: Instant)     // read a (perhaps stale) version and digest its inputs
    | WriteA(accepted: bool)
    | Sweep(swept: Reads, end: SweepEnd, done: Instant, accepted: bool)   // sweep, then write B
    | EarlyReturn(readAt: nat)                            // no usable element sets: invalidate and write
    | Crash

  function Init(s: Spec): World {
    World([Object(s, CLEARED)], [map[]], 0, Idle)
  }

  /** An informer never shows an older state of a station than it has shown before in the same reconcile. */
  predicate NotBefore(later: Reads, earlier: Reads, names: seq<string>) {
    forall n | n in names :: n in later && n in earlier && (later[n].Some? && earlier[n].Some? ==> earlier[n].value <= later[n].value)
  }

  /** A sweep succeeds only over stations it could read. */
  predicate AllPresent(snapshots: seq<Snapshot>, r: Reads, names: seq<string>) {
    forall n | n in names :: n in r && r[n].Some? && r[n].value < |snapshots| && At(snapshots[r[n].value], n).Present?
  }

  predicate Enabled(w: World, a: Action) {
    match a
    case Begin(i, r, _) => w.pending.Idle? && i < |w.objects| && ReadsOf(r, w.objects[i].spec.stations, w.snapshots)
    case WriteA(_) => w.pending.BeforeA?
    case Sweep(r, end, _, _) =>
      && w.pending.BeforeB?
      && (end == Succeeded ==> AllPresent(w.snapshots, r, w.pending.read.spec.stations) && NotBefore(r, w.pending.signed, w.pending.read.spec.stations))
    case EarlyReturn(i) => w.pending.Idle? && i < |w.objects|
    case _ => true
  }

  /** Optimistic concurrency: a write is accepted only over the newest version. */
  predicate Current(w: World, version: nat) {
    version == |w.objects| - 1
  }

  function Store(w: World, o: Object): World {
    w.(objects := w.objects + [o])
  }

  function Step(w: World, a: Action): World
    requires w.objects != [] && w.snapshots != [] && Enabled(w, a)
  {
    match a
    case ChangeStation(n, c) =>
      var last := w.snapshots[|w.snapshots| - 1];
      w.(snapshots := w.snapshots + [last[n := Changed(At(last, n), c, w.nextUid)]], nextUid := w.nextUid + 1)
    case EditSpec(s) => Store(w, Object(s, w.objects[|w.objects| - 1].status))
    case Begin(i, r, now) =>
      var o := w.objects[i];
      w.(pending := BeforeA(i, o, r, Digest(o.spec, w.snapshots, r), now))
    case WriteA(accepted) =>
      var p := w.pending;
      if !accepted || !Current(w, p.version) then w.(pending := Idle)
      else
        var o := p.read.(status := Heartbeat(p.read.spec, p.read.status, p.sig));
        var due := Configured(p.read.spec) && SweepDue(p.read.status, p.now, p.sig);
        Store(w, o).(pending := if due then BeforeB(|w.objects|, o, p.signed, p.sig) else Idle)
    case Sweep(r, end, done, accepted) =>
      var p := w.pending;
      if end == Cancelled || !accepted || !Current(w, p.version) then w.(pending := Idle)
      else Store(w, p.read.(status := AfterSweep(p.read.spec, p.read.status, p.sig, p.signed, r, end, done))).(pending := Idle)
    case EarlyReturn(i) => if Current(w, i) then Store(w, w.objects[i].(status := CLEARED)) else w
    case Crash => w.(pending := Idle)
  }

  predicate Legal(w: World, trace: seq<Action>)
    decreases |trace|
  {
    trace == [] || (w.objects != [] && w.snapshots != [] && Enabled(w, trace[0]) && Legal(Step(w, trace[0]), trace[1..]))
  }

  function Run(w: World, trace: seq<Action>): World
    requires Legal(w, trace)
    decreases |trace|
  {
    if trace == [] then w else Run(Step(w, trace[0]), trace[1..])
  }

  // ---- no station state comes back ----------------------------------------------------------------------------------

  /** Nothing about `past` is ahead of `now`: same object ⇒ no later generation, no flag that was since cleared. */
  predicate Behind(past: Station, now: Station) {
    past.Present? && now.Present? && past.uid == now.uid ==>
      past.generation <= now.generation && (past.terminating ==> now.terminating)
  }

  predicate Known(s: Station, nextUid: nat) {
    s.Present? ==> s.uid < nextUid
  }

  /** UID, generation and the terminating flag never return to an earlier value once they have left it. */
  predicate NoReturn(snapshots: seq<Snapshot>, n: string) {
    forall i, j, k | 0 <= i <= j <= k < |snapshots| && At(snapshots[i], n).Present? && MarkOf(At(snapshots[i], n)) == MarkOf(At(snapshots[k], n)) ::
      At(snapshots[j], n) == At(snapshots[k], n)
  }

  predicate Orderly(snapshots: seq<Snapshot>, nextUid: nat, n: string) {
    && snapshots != []
    && (forall i | 0 <= i < |snapshots| :: Behind(At(snapshots[i], n), At(snapshots[|snapshots| - 1], n)) && Known(At(snapshots[i], n), nextUid))
    && NoReturn(snapshots, n)
  }

  /** A real change gives the station a mark it never had. */
  lemma ChangeIsNew(snapshots: seq<Snapshot>, nextUid: nat, n: string, c: Change, i: nat)
    requires Orderly(snapshots, nextUid, n) && i < |snapshots|
    ensures var cur := At(snapshots[|snapshots| - 1], n); var next := Changed(cur, c, nextUid);
      && Behind(At(snapshots[i], n), next) && Known(next, nextUid + 1) && Known(At(snapshots[i], n), nextUid + 1)
      && (next != cur && next.Present? ==> MarkOf(At(snapshots[i], n)) != MarkOf(next))
  {
    assert Behind(At(snapshots[i], n), At(snapshots[|snapshots| - 1], n)) && Known(At(snapshots[i], n), nextUid);
  }

  lemma SnapshotKeepsOrder(snapshots: seq<Snapshot>, nextUid: nat, n: string, name: string, c: Change)
    requires Orderly(snapshots, nextUid, n)
    ensures var last := snapshots[|snapshots| - 1];
      Orderly(snapshots + [last[name := Changed(At(last, name), c, nextUid)]], nextUid + 1, n)
  {
    var last := snapshots[|snapshots| - 1];
    var next := last[name := Changed(At(last, name), c, nextUid)];
    var more := snapshots + [next];
    forall i | 0 <= i < |snapshots| ensures more[i] == snapshots[i] && Behind(At(more[i], n), At(next, n)) && Known(At(more[i], n), nextUid + 1)
      && (At(next, n) != At(last, n) && At(next, n).Present? ==> MarkOf(At(more[i], n)) != MarkOf(At(next, n)))
    {
      ChangeIsNew(snapshots, nextUid, n, c, i);
      assert Behind(At(snapshots[i], n), At(last, n)) && Known(At(snapshots[i], n), nextUid);
    }
    assert Known(At(next, n), nextUid + 1) by { ChangeIsNew(snapshots, nextUid, n, c, |snapshots| - 1); }
    forall i, j, k | 0 <= i <= j <= k < |more| && At(more[i], n).Present? && MarkOf(At(more[i], n)) == MarkOf(At(more[k], n))
      ensures At(more[j], n) == At(more[k], n)
    {
      StillNoReturn(snapshots, next, n, i, j, k);
    }
  }

  lemma StillNoReturn(snapshots: seq<Snapshot>, next: Snapshot, n: string, i: nat, j: nat, k: nat)
    requires snapshots != [] && NoReturn(snapshots, n) && i <= j <= k <= |snapshots|
    requires At(next, n) != At(snapshots[|snapshots| - 1], n) && At(next, n).Present? ==>
      forall x | 0 <= x < |snapshots| :: MarkOf(At(snapshots[x], n)) != MarkOf(At(next, n))
    requires var more := snapshots + [next]; At(more[i], n).Present? && MarkOf(At(more[i], n)) == MarkOf(At(more[k], n))
    ensures var more := snapshots + [next]; At(more[j], n) == At(more[k], n)
  {
    var last := |snapshots| - 1;
    if k <= last {
      assert At(snapshots[j], n) == At(snapshots[k], n);
    } else if i <= last {
      assert MarkOf(At(snapshots[i], n)) == MarkOf(At(next, n));
      assert At(next, n) == At(snapshots[last], n);
      if j <= last {
        assert At(snapshots[j], n) == At(snapshots[last], n);
      }
    }
  }

  // ---- what every reachable world satisfies ---------------------------------------------------------------------------

  /** Windows are shown exactly under a True condition; a hash and a sweep time exactly once a sweep has ended. */
  predicate Shaped(st: Status) {
    && (st.windows.Swept? <==> st.predicted == True)
    && (st.hash.Some? <==> st.predicted == True || st.predicted == False) && (st.sweptAt.Some? <==> st.hash.Some?)
  }

  /** A True condition stands over windows whose hash is the signature read before their sweep. */
  predicate Backed(snapshots: seq<Snapshot>, st: Status) {
    st.predicted == True ==>
      && st.windows.Swept?
      && var names := st.windows.spec.stations;
      && ReadsOf(st.windows.signed, names, snapshots)
      && st.hash == Some(Digest(st.windows.spec, snapshots, st.windows.signed))
      && AllPresent(snapshots, st.windows.swept, names) && NotBefore(st.windows.swept, st.windows.signed, names)
  }

  predicate PendingOk(w: World) {
    match w.pending
    case Idle => true
    case BeforeA(v, o, r, sig, _) => v < |w.objects| && w.objects[v] == o && ReadsOf(r, o.spec.stations, w.snapshots) && sig == Digest(o.spec, w.snapshots, r)
    case BeforeB(v, o, r, sig) => v < |w.objects| && w.objects[v] == o && ReadsOf(r, o.spec.stations, w.snapshots) && sig == Digest(o.spec, w.snapshots, r)
  }

  ghost predicate Inv(w: World) {
    && w.objects != [] && w.snapshots != []
    && (forall n :: Orderly(w.snapshots, w.nextUid, n))
    && (forall i | 0 <= i < |w.objects| :: Backed(w.snapshots, w.objects[i].status) && Shaped(w.objects[i].status))
    && PendingOk(w)
  }

  lemma ReadMarkLater(snapshots: seq<Snapshot>, next: Snapshot, r: Reads, n: string)
    requires n in r && (r[n].Some? ==> r[n].value < |snapshots|)
    ensures ReadMark(snapshots + [next], r, n) == ReadMark(snapshots, r, n)
  {
  }

  lemma DigestLater(s: Spec, snapshots: seq<Snapshot>, next: Snapshot, r: Reads)
    requires ReadsOf(r, s.stations, snapshots)
    ensures ReadsOf(r, s.stations, snapshots + [next]) && Digest(s, snapshots + [next], r) == Digest(s, snapshots, r)
  {
    forall n | n in s.stations ensures ReadMark(snapshots + [next], r, n) == ReadMark(snapshots, r, n) {
      ReadMarkLater(snapshots, next, r, n);
    }
  }

  lemma BackedLater(snapshots: seq<Snapshot>, next: Snapshot, st: Status)
    requires Backed(snapshots, st)
    ensures Backed(snapshots + [next], st)
  {
    if st.predicted == True {
      DigestLater(st.windows.spec, snapshots, next, st.windows.signed);
      forall n | n in st.windows.spec.stations ensures var r := st.windows.swept;
        n in r && r[n].Some? && r[n].value < |snapshots + [next]| && At((snapshots + [next])[r[n].value], n).Present?
      {
        assert (snapshots + [next])[st.windows.swept[n].value] == snapshots[st.windows.swept[n].value];
      }
    }
  }

  lemma StationStep(w: World, name: string, c: Change)
    requires Inv(w)
    ensures Inv(Step(w, ChangeStation(name, c)))
  {
    var last := w.snapshots[|w.snapshots| - 1];
    var next := last[name := Changed(At(last, name), c, w.nextUid)];
    var more, uid := w.snapshots + [next], w.nextUid + 1;
    forall n ensures Orderly(more, uid, n) { SnapshotKeepsOrder(w.snapshots, w.nextUid, n, name, c); }
    forall i | 0 <= i < |w.objects| ensures Backed(w.snapshots + [next], w.objects[i].status) {
      BackedLater(w.snapshots, next, w.objects[i].status);
    }
    if !w.pending.Idle? {
      DigestLater(w.pending.read.spec, w.snapshots, next, w.pending.signed);
    }
  }

  lemma StepInv(w: World, a: Action)
    requires Inv(w) && Enabled(w, a)
    ensures Inv(Step(w, a))
  {
    if a.ChangeStation? {
      StationStep(w, a.name, a.change);
    } else if a.WriteA? {
      assert Backed(w.snapshots, w.pending.read.status) && Shaped(w.pending.read.status);
    } else if a.EditSpec? {
      assert Backed(w.snapshots, w.objects[|w.objects| - 1].status) && Shaped(w.objects[|w.objects| - 1].status);
    }
  }

  lemma InitInv(s: Spec)
    ensures Inv(Init(s))
  {
  }

  lemma {:induction false} RunInv(w: World, trace: seq<Action>)
    requires Inv(w) && Legal(w, trace)
    ensures Inv(Run(w, trace))
    decreases |trace|
  {
    if trace != [] {
      StepInv(w, trace[0]);
      RunInv(Step(w, trace[0]), trace[1..]);
    }
  }

  // ---- the theorem --------------------------------------------------------------------------------------------------------

  /** Same pass inputs, up to the order of stations and NORADs and repeated NORADs. */
  predicate SameInputs(a: Spec, b: Spec) {
    && a.minElevation == b.minElevation && a.horizon == b.horizon && a.source == b.source
    && (set x | x in a.norad) == (set x | x in b.norad) && multiset(a.stations) == multiset(b.stations)
  }

  predicate NoAbsentMark(sig: Signature) {
    forall n | n in sig.marks :: sig.marks[n] != AbsentMark
  }

  lemma EqualDigests(a: Spec, ra: Reads, b: Spec, rb: Reads, snapshots: seq<Snapshot>, n: string)
    requires ReadsOf(ra, a.stations, snapshots) && ReadsOf(rb, b.stations, snapshots)
    requires Digest(a, snapshots, ra) == Digest(b, snapshots, rb) && n in b.stations
    ensures n in a.stations && ReadMark(snapshots, ra, n) == ReadMark(snapshots, rb, n)
  {
    assert n in multiset(b.stations);
    assert Digest(a, snapshots, ra).marks[n] == ReadMark(snapshots, ra, n);
    assert Digest(b, snapshots, rb).marks[n] == ReadMark(snapshots, rb, n);
  }

  /** The sweep saw the station exactly as it is now. */
  predicate SweptAsNow(snapshots: seq<Snapshot>, win: Windows, n: string)
    requires snapshots != [] && win.Swept?
  {
    && n in win.swept && win.swept[n].Some? && win.swept[n].value < |snapshots|
    && At(snapshots[win.swept[n].value], n) == At(snapshots[|snapshots| - 1], n)
  }

  /** Under the live signature, a station was swept as it is now exactly when it is there at all. */
  lemma SweptFromLive(snapshots: seq<Snapshot>, nextUid: nat, o: Object, n: string)
    requires Backed(snapshots, o.status) && Orderly(snapshots, nextUid, n)
    requires o.status.predicted == True && o.status.hash == Some(LiveSignature(o.spec, snapshots)) && n in o.spec.stations
    ensures SweptAsNow(snapshots, o.status.windows, n) <==> At(snapshots[|snapshots| - 1], n).Present?
  {
    var win := o.status.windows;
    var live := LiveReads(o.spec, snapshots);
    EqualDigests(win.spec, win.signed, o.spec, live, snapshots, n);
    assert ReadMark(snapshots, live, n) == MarkOf(At(snapshots[|snapshots| - 1], n));
    if At(snapshots[|snapshots| - 1], n).Present? {
      assert At(snapshots[win.signed[n].value], n).Present?;
    }
  }

  predicate ClaimsLive(w: World)
    requires w.objects != [] && w.snapshots != []
  {
    var o := w.objects[|w.objects| - 1];
    o.status.predicted == True && o.status.hash == Some(LiveSignature(o.spec, w.snapshots))
  }

  /** Windows of the live inputs, in which each station was swept as it is now exactly when it exists now. */
  ghost predicate ShowsLive(snapshots: seq<Snapshot>, o: Object)
    requires snapshots != []
  {
    && o.status.windows.Swept? && SameInputs(o.status.windows.spec, o.spec)
    && forall n | n in o.spec.stations ::
         SweptAsNow(snapshots, o.status.windows, n) <==> At(snapshots[|snapshots| - 1], n).Present?
  }

  ghost predicate TrueIsLive(w: World) {
    && w.objects != [] && w.snapshots != [] && Shaped(w.objects[|w.objects| - 1].status)
    && (ClaimsLive(w) ==> ShowsLive(w.snapshots, w.objects[|w.objects| - 1]))
  }

  lemma InvMeansLive(w: World)
    requires Inv(w)
    ensures TrueIsLive(w)
  {
    var o := w.objects[|w.objects| - 1];
    assert Backed(w.snapshots, o.status);
    if ClaimsLive(w) {
      assert SameInputs(o.status.windows.spec, o.spec);
      forall n | n in o.spec.stations ensures SweptAsNow(w.snapshots, o.status.windows, n) <==> At(w.snapshots[|w.snapshots| - 1], n).Present? {
        assert Orderly(w.snapshots, w.nextUid, n);
        SweptFromLive(w.snapshots, w.nextUid, o, n);
      }
    }
  }

  /**
   In every persisted status of every run windows are shown exactly under PassesPredicted=True, and True with a stored hash
   equal to the live signature means:
   the windows were swept from the live pass inputs, and each station was swept exactly as it is now if and only if
   it exists now.
   */
  lemma TrueMeansLiveExactly(s: Spec, trace: seq<Action>)
    requires Legal(Init(s), trace)
    ensures TrueIsLive(Run(Init(s), trace))
  {
    InitInv(s);
    RunInv(Init(s), trace);
    InvMeansLive(Run(Init(s), trace));
  }

  /** So without an "absent" mark in the signature, the windows are those of every station exactly as it is now. */
  lemma TrueMeansLive(s: Spec, trace: seq<Action>)
    requires Legal(Init(s), trace)
    ensures var w := Run(Init(s), trace);
      && w.objects != [] && w.snapshots != []
      && var o := w.objects[|w.objects| - 1];
      (ClaimsLive(w) && NoAbsentMark(o.status.hash.value) ==>
         && o.status.windows.Swept? && SameInputs(o.status.windows.spec, o.spec)
         && forall n | n in o.spec.stations :: SweptAsNow(w.snapshots, o.status.windows, n))
  {
    TrueMeansLiveExactly(s, trace);
    var w := Run(Init(s), trace);
    var o := w.objects[|w.objects| - 1];
    if ClaimsLive(w) && NoAbsentMark(o.status.hash.value) {
      forall n | n in o.spec.stations ensures SweptAsNow(w.snapshots, o.status.windows, n) {
        MarkIsLive(o.spec, w.snapshots, n);
      }
    }
  }

  lemma MarkIsLive(s: Spec, snapshots: seq<Snapshot>, n: string)
    requires snapshots != [] && n in s.stations
    ensures n in LiveSignature(s, snapshots).marks && LiveSignature(s, snapshots).marks[n] == MarkOf(At(snapshots[|snapshots| - 1], n))
  {
    assert LiveSignature(s, snapshots).marks[n] == ReadMark(snapshots, LiveReads(s, snapshots), n);
  }

  /** Signatures are equal exactly when the pass inputs are, up to order, and every station shows the same mark. */
  lemma DigestExactly(a: Spec, ra: Reads, b: Spec, rb: Reads, snapshots: seq<Snapshot>)
    requires ReadsOf(ra, a.stations, snapshots) && ReadsOf(rb, b.stations, snapshots)
    ensures Digest(a, snapshots, ra) == Digest(b, snapshots, rb) <==>
      SameInputs(a, b) && forall n | n in a.stations && n in b.stations :: ReadMark(snapshots, ra, n) == ReadMark(snapshots, rb, n)
  {
    if multiset(a.stations) == multiset(b.stations) {
      forall n ensures n in a.stations <==> n in b.stations {
        assert n in multiset(a.stations) <==> n in multiset(b.stations);
      }
    }
    if Digest(a, snapshots, ra) == Digest(b, snapshots, rb) {
      forall n | n in a.stations && n in b.stations ensures ReadMark(snapshots, ra, n) == ReadMark(snapshots, rb, n) {
        EqualDigests(a, ra, b, rb, snapshots, n);
      }
    }
  }

  // ---- when a reconcile sweeps ------------------------------------------------------------------------------------------

  /** The newest version, read and digested, and write A accepted. */
  function Heartbeaten(w: World, r: Reads, now: Instant): World
    requires w.objects != [] && w.snapshots != [] && Enabled(w, Begin(|w.objects| - 1, r, now))
  {
    Step(Step(w, Begin(|w.objects| - 1, r, now)), WriteA(true))
  }

  /**
   A heartbeat with stations configured goes on to sweep exactly unless the stored signature is the one just read and the
   last sweep is under 15 minutes old; then it leaves the pass status alone. A changed signature clears it to Unknown.
   */
  lemma SweepsExactlyWhenDue(w: World, r: Reads, now: Instant)
    requires w.objects != [] && w.snapshots != [] && Enabled(w, Begin(|w.objects| - 1, r, now)) && Configured(w.objects[|w.objects| - 1].spec)
    ensures var o := w.objects[|w.objects| - 1]; var v := Heartbeaten(w, r, now); var sig := Digest(o.spec, w.snapshots, r);
      && |v.objects| == |w.objects| + 1 && v.objects[|w.objects|].spec == o.spec
      && (v.pending.Idle? <==> o.status.hash == Some(sig) && o.status.sweptAt.Some? && o.status.sweptAt.value <= now < o.status.sweptAt.value + 15 * MINUTE)
      && v.objects[|w.objects|].status == if o.status.hash == Some(sig) then o.status else Status(NoWindows, None, None, Unknown)
  {
  }

  /** Without stations a heartbeat never sweeps and leaves no trace of passes. */
  lemma UnconfiguredClears(w: World, r: Reads, now: Instant)
    requires w.objects != [] && w.snapshots != [] && Enabled(w, Begin(|w.objects| - 1, r, now)) && w.objects[|w.objects| - 1].spec.stations == []
    ensures var v := Heartbeaten(w, r, now);
      v.pending.Idle? && |v.objects| == |w.objects| + 1 && v.objects[|w.objects|].status == Status(NoWindows, None, None, Missing)
  {
  }

  /** Undisturbed, a due sweep over stations that are all there ends in True under the live signature, stamped with its end. */
  lemma UndisturbedSweep(w: World, now: Instant, done: Instant)
    requires Inv(w) && w.pending.Idle? && Configured(w.objects[|w.objects| - 1].spec)
    requires var o := w.objects[|w.objects| - 1];
      && SweepDue(o.status, now, LiveSignature(o.spec, w.snapshots))
      && forall n | n in o.spec.stations :: At(w.snapshots[|w.snapshots| - 1], n).Present?
    ensures var o := w.objects[|w.objects| - 1]; var live := LiveReads(o.spec, w.snapshots);
      && Enabled(w, Begin(|w.objects| - 1, live, now))
      && var v := Heartbeaten(w, live, now);
      && Enabled(v, Sweep(live, Succeeded, done, true))
      && var u := Step(v, Sweep(live, Succeeded, done, true));
      && u.objects != [] && u.snapshots != [] && ClaimsLive(u) && u.objects[|u.objects| - 1].spec == o.spec
      && u.objects[|u.objects| - 1].status.windows == Swept(o.spec, live, live) && u.objects[|u.objects| - 1].status.sweptAt == Some(done)
  {
  }

  // ---- and with an absent mark it may not -----------------------------------------------------------------------------------

  const LONE := Spec(["gs"], "10", 0, [], "u")

  function LoneSignature(m: Mark): Signature {
    Signature("10", 0, {}, "u", multiset{"gs"}, map["gs" := m])
  }

  lemma LoneDigest(snapshots: seq<Snapshot>, r: Reads)
    requires "gs" in r && (r["gs"].Some? ==> r["gs"].value < |snapshots|)
    ensures ReadsOf(r, LONE.stations, snapshots) && Digest(LONE, snapshots, r) == LoneSignature(ReadMark(snapshots, r, "gs"))
  {
  }

  function Gs(i: nat): Reads {
    map["gs" := Some(i)]
  }

  /** Digest, write A, the station appears, sweep and write B, the station disappears. */
  function AbaTrace(): seq<Action> {
    [Begin(0, Gs(0), 0), WriteA(true), ChangeStation("gs", Create("Taipei")), Sweep(Gs(1), Succeeded, 0, true), ChangeStation("gs", Remove)]
  }

  const TAIPEI := Present(0, 1, false, "Taipei")

  /** The world after write A of the trace. */
  function AbaAfterA(): World {
    var o := Object(LONE, CLEARED.(predicted := Unknown));
    World([Object(LONE, CLEARED), o], [map[]], 0, BeforeB(1, o, Gs(0), LoneSignature(AbsentMark)))
  }

  lemma AbaBegins()
    ensures Enabled(Init(LONE), Begin(0, Gs(0), 0))
    ensures Enabled(Step(Init(LONE), Begin(0, Gs(0), 0)), WriteA(true))
    ensures Step(Step(Init(LONE), Begin(0, Gs(0), 0)), WriteA(true)) == AbaAfterA()
  {
    LoneDigest([map[]], Gs(0));
  }

  lemma AbaSweeps(w: World)
    requires w == AbaAfterA().(snapshots := [map[], map["gs" := TAIPEI]], nextUid := 1)
    ensures Enabled(w, Sweep(Gs(1), Succeeded, 0, true))
    ensures Step(w, Sweep(Gs(1), Succeeded, 0, true))
      == World(w.objects + [Object(LONE, Status(Swept(LONE, Gs(0), Gs(1)), Some(0), Some(LoneSignature(AbsentMark)), True))], w.snapshots, 1, Idle)
  {
    assert At(w.snapshots[1], "gs") == TAIPEI;
  }

  predicate Ready(w: World, a: Action) {
    w.objects != [] && w.snapshots != [] && Enabled(w, a)
  }

  lemma RunFive(w: World, w1: World, w2: World, w3: World, w4: World, w5: World, a: Action, b: Action, c: Action, d: Action, e: Action)
    requires Ready(w, a) && w1 == Step(w, a)
    requires Ready(w1, b) && w2 == Step(w1, b)
    requires Ready(w2, c) && w3 == Step(w2, c)
    requires Ready(w3, d) && w4 == Step(w3, d)
    requires Ready(w4, e) && w5 == Step(w4, e)
    ensures Legal(w, [a, b, c, d, e]) && Run(w, [a, b, c, d, e]) == w5
  {
    assert Legal(w5, []);
    assert [e][1..] == [] && Legal(w4, [e]) && Run(w4, [e]) == w5;
    assert [d, e][1..] == [e] && Legal(w3, [d, e]) && Run(w3, [d, e]) == w5;
    assert [c, d, e][1..] == [d, e] && Legal(w2, [c, d, e]) && Run(w2, [c, d, e]) == w5;
    assert [b, c, d, e][1..] == [c, d, e] && Legal(w1, [b, c, d, e]) && Run(w1, [b, c, d, e]) == w5;
    assert [a, b, c, d, e][1..] == [b, c, d, e];
  }

  /** The last world of the trace: the station is gone, its windows are not. */
  function AbaEnd(): World {
    World(AbaAfterA().objects + [Object(LONE, Status(Swept(LONE, Gs(0), Gs(1)), Some(0), Some(LoneSignature(AbsentMark)), True))],
          [map[], map["gs" := TAIPEI], map["gs" := Absent]], 2, Idle)
  }

  lemma AbaRuns()
    ensures Legal(Init(LONE), AbaTrace()) && Run(Init(LONE), AbaTrace()) == AbaEnd()
  {
    AbaBegins();
    var w1 := Step(Init(LONE), Begin(0, Gs(0), 0));
    var w2 := AbaAfterA();
    var w3 := Step(w2, ChangeStation("gs", Create("Taipei")));
    assert w3.snapshots == [map[], map["gs" := TAIPEI]];
    AbaSweeps(w3);
    var w4 := Step(w3, Sweep(Gs(1), Succeeded, 0, true));
    var w5 := Step(w4, ChangeStation("gs", Remove));
    assert At(w4.snapshots[1], "gs") == TAIPEI;
    assert w5.snapshots[2] == map["gs" := Absent];
    RunFive(Init(LONE), w1, w2, w3, w4, w5, Begin(0, Gs(0), 0), WriteA(true), ChangeStation("gs", Create("Taipei")),
            Sweep(Gs(1), Succeeded, 0, true), ChangeStation("gs", Remove));
  }

  /**
   A station that is absent when the inputs are digested, exists during the sweep, and is gone again: the stored
   hash equals the live signature, the condition is True, and the windows are those of a station that no longer exists.
   */
  lemma AbsentMarkAllowsAba()
    ensures Legal(Init(LONE), AbaTrace())
    ensures var w := Run(Init(LONE), AbaTrace());
      && w.objects != [] && w.snapshots != []
      && var o := w.objects[|w.objects| - 1];
      && o.status.predicted == True && o.spec == LONE && o.status.hash == Some(LiveSignature(LONE, w.snapshots))
      && o.status.windows.Swept? && !SweptAsNow(w.snapshots, o.status.windows, "gs")
  {
    AbaRuns();
    var s := AbaEnd().snapshots;
    assert At(s[2], "gs") == Absent && At(s[1], "gs") == TAIPEI;
    LoneDigest(s, LiveReads(LONE, s));
  }
}

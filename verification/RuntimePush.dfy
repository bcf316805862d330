/**
 From an element set to a frame on the wire: the producer (Reconcile in
 internal/controller/satelliteephemeris_controller.go), the status between them, and the consumer's gates
 (pushRuntimeEphemeris in internal/controller/ntncellconfig_controller.go).
 */
module RuntimePush {
  import opened Prelude
  import opened Elements
  import opened Propagation
  import Freshness
  import Heartbeat
  import OmmCache
  import OmmPersist

  datatype Spec = Spec(source: OmmCache.SourceKey, norad: seq<int>)

  /** What propagationInputHash digests: source and selector, the selector up to order and repetition. */
  datatype InputKey = InputKey(source: OmmCache.SourceKey, norad: set<int>)

  function KeyOf(s: Spec): InputKey {
    InputKey(s.source, set x | x in s.norad)
  }

  datatype Status = Status(states: seq<State>, hash: Option<InputKey>)
  datatype Eph = Eph(spec: Spec, status: Status)

  // ---- the consumer's gates ----------------------------------------------------------------------------------

  datatype Verdict = InputsStale | Ambiguous | PayloadMissing | EphemerisStale | Deliver(state: State)

  function Norads(states: seq<State>): set<int> {
    set s | s in states :: s.norad
  }

  /** selectPropagatedState: the first state of the wanted satellite, or simply the first. */
  function Select(states: seq<State>, wanted: Option<int>): Option<State> {
    if states == [] then None
    else if wanted == None || states[0].norad == wanted.value then Some(states[0])
    else Select(states[1..], wanted)
  }

  function SourceInstant(s: State): Instant {
    s.sourceMs * MILLISECOND
  }

  /** Every gate before the deduplication, in order. */
  function Gate(eph: Eph, wanted: Option<int>, now: Instant): Verdict {
    if eph.status.hash != Some(KeyOf(eph.spec)) then InputsStale
    else if wanted == None && |Norads(eph.status.states)| > 1 then Ambiguous
    else
      var s := Select(eph.status.states, wanted);
      if s == None then PayloadMissing
      else if !Heartbeat.Clears(s.value.epochMs, now) then EphemerisStale
      else if !Freshness.Plausible(now, SourceInstant(s.value)) || !Freshness.Fresh(now, SourceInstant(s.value)) then EphemerisStale
      else Deliver(s.value)
  }

  method UniquePropagatedNorads(states: seq<State>) returns (n: nat)
    ensures n == |Norads(states)|
  {
    var seen: set<int> := {};
    for i := 0 to |states|
      invariant seen == Norads(states[..i])
    {
      NoradsExtend(states, i);
      seen := seen + {states[i].norad};
    }
    assert states[..|states|] == states;
    return |seen|;
  }

  lemma NoradsExtend(states: seq<State>, i: nat)
    requires i < |states|
    ensures Norads(states[..i + 1]) == Norads(states[..i]) + {states[i].norad}
  {
    assert states[..i + 1] == states[..i] + [states[i]];
    assert states[i] in states[..i + 1];
  }

  method SelectPropagatedState(states: seq<State>, wanted: Option<int>) returns (r: Option<State>)
    ensures r == Select(states, wanted)
  {
    if |states| == 0 {
      return None;
    }
    if wanted == None {
      return Some(states[0]);
    }
    for i := 0 to |states|
      invariant Select(states[i..], wanted) == Select(states, wanted)
    {
      if states[i].norad == wanted.value {
        return Some(states[i]);
      }
      assert states[i..][1..] == states[i + 1..];
    }
    return None;
  }

  method CheckGates(eph: Eph, wanted: Option<int>, now: Instant) returns (r: Verdict)
    ensures r == Gate(eph, wanted, now)
  {
    if eph.status.hash != Some(KeyOf(eph.spec)) {
      return InputsStale;
    }
    if wanted == None {
      var n := UniquePropagatedNorads(eph.status.states);
      if n > 1 {
        return Ambiguous;
      }
    }
    var state := SelectPropagatedState(eph.status.states, wanted);
    if state == None {
      return PayloadMissing;
    }
    if state.value.epochMs <= Heartbeat.Millis(now + Heartbeat.EPOCH_SKEW_MARGIN) {
      return EphemerisStale;
    }
    var src := SourceInstant(state.value);
    if !Freshness.Plausible(now, src) {
      return EphemerisStale;
    }
    if !Freshness.Fresh(now, src) {
      return EphemerisStale;
    }
    return Deliver(state.value);
  }

  lemma {:induction false} SelectedIsWanted(states: seq<State>, wanted: Option<int>)
    ensures Select(states, wanted).Some? ==> Select(states, wanted).value in states
    ensures Select(states, wanted).Some? && wanted.Some? ==> Select(states, wanted).value.norad == wanted.value
    ensures Select(states, wanted) == None ==> forall s | s in states :: wanted.Some? && s.norad != wanted.value
  {
    if states != [] {
      SelectedIsWanted(states[1..], wanted);
      assert states == [states[0]] + states[1..];
    }
  }

  lemma TwoMembers(s: set<int>, a: int, b: int)
    requires a in s && b in s
    ensures a == b || |s| >= 2
  {
    assert a != b ==> |s - {a, b}| == |s| - 2;
  }

  lemma OnlyOneNorad(states: seq<State>, s: State)
    requires s in states && |Norads(states)| <= 1
    ensures forall x | x in states :: x.norad == s.norad
  {
    forall x | x in states ensures x.norad == s.norad {
      assert x.norad in Norads(states) && s.norad in Norads(states);
      TwoMembers(Norads(states), x.norad, s.norad);
    }
  }

  /** What a delivered state satisfies, by the gates alone. */
  predicate Admitted(eph: Eph, wanted: Option<int>, now: Instant, s: State) {
    && eph.status.hash == Some(KeyOf(eph.spec)) && s in eph.status.states
    && (wanted.Some? ==> s.norad == wanted.value)
    && (wanted.None? ==> forall x | x in eph.status.states :: x.norad == s.norad)
    && s.epochMs > Heartbeat.Millis(now + Heartbeat.EPOCH_SKEW_MARGIN)
    && SourceInstant(s) <= now + Freshness.MAX_FUTURE_SKEW && now - SourceInstant(s) <= Freshness.MAX_EPOCH_AGE
  }

  lemma DeliveredIsAdmitted(eph: Eph, wanted: Option<int>, now: Instant)
    requires Gate(eph, wanted, now).Deliver?
    ensures Admitted(eph, wanted, now, Gate(eph, wanted, now).state)
  {
    SelectedIsWanted(eph.status.states, wanted);
    if wanted == None {
      OnlyOneNorad(eph.status.states, Gate(eph, wanted, now).state);
    }
  }

  /** Two states of different satellites. */
  ghost predicate Several(states: seq<State>) {
    exists a, b | a in states && b in states :: a.norad != b.norad
  }

  lemma SeveralExactly(states: seq<State>)
    ensures |Norads(states)| > 1 <==> Several(states)
  {
    if Several(states) {
      var a, b :| a in states && b in states && a.norad != b.norad;
      TwoMembers(Norads(states), a.norad, b.norad);
    } else if states != [] {
      assert states[0] in states;
      forall x | x in states ensures x.norad == states[0].norad {}
      assert Norads(states) == {states[0].norad};
    }
  }

  /**
   Which gate closes, in order: other inputs than the spec's; no satellite asked for and several there; none of the one
   asked for; an epoch less than ten seconds ahead, or a source epoch over a day ahead or over seven days old.
   */
  lemma VerdictExactly(eph: Eph, wanted: Option<int>, now: Instant)
    ensures var g, states := Gate(eph, wanted, now), eph.status.states; var s := Select(states, wanted);
      && (g.InputsStale? <==> eph.status.hash != Some(KeyOf(eph.spec)))
      && (g.Ambiguous? <==> !g.InputsStale? && wanted == None && Several(states))
      && (g.PayloadMissing? <==> !g.InputsStale? && forall x | x in states :: wanted.Some? && x.norad != wanted.value)
      && (g.EphemerisStale? || g.Deliver? ==>
            && s.Some?
            && (g.Deliver? <==> s.value.epochMs > (now + 10 * SECOND) / MILLISECOND
                                && s.value.sourceMs * MILLISECOND <= now + 24 * HOUR && now - s.value.sourceMs * MILLISECOND <= 7 * 24 * HOUR)
            && (g.Deliver? ==> g.state == s.value))
  {
    SelectedIsWanted(eph.status.states, wanted);
    SeveralExactly(eph.status.states);
    if wanted == None && Several(eph.status.states) {
      assert eph.status.states != [];
    }
  }

  // ---- producer and consumer together -----------------------------------------------------------------------------

  /** The parts of the system that stay fixed: codec, propagator and the object's UID. */
  datatype Context = Context(codec: OmmPersist.Codec, sgp4: Sgp4, uid: nat)

  /** One frame: the version of the object it was taken from, and what went out. */
  datatype Frame = Frame(version: nat, wanted: Option<int>, at: Instant, state: State)

  datatype World = World(objects: seq<Eph>, cache: Option<OmmCache.Entry>, held: Option<OmmPersist.Object>, legacy: Option<OmmPersist.Object>,
                         fetches: seq<OmmPersist.Fetch>, frames: seq<Frame>)

  datatype Action =
    | Reconcile(readAt: nat, request: OmmCache.Request, canonical: seq<Omm>, now: Instant, migrated: bool, persisted: bool, accepted: bool)
    | EditSpec(spec: Spec)
    | Restart
    | Corrupt(data: string)
    | Push(version: nat, wanted: Option<int>, at: Instant, suppressed: bool, sent: bool)

  /** `before` are the fetches of an older version of the operator, `legacy` the cache object it left behind. */
  function Init(s: Spec, before: seq<OmmPersist.Fetch>, legacy: Option<OmmPersist.Object>): World {
    World([Eph(s, Status([], None))], None, None, legacy, before, [])
  }

  /** acquireOMMs first hydrates a cold cache from the ConfigMap. */
  function Warmed(c: Context, w: World, s: Spec): Option<OmmCache.Entry> {
    OmmCache.Warm(w.cache, OmmPersist.Offered(c.codec, w.held, w.legacy, s.source, c.uid))
  }

  ghost predicate Enabled(c: Context, w: World, a: Action) {
    match a
    case Reconcile(i, r, canonical, _, _, _, _) =>
      && i < |w.objects| && r.source == w.objects[i].spec.source && r.uid == c.uid
      && (r.upstream.Fetched? ==> OmmPersist.AllValid(c.codec, r.upstream.payload.omms))
      && var outcome := OmmCache.OutcomeOf(Warmed(c, w, w.objects[i].spec), r);
      (outcome.Usable? ==> Canonical(canonical, OmmPersist.Propagated(outcome.payload.omms, w.objects[i].spec.norad)))
    case Push(v, _, _, _, _) => v < |w.objects|
    case _ => w.objects != []
  }

  /** Did this reconcile store a payload of its own? */
  predicate Stores(warm: Option<OmmCache.Entry>, r: OmmCache.Request) {
    OmmCache.Contacts(warm, r) && r.upstream.Fetched? && !OmmCache.Confirms(warm, r)
  }

  function FetchOf(c: Context, s: Spec, r: OmmCache.Request): OmmPersist.Fetch
    requires r.upstream.Fetched?
  {
    OmmPersist.Fetch(c.uid, s.source, s.norad, r.upstream.payload.omms, r.upstream.payload.fetchedAt)
  }

  /** The status a reconcile writes: new states under the current inputs, or the old ones on an early return. */
  function StatusAfter(c: Context, e: Eph, warm: Option<OmmCache.Entry>, r: OmmCache.Request, canonical: seq<Omm>, now: Instant): Status {
    if OmmCache.OutcomeOf(warm, r).Usable?
    then Status(Scan(c.sgp4, canonical, now, now + Heartbeat.EPOCH_LEAD).states, Some(KeyOf(e.spec)))
    else e.status
  }

  ghost function Step(c: Context, w: World, a: Action): World
    requires Enabled(c, w, a)
  {
    match a
    case Reconcile(i, r, canonical, now, migrated, persisted, accepted) =>
      var e := w.objects[i];
      var held := if w.cache.Some? then w.held else OmmPersist.Forwarded(c.codec, w.held, w.legacy, e.spec.source, c.uid, migrated);
      var warm := Warmed(c, w, e.spec);
      var stored := Stores(warm, r);
      w.(cache := OmmCache.CacheAfter(warm, r),
         fetches := if stored then w.fetches + [FetchOf(c, e.spec, r)] else w.fetches,
         held := if stored then OmmPersist.Persisted(c.codec, held, FetchOf(c, e.spec, r), persisted) else held,
         objects := if accepted && i == |w.objects| - 1 then w.objects + [e.(status := StatusAfter(c, e, warm, r, canonical, now))] else w.objects)
    case EditSpec(s) => w.(objects := w.objects + [w.objects[|w.objects| - 1].(spec := s)])
    case Restart => w.(cache := None)
    case Corrupt(data) => w.(held := OmmPersist.Damaged(w.held, data))
    case Push(v, wanted, at, suppressed, sent) =>
      var verdict := Gate(w.objects[v], wanted, at);
      if verdict.Deliver? && !suppressed && sent then w.(frames := w.frames + [Frame(v, wanted, at, verdict.state)]) else w
  }

  /** A reconcile without element sets, accepted or not, leaves the states and their input hash as they were. */
  lemma EarlyReturnKeepsTheStates(c: Context, w: World, a: Action)
    requires Enabled(c, w, a) && a.Reconcile? && !OmmCache.OutcomeOf(Warmed(c, w, w.objects[a.readAt].spec), a.request).Usable?
    ensures var v := Step(c, w, a); v.objects != [] && v.objects[|v.objects| - 1] == w.objects[|w.objects| - 1]
  {
  }

  ghost predicate Legal(c: Context, w: World, trace: seq<Action>)
    decreases |trace|
  {
    trace == [] || (Enabled(c, w, trace[0]) && Legal(c, Step(c, w, trace[0]), trace[1..]))
  }

  ghost function Run(c: Context, w: World, trace: seq<Action>): World
    requires Legal(c, w, trace)
    decreases |trace|
  {
    if trace == [] then w else Run(c, Step(c, w, trace[0]), trace[1..])
  }

  // ---- provenance ---------------------------------------------------------------------------------------------------

  /** The element set was fetched from that source. */
  ghost predicate Traced(fetches: seq<OmmPersist.Fetch>, source: OmmCache.SourceKey, o: Omm) {
    exists f | f in fetches :: f.source == source && o in f.omms
  }

  ghost predicate AllTraced(fetches: seq<OmmPersist.Fetch>, source: OmmCache.SourceKey, omms: seq<Omm>) {
    forall i | 0 <= i < |omms| :: Traced(fetches, source, omms[i])
  }

  /** The state was propagated from an element set of that source which the selector admits. */
  ghost predicate Derived(c: Context, fetches: seq<OmmPersist.Fetch>, k: InputKey, s: State, o: Omm, now: Instant) {
    Traced(fetches, k.source, o) && (k.norad == {} || o.norad in k.norad) && From(c.sgp4, s, o, now, now + Heartbeat.EPOCH_LEAD)
  }

  ghost predicate Provenance(c: Context, fetches: seq<OmmPersist.Fetch>, st: Status) {
    st.hash.Some? ==> forall i | 0 <= i < |st.states| :: HasOrigin(c, fetches, st.hash.value, st.states[i])
  }

  ghost predicate HasOrigin(c: Context, fetches: seq<OmmPersist.Fetch>, k: InputKey, s: State) {
    exists o: Omm, now: Instant :: Derived(c, fetches, k, s, o, now)
  }

  ghost predicate FrameOk(c: Context, w: World, f: Frame) {
    f.version < |w.objects| && Admitted(w.objects[f.version], f.wanted, f.at, f.state) && HasOrigin(c, w.fetches, KeyOf(w.objects[f.version].spec), f.state)
  }

  ghost predicate Inv(c: Context, w: World) {
    && w.objects != []
    && (w.cache.Some? ==> AllTraced(w.fetches, w.cache.value.source, w.cache.value.result.omms))
    && OmmPersist.Genuine(c.codec, w.held, w.fetches) && OmmPersist.Genuine(c.codec, w.legacy, w.fetches)
    && (forall i | 0 <= i < |w.objects| :: Provenance(c, w.fetches, w.objects[i].status))
    && (forall i | 0 <= i < |w.frames| :: FrameOk(c, w, w.frames[i]))
  }

  lemma TracedLater(fetches: seq<OmmPersist.Fetch>, g: OmmPersist.Fetch, source: OmmCache.SourceKey, o: Omm)
    requires Traced(fetches, source, o)
    ensures Traced(fetches + [g], source, o)
  {
    var f :| f in fetches && f.source == source && o in f.omms;
    assert f in fetches + [g];
  }

  lemma OriginLater(c: Context, fetches: seq<OmmPersist.Fetch>, g: OmmPersist.Fetch, k: InputKey, s: State)
    requires HasOrigin(c, fetches, k, s)
    ensures HasOrigin(c, fetches + [g], k, s)
  {
    var o: Omm, now: Instant :| Derived(c, fetches, k, s, o, now);
    TracedLater(fetches, g, k.source, o);
    assert Derived(c, fetches + [g], k, s, o, now);
  }

  lemma ProvenanceLater(c: Context, fetches: seq<OmmPersist.Fetch>, g: OmmPersist.Fetch, st: Status)
    requires Provenance(c, fetches, st)
    ensures Provenance(c, fetches + [g], st)
  {
    if st.hash.Some? {
      forall i | 0 <= i < |st.states| ensures HasOrigin(c, fetches + [g], st.hash.value, st.states[i]) {
        OriginLater(c, fetches, g, st.hash.value, st.states[i]);
      }
    }
  }

  /** A restored payload was fetched from the source it is restored for. */
  lemma WarmedIsTraced(c: Context, w: World, s: Spec)
    requires Inv(c, w) && OmmPersist.Faithful(c.codec)
    ensures var warm := Warmed(c, w, s); warm.Some? ==> AllTraced(w.fetches, warm.value.source, warm.value.result.omms)
  {
    if w.cache.None? && Warmed(c, w, s).Some? {
      var e := Warmed(c, w, s).value;
      OmmPersist.RestoredIsGenuine(c.codec, w.held, w.fetches, s.source, c.uid);
      OmmPersist.RestoredIsGenuine(c.codec, w.legacy, w.fetches, s.source, c.uid);
      var f :| f in w.fetches && OmmPersist.EntryOf(e, f);
      forall i | 0 <= i < |e.result.omms| ensures Traced(w.fetches, e.source, e.result.omms[i]) {
        FilterMembers(f.omms, f.selector, e.result.omms[i]);
      }
    }
  }

  /** Whatever a reconcile propagates was fetched from the source it read. */
  lemma UsableIsTraced(c: Context, fetches: seq<OmmPersist.Fetch>, s: Spec, warm: Option<OmmCache.Entry>, r: OmmCache.Request)
    requires r.source == s.source && (warm.Some? ==> AllTraced(fetches, warm.value.source, warm.value.result.omms))
    ensures var more := if Stores(warm, r) then fetches + [FetchOf(c, s, r)] else fetches;
      && (OmmCache.OutcomeOf(warm, r).Usable? ==> AllTraced(more, s.source, OmmCache.OutcomeOf(warm, r).payload.omms))
      && (OmmCache.CacheAfter(warm, r).Some? ==>
            AllTraced(more, OmmCache.CacheAfter(warm, r).value.source, OmmCache.CacheAfter(warm, r).value.result.omms))
  {
    if Stores(warm, r) {
      var f := FetchOf(c, s, r);
      assert f in fetches + [f];
      forall i | 0 <= i < |f.omms| ensures Traced(fetches + [f], s.source, f.omms[i]) {}
    }
  }

  lemma CanonicalIsSelected(omms: seq<Omm>, ids: seq<int>, canonical: seq<Omm>, k: nat)
    requires Canonical(canonical, OmmPersist.Propagated(omms, ids)) && k < |canonical|
    ensures canonical[k] in omms && (ids == [] || canonical[k].norad in ids)
  {
    var input := OmmPersist.Propagated(omms, ids);
    BestMembers(input);
    assert Best(input, canonical[k].norad) == Some(canonical[k]);
    FilterMembers(Regime(omms, false), ids, canonical[k]);
    RegimeMembers(omms, false, canonical[k]);
  }

  lemma NewStatesHaveOrigins(c: Context, fetches: seq<OmmPersist.Fetch>, s: Spec, omms: seq<Omm>, canonical: seq<Omm>, now: Instant)
    requires AllTraced(fetches, s.source, omms) && Canonical(canonical, OmmPersist.Propagated(omms, s.norad))
    ensures Provenance(c, fetches, Status(Scan(c.sgp4, canonical, now, now + Heartbeat.EPOCH_LEAD).states, Some(KeyOf(s))))
  {
    var epoch := now + Heartbeat.EPOCH_LEAD;
    var states := Scan(c.sgp4, canonical, now, epoch).states;
    StatesComeFromElements(c.sgp4, canonical, now, epoch);
    forall i | 0 <= i < |states| ensures HasOrigin(c, fetches, KeyOf(s), states[i]) {
      assert FromSome(c.sgp4, states[i], canonical, now, epoch);
      var k :| 0 <= k < |canonical| && From(c.sgp4, states[i], canonical[k], now, epoch);
      CanonicalIsSelected(omms, s.norad, canonical, k);
      var j :| 0 <= j < |omms| && omms[j] == canonical[k];
      assert Traced(fetches, s.source, omms[j]);
      assert Derived(c, fetches, KeyOf(s), states[i], canonical[k], now);
    }
  }

  lemma FetchesGrow(c: Context, w: World, g: OmmPersist.Fetch)
    requires Inv(c, w)
    ensures forall i | 0 <= i < |w.objects| :: Provenance(c, w.fetches + [g], w.objects[i].status)
    ensures forall i | 0 <= i < |w.frames| :: FrameOk(c, w.(fetches := w.fetches + [g]), w.frames[i])
  {
    forall i | 0 <= i < |w.objects| ensures Provenance(c, w.fetches + [g], w.objects[i].status) {
      ProvenanceLater(c, w.fetches, g, w.objects[i].status);
    }
    forall i | 0 <= i < |w.frames| ensures FrameOk(c, w.(fetches := w.fetches + [g]), w.frames[i]) {
      assert FrameOk(c, w, w.frames[i]);
      OriginLater(c, w.fetches, g, KeyOf(w.objects[w.frames[i].version].spec), w.frames[i].state);
    }
  }

  lemma ObjectsGrow(c: Context, w: World, e: Eph)
    requires Inv(c, w) && Provenance(c, w.fetches, e.status)
    ensures Inv(c, w.(objects := w.objects + [e]))
  {
    var v := w.(objects := w.objects + [e]);
    forall i | 0 <= i < |v.frames| ensures FrameOk(c, v, v.frames[i]) {
      assert FrameOk(c, w, w.frames[i]);
      assert v.objects[v.frames[i].version] == w.objects[v.frames[i].version];
    }
  }

  lemma ReconcileKeeps(c: Context, w: World, a: Action)
    requires Inv(c, w) && OmmPersist.Faithful(c.codec) && a.Reconcile? && Enabled(c, w, a)
    ensures Inv(c, Step(c, w, a))
  {
    var e, r := w.objects[a.readAt], a.request;
    var warm := Warmed(c, w, e.spec);
    WarmedIsTraced(c, w, e.spec);
    UsableIsTraced(c, w.fetches, e.spec, warm, r);
    var mid := Step(c, w, a).(objects := w.objects);
    if Stores(warm, r) {
      FetchesGrow(c, w, FetchOf(c, e.spec, r));
      var held := if w.cache.Some? then w.held else OmmPersist.Forwarded(c.codec, w.held, w.legacy, e.spec.source, c.uid, a.migrated);
      OmmPersist.PersistedGenuine(c.codec, held, w.fetches, FetchOf(c, e.spec, r), a.persisted);
      OmmPersist.GenuineLater(c.codec, w.legacy, w.fetches, FetchOf(c, e.spec, r));
      forall i | 0 <= i < |mid.frames| ensures FrameOk(c, mid, mid.frames[i]) {
        assert FrameOk(c, w.(fetches := mid.fetches), w.frames[i]);
      }
    } else {
      forall i | 0 <= i < |mid.frames| ensures FrameOk(c, mid, mid.frames[i]) { assert FrameOk(c, w, w.frames[i]); }
    }
    assert Inv(c, mid);
    if a.accepted && a.readAt == |w.objects| - 1 {
      var outcome := OmmCache.OutcomeOf(warm, r);
      if outcome.Usable? {
        NewStatesHaveOrigins(c, mid.fetches, e.spec, outcome.payload.omms, a.canonical, a.now);
      } else {
        assert Provenance(c, mid.fetches, mid.objects[a.readAt].status);
      }
      ObjectsGrow(c, mid, e.(status := StatusAfter(c, e, warm, r, a.canonical, a.now)));
    }
  }

  lemma PushKeeps(c: Context, w: World, a: Action)
    requires Inv(c, w) && a.Push? && Enabled(c, w, a)
    ensures Inv(c, Step(c, w, a))
  {
    var v := Step(c, w, a);
    var e := w.objects[a.version];
    if v != w {
      DeliveredIsAdmitted(e, a.wanted, a.at);
      var s := Gate(e, a.wanted, a.at).state;
      assert Provenance(c, w.fetches, e.status);
      var i :| 0 <= i < |e.status.states| && e.status.states[i] == s;
      assert HasOrigin(c, w.fetches, KeyOf(e.spec), s);
      forall i | 0 <= i < |v.frames| ensures FrameOk(c, v, v.frames[i]) {
        if i < |w.frames| { assert FrameOk(c, w, w.frames[i]); }
      }
    }
  }

  lemma StepInv(c: Context, w: World, a: Action)
    requires Inv(c, w) && OmmPersist.Faithful(c.codec) && Enabled(c, w, a)
    ensures Inv(c, Step(c, w, a))
  {
    match a
    case Reconcile(_, _, _, _, _, _, _) => ReconcileKeeps(c, w, a);
    case Push(_, _, _, _, _) => PushKeeps(c, w, a);
    case EditSpec(s) =>
      assert Provenance(c, w.fetches, w.objects[|w.objects| - 1].status);
      ObjectsGrow(c, w, w.objects[|w.objects| - 1].(spec := s));
    case Restart =>
      forall i | 0 <= i < |w.frames| ensures FrameOk(c, Step(c, w, a), w.frames[i]) { assert FrameOk(c, w, w.frames[i]); }
    case Corrupt(data) =>
      OmmPersist.DamagedGenuine(c.codec, w.held, w.fetches, data);
      forall i | 0 <= i < |w.frames| ensures FrameOk(c, Step(c, w, a), w.frames[i]) { assert FrameOk(c, w, w.frames[i]); }
  }

  lemma {:induction false} RunInv(c: Context, w: World, trace: seq<Action>)
    requires Inv(c, w) && OmmPersist.Faithful(c.codec) && Legal(c, w, trace)
    ensures Inv(c, Run(c, w, trace))
    decreases |trace|
  {
    if trace != [] {
      StepInv(c, w, trace[0]);
      RunInv(c, Step(c, w, trace[0]), trace[1..]);
    }
  }

  /**
   Every frame of every run, across early returns, restarts, restores and spec edits: the state was propagated from
   an element set fetched from the source of the very spec the consumer read, its satellite is in that spec's
   selector and is the one the cell asked for (or the only one there is), its epoch lies ahead of the margin, and its
   source epoch is at most seven days old and 24 hours ahead.
   */
  lemma EveryFrameIsBacked(c: Context, s: Spec, before: seq<OmmPersist.Fetch>, legacy: Option<OmmPersist.Object>, trace: seq<Action>)
    requires OmmPersist.Faithful(c.codec) && OmmPersist.Genuine(c.codec, legacy, before) && Legal(c, Init(s, before, legacy), trace)
    ensures var w := Run(c, Init(s, before, legacy), trace); forall i | 0 <= i < |w.frames| :: FrameOk(c, w, w.frames[i])
  {
    RunInv(c, Init(s, before, legacy), trace);
  }
}

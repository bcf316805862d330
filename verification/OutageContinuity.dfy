/**
 Cache, heartbeat and gates together: what a cell receives during an outage of the upstream source
 (internal/controller/satelliteephemeris_controller.go, internal/controller/ntncellconfig_controller.go).
 */
module OutageContinuity {
  import opened Prelude
  import opened Elements
  import opened Propagation
  import opened RuntimePush
  import Freshness
  import Heartbeat
  import OmmCache
  import OmmPersist
  import SatSwitch

  /** The status that a propagation of `canonical` at `p` under `s` stores. */
  function StatusAt(sgp4: Sgp4, s: Spec, canonical: seq<Omm>, p: Instant): Status {
    Status(Scan(sgp4, canonical, p, p + Heartbeat.EPOCH_LEAD).states, Some(KeyOf(s)))
  }

  /** Dated at most a day ahead of `now` and within reach of SGP4. */
  predicate Propagates(sgp4: Sgp4, o: Omm, now: Instant, epoch: Instant) {
    o.epoch.Some? && o.epoch.value - now <= 24 * HOUR && sgp4(o, epoch).Some?
  }

  /** Fewer than 128 of the element sets before the k-th have a state, so the k-th is still looked at. */
  predicate InsideCap(sgp4: Sgp4, omms: seq<Omm>, now: Instant, epoch: Instant, k: nat)
    requires k < |omms|
  {
    |Scan(sgp4, omms[..k], now, epoch).states| < 128
  }

  /** An element set has its state among the first 128 exactly when it is inside the cap and propagates. */
  lemma {:induction false} ScanFindsExactly(sgp4: Sgp4, omms: seq<Omm>, now: Instant, epoch: Instant, k: nat)
    requires k < |omms| && Ascending(omms)
    ensures var states := Scan(sgp4, omms, now, epoch).states; var o := omms[k];
      if InsideCap(sgp4, omms, now, epoch, k) && Propagates(sgp4, o, now, epoch)
      then StateOf(o, epoch, sgp4(o, epoch).value) in states
      else forall x | x in states :: x.norad != o.norad
  {
    var n := |omms| - 1;
    if k < n {
      assert omms[..n][k] == omms[k] && omms[..n][..k] == omms[..k];
      ScanFindsExactly(sgp4, omms[..n], now, epoch, k);
    } else {
      ScanIsOlder(sgp4, omms, now, epoch);
    }
  }

  /** The states before the last element set are of other satellites. */
  lemma ScanIsOlder(sgp4: Sgp4, omms: seq<Omm>, now: Instant, epoch: Instant)
    requires omms != [] && Ascending(omms)
    ensures forall x | x in Scan(sgp4, omms[..|omms| - 1], now, epoch).states :: x.norad != omms[|omms| - 1].norad
  {
    var n := |omms| - 1;
    var before := Scan(sgp4, omms[..n], now, epoch).states;
    StatesComeFromElements(sgp4, omms[..n], now, epoch);
    forall x | x in before ensures x.norad != omms[n].norad {
      var i :| 0 <= i < |before| && before[i] == x;
      assert FromSome(sgp4, before[i], omms[..n], now, epoch);
    }
  }

  /** Among ascending states the wanted one is the selected one. */
  lemma {:induction false} SelectFinds(states: seq<State>, s: State)
    requires AscendingStates(states) && s in states
    ensures Select(states, Some(s.norad)) == Some(s)
  {
    if states[0] != s {
      assert states == [states[0]] + states[1..];
      var i :| 0 <= i < |states| && states[i] == s;
      assert states[0].norad < states[i].norad;
      SelectFinds(states[1..], s);
    }
  }

  /** The cell asks for this satellite, or asks for none and there is no other. */
  predicate Asks(wanted: Option<int>, states: seq<State>, norad: int) {
    if wanted.Some? then wanted.value == norad else forall x | x in states :: x.norad == norad
  }

  lemma SelectedWhenAsked(states: seq<State>, wanted: Option<int>, s: State)
    requires AscendingStates(states) && s in states && Asks(wanted, states, s.norad)
    ensures Select(states, wanted) == Some(s) && (wanted == None ==> |Norads(states)| <= 1)
  {
    if wanted.Some? {
      SelectFinds(states, s);
    } else {
      assert states[0] in states && states[0].norad == s.norad;
      var i :| 0 <= i < |states| && states[i] == s;
      assert i == 0;
      assert Norads(states) == {s.norad};
    }
  }

  lemma NothingSelected(states: seq<State>, wanted: Option<int>, norad: int)
    requires Asks(wanted, states, norad) && forall x | x in states :: x.norad != norad
    ensures Select(states, wanted) == None && (wanted == None ==> states == [])
  {
    SelectedIsWanted(states, wanted);
  }

  /**
   What the cell should be told at `t` about the k-th satellite of a status propagated at `p`: its state, exactly while it
   is inside the cap, propagates, and has a source epoch that, to the millisecond, is at most seven days old.
   */
  function Supply(sgp4: Sgp4, canonical: seq<Omm>, k: nat, p: Instant, t: Instant): Verdict
    requires k < |canonical|
  {
    var o, epoch := canonical[k], p + 5 * MINUTE;
    if !InsideCap(sgp4, canonical, p, epoch, k) || !Propagates(sgp4, o, p, epoch) then PayloadMissing
    else if t - Heartbeat.Millis(o.epoch.value) * MILLISECOND <= 7 * 24 * HOUR then Deliver(StateOf(o, epoch, sgp4(o, epoch).value))
    else EphemerisStale
  }

  /** The consumer's gates say just that, at any moment within the heartbeat and its latency. */
  lemma DeliversExactlyWhileFresh(sgp4: Sgp4, s: Spec, canonical: seq<Omm>, k: nat, wanted: Option<int>, p: Instant, t: Instant)
    requires Ascending(canonical) && k < |canonical| && Asks(wanted, StatusAt(sgp4, s, canonical, p).states, canonical[k].norad)
    requires p <= t <= p + Heartbeat.PROPAGATION_REFRESH + Heartbeat.SAFE_LATENCY
    ensures Gate(Eph(s, StatusAt(sgp4, s, canonical, p)), wanted, t) == Supply(sgp4, canonical, k, p, t)
  {
    var o, epoch := canonical[k], p + Heartbeat.EPOCH_LEAD;
    var states := Scan(sgp4, canonical, p, epoch).states;
    ScanFindsExactly(sgp4, canonical, p, epoch, k);
    if InsideCap(sgp4, canonical, p, epoch, k) && Propagates(sgp4, o, p, epoch) {
      var state := StateOf(o, epoch, sgp4(o, epoch).value);
      StatesComeFromElements(sgp4, canonical, p, epoch);
      SelectedWhenAsked(states, wanted, state);
      Heartbeat.WithinTheLead(p, t);
      assert SourceInstant(state) <= o.epoch.value;
    } else {
      NothingSelected(states, wanted, o.norad);
    }
  }

  /** From element sets to the wire, in any world: the producer reconciles at `p` and the consumer pushes at `t`. */
  datatype Relay = Relay(request: OmmCache.Request, canonical: seq<Omm>, p: Instant, migrated: bool, persisted: bool, wanted: Option<int>, t: Instant)

  /**
   A reconcile that has element sets and whose write is accepted, and a push within the heartbeat and its latency that is
   not suppressed and gets through, put the satellite on the wire exactly when the supply says so.
   */
  lemma ReconcileThenPush(c: Context, w: World, x: Relay, k: nat)
    requires w.objects != [] && k < |x.canonical|
    requires var n := |w.objects| - 1;
      && Enabled(c, w, Reconcile(n, x.request, x.canonical, x.p, x.migrated, x.persisted, true))
      && OmmCache.OutcomeOf(Warmed(c, w, w.objects[n].spec), x.request).Usable?
      && Asks(x.wanted, StatusAt(c.sgp4, w.objects[n].spec, x.canonical, x.p).states, x.canonical[k].norad)
    requires x.p <= x.t <= x.p + Heartbeat.PROPAGATION_REFRESH + Heartbeat.SAFE_LATENCY
    ensures var n := |w.objects| - 1; var v := Step(c, w, Reconcile(n, x.request, x.canonical, x.p, x.migrated, x.persisted, true));
      && |v.objects| == n + 2
      && var sent := Step(c, v, Push(n + 1, x.wanted, x.t, false, true)).frames;
      var supply := Supply(c.sgp4, x.canonical, k, x.p, x.t);
      sent == w.frames + if supply.Deliver? then [Frame(n + 1, x.wanted, x.t, supply.state)] else []
  {
    DeliversExactlyWhileFresh(c.sgp4, w.objects[|w.objects| - 1].spec, x.canonical, k, x.wanted, x.p, x.t);
  }

  /** The cache before the i-th reconcile of the outage. */
  function CacheBefore(cache: OmmCache.Entry, requests: seq<OmmCache.Request>, i: nat): Option<OmmCache.Entry>
    requires i <= |requests|
  {
    OmmCache.Run(OmmCache.State(Some(cache), []), requests[..i]).cache
  }

  /** An outage: reconciles of the cached source and object that bring no new element sets and whose URL is not refused. */
  predicate Outage(cache: OmmCache.Entry, requests: seq<OmmCache.Request>) {
    cache.result.omms != [] && forall i | 0 <= i < |requests| ::
      requests[i].source == cache.source && requests[i].uid == cache.uid && !requests[i].insecure
        && OmmCache.BringsNothing(requests[i], cache.source, cache.uid)
  }

  /** Every reconcile of an outage propagates the same element sets, whatever canonical sequence it arrives at. */
  lemma EveryReconcilePropagates(c: Context, s: Spec, before: Status, cache: OmmCache.Entry, requests: seq<OmmCache.Request>, i: nat,
                                 canonical: seq<Omm>, mine: seq<Omm>, p: Instant)
    requires Outage(cache, requests) && s.source == cache.source && i < |requests|
    requires Canonical(canonical, OmmPersist.Propagated(cache.result.omms, s.norad))
    requires var outcome := OmmCache.OutcomeOf(CacheBefore(cache, requests, i), requests[i]);
      outcome.Usable? ==> Canonical(mine, OmmPersist.Propagated(outcome.payload.omms, s.norad))
    ensures StatusAfter(c, Eph(s, before), CacheBefore(cache, requests, i), requests[i], mine, p) == StatusAt(c.sgp4, s, canonical, p)
  {
    var start := OmmCache.State(Some(cache), []);
    assert OmmCache.Holds(start.cache, cache.result.omms, cache.source, cache.uid);
    OmmCache.OutageNeverLosesTheCache(start, requests, cache.result.omms, cache.source, cache.uid);
    CanonicalUnique(OmmPersist.Propagated(cache.result.omms, s.norad), canonical, mine);
  }

  /** The reconciles of an outage and the beats that became visible; `which` is the reconcile behind each beat. */
  datatype Timeline = Timeline(requests: seq<OmmCache.Request>, canonicals: seq<seq<Omm>>, beats: seq<Heartbeat.Beat>, which: seq<nat>)

  ghost predicate Consistent(s: Spec, cache: OmmCache.Entry, tl: Timeline) {
    && Outage(cache, tl.requests) && s.source == cache.source && |tl.canonicals| == |tl.requests| && |tl.which| == |tl.beats|
    && (forall b | 0 <= b < |tl.which| :: tl.which[b] < |tl.requests|)
    && forall i | 0 <= i < |tl.requests| :: ArrivesAt(s, cache, tl.requests, i, tl.canonicals[i])
  }

  /** The i-th reconcile, if it has element sets to propagate, arrives at this canonical sequence. */
  ghost predicate ArrivesAt(s: Spec, cache: OmmCache.Entry, requests: seq<OmmCache.Request>, i: nat, mine: seq<Omm>)
    requires i < |requests|
  {
    var outcome := OmmCache.OutcomeOf(CacheBefore(cache, requests, i), requests[i]);
    outcome.Usable? ==> Canonical(mine, OmmPersist.Propagated(outcome.payload.omms, s.norad))
  }

  /** The status the reconcile behind beat `b` wrote over whatever status it had read. */
  function StatusOfBeat(c: Context, s: Spec, before: Status, cache: OmmCache.Entry, tl: Timeline, b: nat): Status
    requires b < |tl.beats| == |tl.which| && tl.which[b] < |tl.requests| == |tl.canonicals|
  {
    var i := tl.which[b];
    StatusAfter(c, Eph(s, before), CacheBefore(cache, tl.requests, i), tl.requests[i], tl.canonicals[i], tl.beats[b].propagated)
  }

  /** The satellite the cell asks for: by number, or the only one there is. */
  predicate AsksFor(wanted: Option<int>, canonical: seq<Omm>, k: nat)
    requires k < |canonical|
  {
    wanted == Some(canonical[k].norad) || (wanted == None && |canonical| == 1)
  }

  /** `t` lies between the first write and the end of the last beat's latency. */
  predicate Covered(tl: Timeline, latency: int, t: Instant) {
    tl.beats != [] && latency <= Heartbeat.SAFE_LATENCY && Heartbeat.Beating(tl.beats, latency)
      && tl.beats[0].written <= t <= tl.beats[|tl.beats| - 1].propagated + Heartbeat.PROPAGATION_REFRESH + latency
  }

  /** `b` is the beat whose status a reader sees at `t`. */
  predicate Seen(tl: Timeline, b: nat, t: Instant) {
    b < |tl.beats| && Heartbeat.Visible(tl.beats, t) == Some(tl.beats[b])
  }

  lemma SuppliedBy(c: Context, s: Spec, before: Status, cache: OmmCache.Entry, tl: Timeline, canonical: seq<Omm>, k: nat,
                   wanted: Option<int>, latency: int, t: Instant, b: nat)
    requires Consistent(s, cache, tl) && Canonical(canonical, OmmPersist.Propagated(cache.result.omms, s.norad))
    requires k < |canonical| && AsksFor(wanted, canonical, k) && Covered(tl, latency, t) && Seen(tl, b, t)
    ensures Gate(Eph(s, StatusOfBeat(c, s, before, cache, tl, b)), wanted, t) == Supply(c.sgp4, canonical, k, tl.beats[b].propagated, t)
  {
    VisibleIsInTime(tl.beats, latency, t);
    var p, i := tl.beats[b].propagated, tl.which[b];
    assert ArrivesAt(s, cache, tl.requests, i, tl.canonicals[i]);
    EveryReconcilePropagates(c, s, before, cache, tl.requests, i, canonical, tl.canonicals[i], p);
    if wanted == None {
      OnlyState(c.sgp4, s, canonical, p);
    }
    DeliversExactlyWhileFresh(c.sgp4, s, canonical, k, wanted, p, t);
  }

  /**
   During any outage with a warm cache and beats within the safe latency, at every moment from the first write on, the
   status the cell sees supplies it with its satellite, exactly while that is inside the cap of 128, propagates, and has a
   source epoch of at most seven days.
   */
  lemma OutageKeepsTheCellSupplied(c: Context, s: Spec, before: Status, cache: OmmCache.Entry, tl: Timeline, canonical: seq<Omm>, k: nat,
                                   wanted: Option<int>, latency: int, t: Instant) returns (b: nat)
    requires Consistent(s, cache, tl) && Canonical(canonical, OmmPersist.Propagated(cache.result.omms, s.norad))
    requires k < |canonical| && AsksFor(wanted, canonical, k) && Covered(tl, latency, t)
    ensures Seen(tl, b, t)
    ensures Gate(Eph(s, StatusOfBeat(c, s, before, cache, tl, b)), wanted, t) == Supply(c.sgp4, canonical, k, tl.beats[b].propagated, t)
  {
    VisibleIsInTime(tl.beats, latency, t);
    b :| 0 <= b < |tl.beats| && tl.beats[b] == Heartbeat.Visible(tl.beats, t).value;
    SuppliedBy(c, s, before, cache, tl, canonical, k, wanted, latency, t, b);
  }

  /** What a cell makes of a verdict; `mark` is the content marker of a state. */
  function EventOf(mark: State -> string, v: Verdict): SatSwitch.Event {
    if v.Deliver? then SatSwitch.Offers(mark(v.state)) else SatSwitch.Closed
  }

  /** A reconcile of the cell: when, and which beat's status it sees. */
  datatype Moment = Moment(at: Instant, beat: nat)

  /** One outage as a cell that asks for the k-th satellite lives through it. */
  datatype Scene = Scene(c: Context, s: Spec, before: Status, cache: OmmCache.Entry, tl: Timeline, canonical: seq<Omm>, k: nat,
                         wanted: Option<int>, latency: int, mark: State -> string)

  ghost predicate Sound(x: Scene) {
    && Consistent(x.s, x.cache, x.tl) && Canonical(x.canonical, OmmPersist.Propagated(x.cache.result.omms, x.s.norad))
    && x.k < |x.canonical| && AsksFor(x.wanted, x.canonical, x.k)
  }

  predicate Fits(x: Scene, m: Moment) {
    Covered(x.tl, x.latency, m.at) && Seen(x.tl, m.beat, m.at)
  }

  /** `e` is what the gates make of the status seen at `m` ... */
  ghost predicate Gated(x: Scene, m: Moment, e: SatSwitch.Event)
    requires Sound(x) && Fits(x, m)
  {
    e == EventOf(x.mark, Gate(Eph(x.s, StatusOfBeat(x.c, x.s, x.before, x.cache, x.tl, m.beat)), x.wanted, m.at))
  }

  /** ... or what the supply asks for. */
  ghost predicate Supplied(x: Scene, m: Moment, e: SatSwitch.Event)
    requires Sound(x) && Fits(x, m)
  {
    e == EventOf(x.mark, Supply(x.c.sgp4, x.canonical, x.k, x.tl.beats[m.beat].propagated, m.at))
  }

  lemma GatedIsSupplied(x: Scene, m: Moment, e: SatSwitch.Event)
    requires Sound(x) && Fits(x, m)
    ensures Gated(x, m, e) <==> Supplied(x, m, e)
  {
    SuppliedBy(x.c, x.s, x.before, x.cache, x.tl, x.canonical, x.k, x.wanted, x.latency, m.at, m.beat);
  }

  /**
   Through the same outage, on the wire: whenever the cell reconciles, what it is offered is what the supply asks for, and
   the states it has sent are exactly those, each new one once and none again while nothing changes.
   */
  lemma OutageSendsEachStateOnce(x: Scene, ms: seq<Moment>, events: seq<SatSwitch.Event>, cell: SatSwitch.World, last: SatSwitch.Event)
    requires Sound(x) && |events| == |ms| && (forall i | 0 <= i < |ms| :: Fits(x, ms[i]))
    requires forall i | 0 <= i < |ms| :: Gated(x, ms[i], events[i])
    requires SatSwitch.ShowsLast(cell, last) && SatSwitch.NotAhead(cell)
    ensures forall i | 0 <= i < |ms| :: Supplied(x, ms[i], events[i])
    ensures SatSwitch.StatesOf(SatSwitch.Live(cell, events).frames) == SatSwitch.StatesOf(cell.frames) + SatSwitch.News(last, events)
  {
    AllSupplied(x, ms, events);
    SatSwitch.EachStateGoesOutOnce(cell, last, events);
  }

  lemma AllSupplied(x: Scene, ms: seq<Moment>, events: seq<SatSwitch.Event>)
    requires Sound(x) && |events| == |ms| && (forall i | 0 <= i < |ms| :: Fits(x, ms[i]))
    requires forall i | 0 <= i < |ms| :: Gated(x, ms[i], events[i])
    ensures forall i | 0 <= i < |ms| :: Supplied(x, ms[i], events[i])
  {
    forall i | 0 <= i < |ms| ensures Supplied(x, ms[i], events[i]) {
      GatedIsSupplied(x, ms[i], events[i]);
    }
  }

  /** Two supplies of one satellite are the same state exactly when they come from the same millisecond and the same ECEF. */
  lemma NewBeatIsANewState(sgp4: Sgp4, canonical: seq<Omm>, k: nat, p: Instant, t: Instant, q: Instant, u: Instant)
    requires k < |canonical| && Supply(sgp4, canonical, k, p, t).Deliver? && Supply(sgp4, canonical, k, q, u).Deliver?
    ensures Supply(sgp4, canonical, k, p, t) == Supply(sgp4, canonical, k, q, u) <==>
      Heartbeat.StoredEpoch(p) == Heartbeat.StoredEpoch(q) && sgp4(canonical[k], p + Heartbeat.EPOCH_LEAD) == sgp4(canonical[k], q + Heartbeat.EPOCH_LEAD)
  {
  }

  lemma OnlyState(sgp4: Sgp4, s: Spec, canonical: seq<Omm>, p: Instant)
    requires |canonical| == 1 && Ascending(canonical)
    ensures forall x | x in StatusAt(sgp4, s, canonical, p).states :: x.norad == canonical[0].norad
  {
    var epoch := p + Heartbeat.EPOCH_LEAD;
    var states := Scan(sgp4, canonical, p, epoch).states;
    StatesComeFromElements(sgp4, canonical, p, epoch);
    forall x | x in states ensures x.norad == canonical[0].norad {
      var i :| 0 <= i < |states| && states[i] == x;
      assert FromSome(sgp4, states[i], canonical, p, epoch);
    }
  }

  /** The visible beat is one of the beats, and its successor has not been written yet. */
  lemma {:induction false} VisibleIsInTime(beats: seq<Heartbeat.Beat>, latency: int, t: Instant)
    requires beats != [] && Heartbeat.Beating(beats, latency)
    requires beats[0].written <= t <= beats[|beats| - 1].propagated + Heartbeat.PROPAGATION_REFRESH + latency
    ensures var v := Heartbeat.Visible(beats, t);
      v.Some? && v.value in beats && v.value.propagated <= t <= v.value.propagated + Heartbeat.PROPAGATION_REFRESH + latency
  {
    var n := |beats| - 1;
    if beats[n].written > t {
      VisibleIsInTime(beats[..n], latency, t);
    }
  }
}

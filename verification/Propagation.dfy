/** One element set per satellite and its propagated state (canonicalizeOMMs and propagateStates in
 internal/controller/satelliteephemeris_controller.go). */
module Propagation {
  import opened Prelude
  import opened Sorting
  import opened Elements
  import Freshness
  import Heartbeat

  // ---- canonical element sets ---------------------------------------------------------------------------------

  /** Is `o` a better pick than `cur`: parseable, and later than a parseable pick. */
  predicate Better(o: Omm, cur: Omm) {
    o.epoch.Some? && (cur.epoch.None? || o.epoch.value > cur.epoch.value)
  }

  /** The pick for one NORAD: the first element set, replaced by every better one. */
  function Best(omms: seq<Omm>, norad: int): Option<Omm> {
    if omms == [] then None
    else
      var last := omms[|omms| - 1];
      var cur := Best(omms[..|omms| - 1], norad);
      if last.norad != norad then cur
      else if cur == None || Better(last, cur.value) then Some(last)
      else cur
  }

  predicate Ascending(omms: seq<Omm>) {
    forall i, j | 0 <= i < j < |omms| :: omms[i].norad < omms[j].norad
  }

  /** One pick per NORAD, in ascending order: this determines the sequence. */
  ghost predicate Canonical(r: seq<Omm>, omms: seq<Omm>) {
    && Ascending(r)
    && (forall i | 0 <= i < |r| :: Best(omms, r[i].norad) == Some(r[i]))
    && (forall norad | Best(omms, norad).Some? :: Best(omms, norad).value in r)
  }

  predicate LessNorad(a: Omm, b: Omm) {
    a.norad < b.norad
  }

  /** The filling loop. */
  method FillBest(omms: seq<Omm>) returns (best: map<int, Omm>)
    ensures forall norad :: (norad in best <==> Best(omms, norad).Some?) && (norad in best ==> Best(omms, norad) == Some(best[norad]))
  {
    best := map[];
    for i := 0 to |omms|
      invariant forall norad :: (norad in best <==> Best(omms[..i], norad).Some?) && (norad in best ==> Best(omms[..i], norad) == Some(best[norad]))
    {
      assert omms[..i + 1][..i] == omms[..i];
      var o := omms[i];
      if o.norad !in best || (o.epoch.Some? && (best[o.norad].epoch.None? || o.epoch.value > best[o.norad].epoch.value)) {
        best := best[o.norad := o];
      }
    }
    assert omms[..|omms|] == omms;
  }

  method CanonicalizeOMMs(omms: seq<Omm>) returns (r: seq<Omm>)
    ensures Canonical(r, omms)
  {
    var best := FillBest(omms);
    BestMembers(omms);
    // A map is walked in an order of its own choosing.
    var out: seq<Omm>, left: set<int> := [], best.Keys;
    while left != {}
      invariant left <= best.Keys
      invariant forall i | 0 <= i < |out| :: out[i].norad in best && out[i].norad !in left && out[i] == best[out[i].norad]
      invariant forall i, j | 0 <= i < j < |out| :: out[i].norad != out[j].norad
      invariant forall k | k in best && k !in left :: best[k] in out
      decreases |left|
    {
      var k := AnyOf(left);
      out := out + [best[k]];
      left := left - {k};
    }
    assert WeakOrder(LessNorad);
    r := Sort(LessNorad, out);
    SortedPicks(r, out);
    forall norad | Best(omms, norad).Some? ensures Best(omms, norad).value in r {
      assert best[norad] in out;
      assert best[norad] in multiset(out);
    }
    forall i | 0 <= i < |r| ensures Best(omms, r[i].norad) == Some(r[i]) {
      assert r[i] in multiset(out);
    }
  }

  lemma {:induction false} BestMembers(omms: seq<Omm>)
    ensures forall norad :: Best(omms, norad).Some? ==> Best(omms, norad).value.norad == norad && Best(omms, norad).value in omms
    ensures forall o | o in omms :: Best(omms, o.norad).Some?
  {
    if omms != [] {
      BestMembers(omms[..|omms| - 1]);
      assert omms == omms[..|omms| - 1] + [omms[|omms| - 1]];
    }
  }

  lemma SortedPicks(r: seq<Omm>, out: seq<Omm>)
    requires SortedBy(LessNorad, r) && multiset(r) == multiset(out)
    requires forall i, j | 0 <= i < j < |out| :: out[i].norad != out[j].norad
    ensures Ascending(r)
  {
    forall i, j | 0 <= i < j < |r| ensures r[i].norad < r[j].norad {
      if r[i].norad == r[j].norad {
        TwiceInBoth(r, i, j, out);
      }
    }
  }

  /** Two places of `r` holding equal ranks are two places of any rearrangement. */
  lemma TwiceInBoth(r: seq<Omm>, i: nat, j: nat, out: seq<Omm>)
    requires i < j < |r| && multiset(r) == multiset(out) && r[i].norad == r[j].norad
    ensures exists x, y :: 0 <= x < y < |out| && out[x].norad == out[y].norad
  {
    var x := FindIn(r[i], r, out);
    RemoveBoth(r, i, out, x);
    var restR, restOut := r[..i] + r[i + 1..], out[..x] + out[x + 1..];
    assert restR[j - 1] == r[j];
    var y := FindIn(r[j], restR, restOut);
    var y' := if y < x then y else y + 1;
    assert out[y'] == r[j] && y' != x;
    if x < y' { assert out[x].norad == out[y'].norad; } else { assert out[y'].norad == out[x].norad; }
  }

  // ---- independence of upstream order ------------------------------------------------------------------------

  /** Any parseable epoch of the satellite is no later than the pick's; a pick without one means there is none. */
  lemma {:induction false} BestIsLatest(omms: seq<Omm>, o: Omm)
    requires o in omms && o.epoch.Some?
    ensures Best(omms, o.norad).Some? && Best(omms, o.norad).value.epoch.Some? && o.epoch.value <= Best(omms, o.norad).value.epoch.value
  {
    var n := |omms| - 1;
    assert omms == omms[..n] + [omms[n]];
    BestMembers(omms[..n]);
    if o in omms[..n] {
      BestIsLatest(omms[..n], o);
    }
  }

  lemma BestEpochIsOrderFree(a: seq<Omm>, b: seq<Omm>, norad: int)
    requires multiset(a) == multiset(b)
    ensures Best(a, norad).Some? == Best(b, norad).Some?
    ensures Best(a, norad).Some? ==> Best(a, norad).value.epoch == Best(b, norad).value.epoch
  {
    BestMembers(a);
    BestMembers(b);
    if Best(a, norad).Some? {
      var x := Best(a, norad).value;
      assert x in multiset(b);
      if x.epoch.Some? { BestIsLatest(b, x); }
    }
    if Best(b, norad).Some? {
      var y := Best(b, norad).value;
      assert y in multiset(a);
      if y.epoch.Some? { BestIsLatest(a, y); }
    }
  }

  /** Element sets of one satellite have distinct epochs. */
  ghost predicate DistinctEpochs(omms: seq<Omm>) {
    forall x, y | x in omms && y in omms && x.norad == y.norad && x.epoch == y.epoch :: x == y
  }

  predicate SameShape(r: seq<Omm>, s: seq<Omm>) {
    |r| == |s| && forall i | 0 <= i < |r| :: r[i].norad == s[i].norad && r[i].epoch == s[i].epoch
  }

  predicate Lists(s: seq<Omm>, norad: int) {
    exists j | 0 <= j < |s| :: s[j].norad == norad
  }

  lemma SameNorads(r: seq<Omm>, s: seq<Omm>, a: seq<Omm>, b: seq<Omm>, i: nat)
    requires multiset(a) == multiset(b) && Canonical(r, a) && Canonical(s, b) && i < |r|
    ensures Lists(s, r[i].norad)
  {
    BestEpochIsOrderFree(a, b, r[i].norad);
    BestMembers(b);
    assert Best(b, r[i].norad).value in s;
  }

  /** Ascending sequences over the same satellites end with the same one. */
  lemma SameLast(r: seq<Omm>, s: seq<Omm>)
    requires Ascending(r) && Ascending(s) && r != [] && s != []
    requires Lists(s, r[|r| - 1].norad) && Lists(r, s[|s| - 1].norad)
    ensures r[|r| - 1].norad == s[|s| - 1].norad
  {
  }

  lemma ListsInit(s: seq<Omm>, norad: int)
    requires s != [] && Lists(s, norad) && norad != s[|s| - 1].norad
    ensures Lists(s[..|s| - 1], norad)
  {
    var j :| 0 <= j < |s| && s[j].norad == norad;
    assert s[..|s| - 1][j].norad == norad;
  }

  lemma SameEmptiness(r: seq<Omm>, s: seq<Omm>)
    requires forall i | 0 <= i < |r| :: Lists(s, r[i].norad)
    requires forall i | 0 <= i < |s| :: Lists(r, s[i].norad)
    ensures r == [] <==> s == []
  {
    if r != [] { var norad := r[0].norad; assert Lists(s, norad); }
    if s != [] { var norad := s[0].norad; assert Lists(r, norad); }
  }

  /** Ascending sequences over the same satellites agree place by place. */
  lemma {:induction false} AscendingAgree(r: seq<Omm>, s: seq<Omm>)
    requires Ascending(r) && Ascending(s)
    requires forall i | 0 <= i < |r| :: Lists(s, r[i].norad)
    requires forall i | 0 <= i < |s| :: Lists(r, s[i].norad)
    ensures |r| == |s| && forall i | 0 <= i < |r| :: r[i].norad == s[i].norad
  {
    SameEmptiness(r, s);
    if r != [] {
      var m, n := |r| - 1, |s| - 1;
      SameLast(r, s);
      forall i | 0 <= i < m ensures Lists(s[..n], r[..m][i].norad) { ListsInit(s, r[i].norad); }
      forall i | 0 <= i < n ensures Lists(r[..m], s[..n][i].norad) { ListsInit(r, s[i].norad); }
      AscendingAgree(r[..m], s[..n]);
      forall i | 0 <= i < |r| ensures r[i].norad == s[i].norad {
        if i < m { assert r[..m][i] == r[i] && s[..n][i] == s[i]; }
      }
    }
  }

  /**
   Whatever order the upstream lists its element sets in, and whatever order the map is walked in, the same
   satellites with the same epochs come out in the same places; the same element sets when epochs are distinct.
   */
  lemma CanonicalIsOrderFree(a: seq<Omm>, b: seq<Omm>, r: seq<Omm>, s: seq<Omm>)
    requires multiset(a) == multiset(b) && Canonical(r, a) && Canonical(s, b)
    ensures SameShape(r, s)
    ensures DistinctEpochs(a) ==> r == s
  {
    forall i | 0 <= i < |r| ensures Lists(s, r[i].norad) { SameNorads(r, s, a, b, i); }
    forall i | 0 <= i < |s| ensures Lists(r, s[i].norad) { SameNorads(s, r, b, a, i); }
    AscendingAgree(r, s);
    BestMembers(a);
    BestMembers(b);
    forall i | 0 <= i < |r| ensures r[i].epoch == s[i].epoch && (DistinctEpochs(a) ==> r[i] == s[i]) {
      BestEpochIsOrderFree(a, b, r[i].norad);
      assert s[i] in multiset(a);
    }
  }

  // ---- element sets that do not matter -----------------------------------------------------------------------

  /** Every element set of `more` is of a satellite listed in `omms` and no better than the pick there. */
  predicate Covered(omms: seq<Omm>, more: seq<Omm>) {
    forall o | o in more :: Best(omms, o.norad).Some? && !Better(o, Best(omms, o.norad).value)
  }

  lemma {:induction false} CoveredKeepsBest(omms: seq<Omm>, more: seq<Omm>, norad: int)
    requires Covered(omms, more)
    ensures Best(omms + more, norad) == Best(omms, norad)
  {
    if more == [] {
      assert omms + more == omms;
    } else {
      var n := |more| - 1;
      assert more[n] in more && forall o | o in more[..n] :: o in more;
      assert (omms + more)[..|omms| + n] == omms + more[..n];
      CoveredKeepsBest(omms, more[..n], norad);
    }
  }

  /** Further element sets leave the canonical sequence as it is exactly when they are covered. */
  lemma CanonicalUnchangedExactly(omms: seq<Omm>, more: seq<Omm>, all: seq<Omm>, some: seq<Omm>)
    requires Canonical(all, omms + more) && Canonical(some, omms)
    ensures all == some <==> Covered(omms, more)
  {
    if all == some {
      forall o | o in more ensures Best(omms, o.norad).Some? && !Better(o, Best(omms, o.norad).value) {
        assert o in omms + more;
        BestMembers(omms + more);
        var pick := Best(omms + more, o.norad).value;
        assert pick in some && Best(omms, pick.norad) == Some(pick);
        if o.epoch.Some? {
          BestIsLatest(omms + more, o);
        }
      }
    }
    if Covered(omms, more) {
      forall norad ensures Best(omms + more, norad) == Best(omms, norad) {
        CoveredKeepsBest(omms, more, norad);
      }
      CanonicalUnique(omms, all, some);
    }
  }

  lemma CanonicalUnique(a: seq<Omm>, r: seq<Omm>, s: seq<Omm>)
    requires Canonical(r, a) && Canonical(s, a)
    ensures r == s
  {
    CanonicalIsOrderFree(a, a, r, s);
    forall i | 0 <= i < |r| ensures r[i] == s[i] {
      assert Best(a, r[i].norad) == Some(r[i]) && Best(a, s[i].norad) == Some(s[i]);
    }
  }

  // ---- propagation ----------------------------------------------------------------------------------------------

  const MAX_STATES: nat := 128

  datatype State = State(norad: int, name: string, epochMs: nat, sourceMs: nat, ecef: string)

  /** SGP4 to ECEF at an instant; it may fail. */
  type Sgp4 = (Omm, Instant) -> Option<string>

  datatype Tally = Tally(states: seq<State>, unparseable: nat, implausible: nat, failed: nat, skipped: nat)

  function StateOf(o: Omm, epoch: Instant, ecef: string): State
    requires o.epoch.Some?
  {
    State(o.norad, o.name, Heartbeat.Millis(epoch), Heartbeat.Millis(o.epoch.value), ecef)
  }

  /** The propagation loop: after 128 states everything else is skipped unseen. */
  function Scan(sgp4: Sgp4, omms: seq<Omm>, now: Instant, epoch: Instant): Tally {
    if omms == [] then Tally([], 0, 0, 0, 0)
    else
      var t := Scan(sgp4, omms[..|omms| - 1], now, epoch);
      var o := omms[|omms| - 1];
      if |t.states| >= MAX_STATES then t.(skipped := t.skipped + 1)
      else if o.epoch == None then t.(unparseable := t.unparseable + 1)
      else if !Freshness.Plausible(now, o.epoch.value) then t.(implausible := t.implausible + 1)
      else if sgp4(o, epoch) == None then t.(failed := t.failed + 1)
      else t.(states := t.states + [StateOf(o, epoch, sgp4(o, epoch).value)])
  }

  /** The health pre-pass: unparseable, implausible and stale epochs over the whole set. */
  function Health(omms: seq<Omm>, now: Instant): (nat, nat, nat) {
    if omms == [] then (0, 0, 0)
    else
      var (u, f, s) := Health(omms[..|omms| - 1], now);
      var o := omms[|omms| - 1];
      if o.epoch == None then (u + 1, f, s)
      else if !Freshness.Plausible(now, o.epoch.value) then (u, f + 1, s)
      else if now - o.epoch.value > Freshness.MAX_EPOCH_AGE then (u, f, s + 1)
      else (u, f, s)
  }

  datatype Ailment = Unparseable | AheadOfTime | TooOld

  /** No epoch, one more than a day ahead, or one more than seven days old. */
  predicate Ails(o: Omm, a: Ailment, now: Instant) {
    match a
    case Unparseable => o.epoch.None?
    case AheadOfTime => o.epoch.Some? && o.epoch.value > now + 24 * HOUR
    case TooOld => o.epoch.Some? && o.epoch.value + 7 * 24 * HOUR < now
  }

  /** The places where it ails. */
  function Ailing(omms: seq<Omm>, a: Ailment, now: Instant): set<nat> {
    set i: nat | i < |omms| && Ails(omms[i], a, now)
  }

  lemma AilingSnoc(omms: seq<Omm>, a: Ailment, now: Instant)
    requires omms != []
    ensures |Ailing(omms, a, now)| == |Ailing(omms[..|omms| - 1], a, now)| + if Ails(omms[|omms| - 1], a, now) then 1 else 0
  {
    var n: nat := |omms| - 1;
    var before := Ailing(omms[..n], a, now);
    assert Ailing(omms, a, now) == before + if Ails(omms[n], a, now) then {n} else {};
    assert n !in before;
  }

  /** The pre-pass counts each ailment over the whole set. */
  lemma {:induction false} HealthCountsEach(omms: seq<Omm>, now: Instant)
    ensures Health(omms, now) == (|Ailing(omms, Unparseable, now)|, |Ailing(omms, AheadOfTime, now)|, |Ailing(omms, TooOld, now)|)
  {
    if omms == [] {
      assert Ailing(omms, Unparseable, now) == {} && Ailing(omms, AheadOfTime, now) == {} && Ailing(omms, TooOld, now) == {};
    } else {
      HealthCountsEach(omms[..|omms| - 1], now);
      AilingSnoc(omms, Unparseable, now);
      AilingSnoc(omms, AheadOfTime, now);
      AilingSnoc(omms, TooOld, now);
    }
  }

  lemma {:induction false} CapStops(sgp4: Sgp4, omms: seq<Omm>, now: Instant, epoch: Instant, k: nat)
    requires k <= |omms| && |Scan(sgp4, omms[..k], now, epoch).states| >= MAX_STATES
    ensures var t := Scan(sgp4, omms[..k], now, epoch);
      Scan(sgp4, omms, now, epoch) == t.(skipped := t.skipped + (|omms| - k))
    decreases |omms|
  {
    if k < |omms| {
      assert omms[..|omms| - 1][..k] == omms[..k];
      CapStops(sgp4, omms[..|omms| - 1], now, epoch, k);
    } else {
      assert omms[..k] == omms;
    }
  }

  lemma {:induction false} NothingSkippedBelowTheCap(sgp4: Sgp4, omms: seq<Omm>, now: Instant, epoch: Instant)
    ensures var t := Scan(sgp4, omms, now, epoch); |t.states| <= MAX_STATES && (|t.states| < MAX_STATES ==> t.skipped == 0)
  {
    if omms != [] {
      NothingSkippedBelowTheCap(sgp4, omms[..|omms| - 1], now, epoch);
    }
  }

  /** The pre-pass over the whole set. */
  method CountHealth(omms: seq<Omm>, now: Instant) returns (health: (nat, nat, nat))
    ensures health == Health(omms, now)
  {
    var unparseable, future, stale := 0, 0, 0;
    for i := 0 to |omms|
      invariant (unparseable, future, stale) == Health(omms[..i], now)
    {
      assert omms[..i + 1][..i] == omms[..i];
      var o := omms[i];
      if o.epoch == None {
        unparseable := unparseable + 1;
      } else if !Freshness.Plausible(now, o.epoch.value) {
        future := future + 1;
      } else if now - o.epoch.value > Freshness.MAX_EPOCH_AGE {
        stale := stale + 1;
      }
    }
    assert omms[..|omms|] == omms;
    return (unparseable, future, stale);
  }

  /** What the propagation loop has in its variables after a prefix. */
  predicate Loop(t: Tally, states: seq<State>, failures: nat, skipped: nat) {
    states == t.states && failures == t.failed && skipped == t.skipped
  }

  /** The propagation loop, left at the cap. */
  method PropagateAll(sgp4: Sgp4, omms: seq<Omm>, now: Instant, epoch: Instant)
    returns (states: seq<State>, failures: nat, skippedByCap: nat)
    ensures Loop(Scan(sgp4, omms, now, epoch), states, failures, skippedByCap)
  {
    states, failures, skippedByCap := [], 0, 0;
    for i := 0 to |omms|
      invariant Loop(Scan(sgp4, omms[..i], now, epoch), states, failures, 0) && skippedByCap == 0
    {
      if |states| >= MAX_STATES {
        CapStops(sgp4, omms, now, epoch, i);
        skippedByCap := |omms| - i;
        return;
      }
      assert omms[..i + 1][..i] == omms[..i];
      var o := omms[i];
      if o.epoch.None? || !Freshness.Plausible(now, o.epoch.value) {
        continue;
      }
      var ecef := sgp4(o, epoch);
      if ecef == None {
        failures := failures + 1;
        continue;
      }
      states := states + [StateOf(o, epoch, ecef.value)];
    }
    assert omms[..|omms|] == omms;
  }

  method PropagateStates(sgp4: Sgp4, omms: seq<Omm>, noradIDs: seq<int>, now: Instant, epoch: Instant)
    returns (states: seq<State>, canonical: seq<Omm>, health: (nat, nat, nat), failures: nat, skippedByCap: nat)
    ensures Canonical(canonical, Filter(omms, noradIDs))
    ensures Loop(Scan(sgp4, canonical, now, epoch), states, failures, skippedByCap)
    ensures health == Health(canonical, now)
  {
    var filtered := FilterOMMs(omms, noradIDs);
    canonical := CanonicalizeOMMs(filtered);
    health := CountHealth(canonical, now);
    states, failures, skippedByCap := PropagateAll(sgp4, canonical, now, epoch);
  }

  /** Every tracked satellite is accounted for exactly once, and the cap is what it says. */
  lemma {:induction false} EverySatelliteIsAccountedFor(sgp4: Sgp4, omms: seq<Omm>, now: Instant, epoch: Instant)
    ensures var t := Scan(sgp4, omms, now, epoch); var (u, f, s) := Health(omms, now);
      && |t.states| + t.unparseable + t.implausible + t.failed + t.skipped == |omms|
      && |t.states| <= 128
      && (t.skipped > 0 ==> |t.states| == 128)
      && (t.skipped == 0 ==> t.unparseable == u && t.implausible == f)
      && t.unparseable <= u && t.implausible <= f
  {
    if omms != [] {
      EverySatelliteIsAccountedFor(sgp4, omms[..|omms| - 1], now, epoch);
      NothingSkippedBelowTheCap(sgp4, omms[..|omms| - 1], now, epoch);
    }
  }

  /** `s` was propagated from `o` to `epoch`, and `o` had a plausible epoch at `now`. */
  predicate From(sgp4: Sgp4, s: State, o: Omm, now: Instant, epoch: Instant) {
    && o.epoch.Some? && o.epoch.value <= now + 24 * HOUR && sgp4(o, epoch).Some?
    && s == State(o.norad, o.name, epoch / MILLISECOND, o.epoch.value / MILLISECOND, sgp4(o, epoch).value)
  }

  predicate FromSome(sgp4: Sgp4, s: State, omms: seq<Omm>, now: Instant, epoch: Instant) {
    exists k | 0 <= k < |omms| :: From(sgp4, s, omms[k], now, epoch)
  }

  lemma FromSomeLonger(sgp4: Sgp4, s: State, omms: seq<Omm>, now: Instant, epoch: Instant)
    requires omms != [] && FromSome(sgp4, s, omms[..|omms| - 1], now, epoch)
    ensures FromSome(sgp4, s, omms, now, epoch) && s.norad in (set o | o in omms[..|omms| - 1] :: o.norad)
  {
    var k :| 0 <= k < |omms| - 1 && From(sgp4, s, omms[..|omms| - 1][k], now, epoch);
    assert From(sgp4, s, omms[k], now, epoch) && omms[..|omms| - 1][k] in omms[..|omms| - 1];
  }

  ghost predicate AllFrom(sgp4: Sgp4, states: seq<State>, omms: seq<Omm>, now: Instant, epoch: Instant) {
    forall i | 0 <= i < |states| :: FromSome(sgp4, states[i], omms, now, epoch)
  }

  predicate AscendingStates(states: seq<State>) {
    forall i, j | 0 <= i < j < |states| :: states[i].norad < states[j].norad
  }

  /** States keep the order of their element sets, and each comes from one of them. */
  lemma {:induction false} StatesComeFromElements(sgp4: Sgp4, omms: seq<Omm>, now: Instant, epoch: Instant)
    requires Ascending(omms)
    ensures AscendingStates(Scan(sgp4, omms, now, epoch).states) && AllFrom(sgp4, Scan(sgp4, omms, now, epoch).states, omms, now, epoch)
  {
    if omms != [] {
      var n := |omms| - 1;
      StatesComeFromElements(sgp4, omms[..n], now, epoch);
      var before, states := Scan(sgp4, omms[..n], now, epoch).states, Scan(sgp4, omms, now, epoch).states;
      forall i | 0 <= i < |before| ensures FromSome(sgp4, before[i], omms, now, epoch) && before[i].norad < omms[n].norad {
        FromSomeLonger(sgp4, before[i], omms, now, epoch);
      }
      if |states| > |before| {
        assert From(sgp4, states[|before|], omms[n], now, epoch);
      }
    }
  }
}

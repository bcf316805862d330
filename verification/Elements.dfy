/** GP element sets and their selection (FilterOMMs in pkg/ephemeris/pass_predictor.go, pkg/ephemeris/orbit_regime.go). */
module Elements {
  import opened Prelude

  /**
   One GP element set. `epoch` is what parseOMMEpoch makes of its EPOCH text (None when neither layout
   accepts it); `elements` stands for every other field, which only SGP4 reads.
   */
  datatype Omm = Omm(norad: int, name: string, epoch: Option<Instant>, meanMotion: real, elements: string)

  function Filter(omms: seq<Omm>, ids: seq<int>): seq<Omm> {
    if omms == [] then []
    else
      var last := omms[|omms| - 1];
      Filter(omms[..|omms| - 1], ids) + (if ids == [] || last.norad in ids then [last] else [])
  }

  method FilterOMMs(omms: seq<Omm>, noradFilter: seq<int>) returns (r: seq<Omm>)
    ensures r == Filter(omms, noradFilter)
  {
    if |noradFilter| == 0 {
      FilterAll(omms);
      return omms;
    }
    var allowed: set<int> := {};
    for i := 0 to |noradFilter|
      invariant forall x :: x in allowed <==> x in noradFilter[..i]
    {
      allowed := allowed + {noradFilter[i]};
    }
    assert noradFilter[..|noradFilter|] == noradFilter;
    r := [];
    for i := 0 to |omms|
      invariant r == Filter(omms[..i], noradFilter)
    {
      assert omms[..i + 1][..i] == omms[..i];
      if omms[i].norad in allowed {
        r := r + [omms[i]];
      }
    }
    assert omms[..|omms|] == omms;
  }

  lemma {:induction false} FilterAll(omms: seq<Omm>)
    ensures Filter(omms, []) == omms
  {
    if omms != [] {
      FilterAll(omms[..|omms| - 1]);
    }
  }

  lemma {:induction false} FilterConcat(a: seq<Omm>, b: seq<Omm>, ids: seq<int>)
    ensures Filter(a + b, ids) == Filter(a, ids) + Filter(b, ids)
  {
    if b == [] {
      assert a + b == a;
    } else {
      assert (a + b)[..|a + b| - 1] == a + b[..|b| - 1];
      FilterConcat(a, b[..|b| - 1], ids);
    }
  }

  /** What survives is exactly what the selector names. */
  lemma {:induction false} FilterMembers(omms: seq<Omm>, ids: seq<int>, o: Omm)
    ensures o in Filter(omms, ids) <==> o in omms && (ids == [] || o.norad in ids)
  {
    if omms != [] {
      FilterMembers(omms[..|omms| - 1], ids, o);
      assert omms == omms[..|omms| - 1] + [omms[|omms| - 1]];
    }
  }

  /** Every NORAD the narrower selector admits is admitted by the wider one. */
  predicate Narrows(narrow: seq<int>, wide: seq<int>) {
    wide == [] || (narrow != [] && forall x | x in narrow :: x in wide)
  }

  lemma {:induction false} FilterNarrowed(omms: seq<Omm>, wide: seq<int>, narrow: seq<int>)
    requires Narrows(narrow, wide)
    ensures Filter(Filter(omms, wide), narrow) == Filter(omms, narrow)
  {
    if omms != [] {
      var last := omms[|omms| - 1];
      var rest := Filter(omms[..|omms| - 1], wide);
      FilterNarrowed(omms[..|omms| - 1], wide, narrow);
      if wide == [] || last.norad in wide {
        assert (rest + [last])[..|rest|] == rest;
      } else {
        assert rest + [] == rest;
      }
    }
  }

  const DEEP_SPACE_PERIOD: real := 225.0

  /** OrbitalPeriodMinutes: 0 for a malformed mean motion. */
  function PeriodMinutes(o: Omm): real {
    if o.meanMotion <= 0.0 then 0.0 else 1440.0 / o.meanMotion
  }

  predicate IsDeepSpace(o: Omm) {
    PeriodMinutes(o) >= DEEP_SPACE_PERIOD
  }

  /** 225 minutes and more, that is 6.4 revolutions a day or fewer; a malformed mean motion counts as near-earth. */
  lemma DeepSpaceExactly(o: Omm)
    ensures IsDeepSpace(o) <==> 0.0 < o.meanMotion <= 6.4
  {
    if o.meanMotion > 0.0 {
      assert 1440.0 / o.meanMotion * o.meanMotion == 1440.0;
      assert 1440.0 / o.meanMotion >= 225.0 <==> 1440.0 / o.meanMotion * o.meanMotion >= 225.0 * o.meanMotion;
    }
  }

  /** The two partitions of SplitByOrbitRegime, each in input order. */
  function Regime(omms: seq<Omm>, deep: bool): seq<Omm> {
    if omms == [] then []
    else
      var last := omms[|omms| - 1];
      Regime(omms[..|omms| - 1], deep) + (if IsDeepSpace(last) == deep then [last] else [])
  }

  method SplitByOrbitRegime(omms: seq<Omm>) returns (nearEarth: seq<Omm>, deepSpace: seq<Omm>)
    ensures nearEarth == Regime(omms, false) && deepSpace == Regime(omms, true)
  {
    nearEarth, deepSpace := [], [];
    for i := 0 to |omms|
      invariant nearEarth == Regime(omms[..i], false) && deepSpace == Regime(omms[..i], true)
    {
      assert omms[..i + 1][..i] == omms[..i];
      if IsDeepSpace(omms[i]) {
        deepSpace := deepSpace + [omms[i]];
      } else {
        nearEarth := nearEarth + [omms[i]];
      }
    }
    assert omms[..|omms|] == omms;
  }

  lemma {:induction false} RegimeMembers(omms: seq<Omm>, deep: bool, o: Omm)
    ensures o in Regime(omms, deep) <==> o in omms && IsDeepSpace(o) == deep
  {
    if omms != [] {
      RegimeMembers(omms[..|omms| - 1], deep, o);
      assert omms == omms[..|omms| - 1] + [omms[|omms| - 1]];
    }
  }

  lemma {:induction false} RegimeConcat(a: seq<Omm>, b: seq<Omm>, deep: bool)
    ensures Regime(a + b, deep) == Regime(a, deep) + Regime(b, deep)
  {
    if b == [] {
      assert a + b == a;
    } else {
      assert (a + b)[..|a + b| - 1] == a + b[..|b| - 1];
      RegimeConcat(a, b[..|b| - 1], deep);
    }
  }

  /** Splitting by regime and selecting by NORAD commute. */
  lemma {:induction false} RegimeThenFilter(omms: seq<Omm>, ids: seq<int>)
    ensures Filter(Regime(omms, false), ids) == Regime(Filter(omms, ids), false)
  {
    if omms != [] {
      var init, last := omms[..|omms| - 1], omms[|omms| - 1];
      RegimeThenFilter(init, ids);
      var near, kept := Regime(init, false), Filter(init, ids);
      assert (near + [last])[..|near|] == near && (kept + [last])[..|kept|] == kept;
      assert near + [] == near && kept + [] == kept;
    }
  }
}

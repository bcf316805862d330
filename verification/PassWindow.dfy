/**
 Trimming one pass to the elevation mask (pkg/ephemeris/pass_predictor.go): bisection of the crossings on
 integer nanoseconds, then whole-second rounding inwards. The elevation function is foreign code, so it is
 an arbitrary function of time that may fail (None).
 */
module PassWindow {
  import opened Prelude

  const TOLERANCE := 200 * MILLISECOND
  const ITERATIONS := 40

  type Elevation = Instant -> Option<real>

  datatype Pass = Pass(aos: Instant, los: Instant, peak: Instant)

  lemma Pow2Nibble(n: nat)
    ensures Pow2(n + 4) == 16 * Pow2(n)
  {
    assert Pow2(n + 4) == 2 * Pow2(n + 3) == 4 * Pow2(n + 2) == 8 * Pow2(n + 1);
  }

  lemma Pow2Of23()
    ensures Pow2(23) == 8_388_608
  {
    Pow2Nibble(3); Pow2Nibble(7); Pow2Nibble(11); Pow2Nibble(15); Pow2Nibble(19);
  }

  predicate Above(elev: Elevation, t: Instant, mask: real) {
    elev(t) != None && elev(t).value >= mask
  }

  predicate Below(elev: Elevation, t: Instant, mask: real) {
    elev(t) != None && elev(t).value < mask
  }

  ghost predicate Total(elev: Elevation, lo: Instant, hi: Instant) {
    forall t | lo <= t <= hi :: elev(t) != None
  }

  ghost predicate Rises(elev: Elevation, lo: Instant, hi: Instant)
    requires Total(elev, lo, hi)
  {
    forall t, u | lo <= t <= u <= hi :: elev(t).value <= elev(u).value
  }

  ghost predicate Falls(elev: Elevation, lo: Instant, hi: Instant)
    requires Total(elev, lo, hi)
  {
    forall t, u | lo <= t <= u <= hi :: elev(t).value >= elev(u).value
  }

  /** The bracket starts below the mask and ends at or above it, or the other way round. */
  predicate Straddles(elev: Elevation, lo: Instant, hi: Instant, mask: real, rising: bool) {
    if rising then Below(elev, lo, mask) && Above(elev, hi, mask) else Above(elev, lo, mask) && Below(elev, hi, mask)
  }

  /** `t` is on the usable side with a below-mask instant within the tolerance on its other side. */
  ghost predicate AtCrossing(elev: Elevation, t: Instant, lo: Instant, hi: Instant, mask: real, rising: bool) {
    && lo <= t <= hi && Above(elev, t, mask)
    && exists u: Instant | lo <= u <= hi ::
         Below(elev, u, mask) && (if rising then 0 < t - u <= TOLERANCE else 0 < u - t <= TOLERANCE)
  }

  lemma NarrowBracket(elev: Elevation, lo: Instant, hi: Instant, lo0: Instant, hi0: Instant, mask: real, rising: bool)
    requires lo0 <= lo <= hi <= hi0 && hi - lo <= TOLERANCE && Straddles(elev, lo, hi, mask, rising)
    ensures AtCrossing(elev, if rising then hi else lo, lo0, hi0, mask, rising)
  {
    if rising {
      assert Below(elev, lo, mask) && lo != hi;
    } else {
      assert Below(elev, hi, mask) && lo != hi;
    }
  }

  /** 40 halvings bring every bracket an int64 duration can express under the tolerance. */
  method RefineMaskCrossing(elev: Elevation, lo0: Instant, hi0: Instant, mask: real, rising: bool) returns (r: Option<Instant>)
    requires lo0 <= hi0 && hi0 - lo0 < Pow2(63)
    ensures r == None ==> exists t: Instant | lo0 <= t <= hi0 :: elev(t) == None
    ensures r != None ==> lo0 <= r.value <= hi0
    ensures Straddles(elev, lo0, hi0, mask, rising) && r != None ==> AtCrossing(elev, r.value, lo0, hi0, mask, rising)
  {
    var lo, hi := lo0, hi0;
    var i := 0;
    while i < ITERATIONS && hi - lo > TOLERANCE
      invariant 0 <= i <= ITERATIONS
      invariant lo0 <= lo <= hi <= hi0
      invariant hi - lo <= Pow2(63 - i)
      invariant Straddles(elev, lo0, hi0, mask, rising) ==> Straddles(elev, lo, hi, mask, rising)
    {
      var mid := lo + (hi - lo) / 2;
      var el := elev(mid);
      if el == None { return None; }
      var above := el.value >= mask;
      assert Pow2(63 - i) == 2 * Pow2(63 - (i + 1));
      if above == rising { hi := mid; } else { lo := mid; }
      i := i + 1;
    }
    Pow2Of23();
    assert hi - lo <= TOLERANCE;
    if Straddles(elev, lo, hi, mask, rising) {
      NarrowBracket(elev, lo, hi, lo0, hi0, mask, rising);
    }
    if rising { return Some(hi); }
    return Some(lo);
  }

  // ---- trimming -------------------------------------------------------------------------------

  /** A pass as the source's comments describe it: defined throughout, one peak, and the peak clears the mask. */
  ghost predicate Unimodal(elev: Elevation, p: Pass, mask: real) {
    && p.aos <= p.peak <= p.los && Total(elev, p.aos, p.los)
    && Rises(elev, p.aos, p.peak) && Falls(elev, p.peak, p.los) && Above(elev, p.peak, mask)
  }

  /** A mask at or below the horizon is not trimmed, so there the pass must already start and end above it. */
  ghost predicate HorizonCovered(elev: Elevation, p: Pass, mask: real) {
    mask > 0.0 || (Above(elev, p.aos, mask) && Above(elev, p.los, mask))
  }

  predicate Representable(p: Pass) {
    p.peak - p.aos < Pow2(63) && p.los - p.peak < Pow2(63)
  }

  /** What the trimmed rising edge guarantees. */
  ghost predicate RisingEdge(elev: Elevation, p: Pass, mask: real, aos: Instant) {
    && (forall t | aos <= t <= p.peak :: Above(elev, t, mask))
    && (forall t | p.aos <= t <= p.los && Above(elev, t, mask) :: aos - t < TOLERANCE)
  }

  ghost predicate FallingEdge(elev: Elevation, p: Pass, mask: real, los: Instant) {
    && (forall t | p.peak <= t <= los :: Above(elev, t, mask))
    && (forall t | p.aos <= t <= p.los && Above(elev, t, mask) :: t - los < TOLERANCE)
  }

  lemma RisingEdgeHolds(elev: Elevation, p: Pass, mask: real, aos: Instant)
    requires Unimodal(elev, p, mask)
    requires AtCrossing(elev, aos, p.aos, p.peak, mask, true) || (aos == p.aos && Above(elev, aos, mask))
    ensures RisingEdge(elev, p, mask, aos)
  {
  }

  lemma FallingEdgeHolds(elev: Elevation, p: Pass, mask: real, los: Instant)
    requires Unimodal(elev, p, mask)
    requires AtCrossing(elev, los, p.peak, p.los, mask, false) || (los == p.los && Above(elev, los, mask))
    ensures FallingEdge(elev, p, mask, los)
  {
  }

  lemma BothEdges(elev: Elevation, p: Pass, mask: real, aos: Instant, los: Instant)
    requires RisingEdge(elev, p, mask, aos) && FallingEdge(elev, p, mask, los)
    ensures forall t | aos <= t <= los :: Above(elev, t, mask)
    ensures forall t | p.aos <= t <= p.los && Above(elev, t, mask) :: aos - t < TOLERANCE && t - los < TOLERANCE
  {
  }

  /** The rising half of trimPassToMask. */
  method TrimStart(elev: Elevation, p: Pass, mask: real) returns (aos: Instant)
    requires Representable(p)
    ensures p.aos <= p.peak ==> p.aos <= aos <= p.peak
    ensures p.aos > p.peak ==> aos == p.aos
    ensures Unimodal(elev, p, mask) ==> RisingEdge(elev, p, mask, aos)
  {
    aos := p.aos;
    if p.peak > aos {
      var el := elev(aos);
      if el != None && el.value < mask {
        var t := RefineMaskCrossing(elev, aos, p.peak, mask, true);
        if t != None { aos := t.value; }
      }
    }
    if Unimodal(elev, p, mask) { RisingEdgeHolds(elev, p, mask, aos); }
  }

  /** The falling half. */
  method TrimEnd(elev: Elevation, p: Pass, mask: real) returns (los: Instant)
    requires Representable(p)
    ensures p.peak <= p.los ==> p.peak <= los <= p.los
    ensures p.peak > p.los ==> los == p.los
    ensures Unimodal(elev, p, mask) ==> FallingEdge(elev, p, mask, los)
  {
    los := p.los;
    if los > p.peak {
      var el := elev(los);
      if el != None && el.value < mask {
        var t := RefineMaskCrossing(elev, p.peak, los, mask, false);
        if t != None { los := t.value; }
      }
    }
    if Unimodal(elev, p, mask) { FallingEdgeHolds(elev, p, mask, los); }
  }

  method TrimPassToMask(elev: Elevation, p: Pass, mask: real) returns (aos: Instant, los: Instant)
    requires Representable(p)
    ensures p.aos <= p.peak <= p.los ==> p.aos <= aos <= p.peak <= los <= p.los
    ensures Unimodal(elev, p, mask) && HorizonCovered(elev, p, mask) ==> forall t | aos <= t <= los :: Above(elev, t, mask)
    ensures Unimodal(elev, p, mask) ==>
              forall t | p.aos <= t <= p.los && Above(elev, t, mask) :: aos - t < TOLERANCE && t - los < TOLERANCE
  {
    aos, los := p.aos, p.los;
    if mask <= 0.0 {
      return;
    }
    aos := TrimStart(elev, p, mask);
    los := TrimEnd(elev, p, mask);
    if Unimodal(elev, p, mask) { BothEdges(elev, p, mask, aos, los); }
  }

  // ---- rounding -------------------------------------------------------------------------------

  function CeilSecond(t: Instant): (r: Instant)
    ensures t <= r < t + SECOND && r % SECOND == 0
  {
    var trunc := FloorSecond(t);
    if trunc < t then trunc + SECOND else trunc
  }

  /** conservativePassWindow: None when rounding inwards leaves nothing. */
  function ConservativePassWindow(aos: Instant, los: Instant): (w: Option<(Instant, Instant)>)
    ensures w != None ==> aos <= w.value.0 < w.value.1 <= los
  {
    if FloorSecond(los) > CeilSecond(aos) then Some((CeilSecond(aos), FloorSecond(los))) else None
  }

  const EDGE_LOSS := 1_200 * MILLISECOND

  /**
   The window stored for one pass. For every elevation that rises to its peak and falls after it, each instant
   of a stored window is at or above the mask, less than 1.2 s of usable time is lost at each edge, and a pass
   is dropped only when its usable time is shorter than 2.4 s.
   */
  method StoredWindow(elev: Elevation, p: Pass, mask: real) returns (w: Option<(Instant, Instant)>)
    requires Representable(p)
    ensures w != None ==> w.value.0 % SECOND == 0 && w.value.1 % SECOND == 0 && w.value.0 < w.value.1
    ensures w != None && p.aos <= p.peak <= p.los ==> p.aos <= w.value.0 && w.value.1 <= p.los
    ensures w != None && Unimodal(elev, p, mask) && HorizonCovered(elev, p, mask) ==>
              forall t | w.value.0 <= t <= w.value.1 :: Above(elev, t, mask)
    ensures w != None && Unimodal(elev, p, mask) ==>
              forall t | p.aos <= t <= p.los && Above(elev, t, mask) :: w.value.0 - t < EDGE_LOSS && t - w.value.1 < EDGE_LOSS
    ensures w == None && Unimodal(elev, p, mask) ==>
              forall t, u | p.aos <= t <= u <= p.los && Above(elev, t, mask) && Above(elev, u, mask) :: u - t < 2 * EDGE_LOSS
  {
    var aos, los := TrimPassToMask(elev, p, mask);
    w := ConservativePassWindow(aos, los);
  }
}

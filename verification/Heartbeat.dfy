/**
 The propagation heartbeat and the consumer's epoch gate (internal/controller/satelliteephemeris_controller.go:396,532
 and internal/controller/ntncellconfig_controller.go:768): does a stored epoch always lie far enough ahead?
 */
module Heartbeat {
  import opened Prelude
  import OmmCache

  const EPOCH_LEAD: int := 5 * MINUTE
  const PROPAGATION_REFRESH: int := 3 * MINUTE
  const EPOCH_SKEW_MARGIN: int := 10 * SECOND

  /** `t.UnixMilli()`, up to the constant offset of the two calendars. */
  function Millis(t: Instant): nat {
    t / MILLISECOND
  }

  /** The epoch that a propagation at `p` stores. */
  function StoredEpoch(p: Instant): nat {
    Millis(p + EPOCH_LEAD)
  }

  /** The consumer's gate at `t`. */
  predicate Clears(epoch: nat, t: Instant) {
    epoch > Millis(t + EPOCH_SKEW_MARGIN)
  }

  /** The requeue after every reconcile that propagated. */
  lemma RequeueIsTheHeartbeat(configured: int)
    ensures Min(OmmCache.EffectiveInterval(configured), PROPAGATION_REFRESH) == 3 * MINUTE
  {
  }

  /** One reconcile that propagated at `propagated` and whose status became visible at `written`. */
  datatype Beat = Beat(propagated: Instant, written: Instant)

  /** Beats follow each other within the heartbeat plus `latency`, and each is written after it propagated. */
  predicate Beating(beats: seq<Beat>, latency: int) {
    (forall i | 0 <= i < |beats| :: beats[i].propagated <= beats[i].written)
      && forall i | 0 <= i < |beats| - 1 :: beats[i].written <= beats[i + 1].written <= beats[i].propagated + PROPAGATION_REFRESH + latency
  }

  /** The beat a consumer sees at `t`: the last one written by then. */
  function Visible(beats: seq<Beat>, t: Instant): Option<Beat> {
    if beats == [] then None
    else if beats[|beats| - 1].written <= t then Some(beats[|beats| - 1])
    else Visible(beats[..|beats| - 1], t)
  }

  const SAFE_LATENCY: int := 110 * SECOND - MILLISECOND

  lemma WithinTheLead(p: Instant, t: Instant)
    requires t <= p + PROPAGATION_REFRESH + SAFE_LATENCY
    ensures Clears(StoredEpoch(p), t)
  {
    MillisApart(t + EPOCH_SKEW_MARGIN, p + EPOCH_LEAD);
  }

  lemma MillisApart(a: Instant, b: Instant)
    requires a + MILLISECOND <= b
    ensures Millis(a) < Millis(b)
  {
    assert (a + MILLISECOND) / MILLISECOND == a / MILLISECOND + 1;
  }

  /** At every moment from the first write on, the visible epoch clears the consumer's margin. */
  lemma {:induction false} EpochAlwaysClears(beats: seq<Beat>, latency: int, t: Instant)
    requires beats != [] && latency <= SAFE_LATENCY && Beating(beats, latency)
    requires beats[0].written <= t <= beats[|beats| - 1].propagated + PROPAGATION_REFRESH + latency
    ensures Visible(beats, t).Some? && Clears(StoredEpoch(Visible(beats, t).value.propagated), t)
  {
    var n := |beats| - 1;
    if beats[n].written <= t {
      WithinTheLead(beats[n].propagated, t);
    } else {
      assert n > 0;
      EpochAlwaysClears(beats[..n], latency, t);
    }
  }

  /** The millisecond truncations take one millisecond off the nominal 110 s: the bound is exact. */
  lemma LatencyBoundIsExact(latency: nat)
    ensures latency <= SAFE_LATENCY <==>
      forall p: Instant, t: Instant | t <= p + PROPAGATION_REFRESH + latency :: Clears(StoredEpoch(p), t)
  {
    if latency <= SAFE_LATENCY {
      forall p: Instant, t: Instant | t <= p + PROPAGATION_REFRESH + latency ensures Clears(StoredEpoch(p), t) {
        WithinTheLead(p, t);
      }
    } else {
      var p: Instant := MILLISECOND - 1;
      var t: Instant := p + PROPAGATION_REFRESH + Min(latency, 110 * SECOND);
      assert StoredEpoch(p) == EPOCH_LEAD / MILLISECOND;
      assert t + EPOCH_SKEW_MARGIN >= EPOCH_LEAD;
      assert !Clears(StoredEpoch(p), t);
    }
  }
}

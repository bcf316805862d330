/** The shared source-epoch rules (internal/controller/ephemeris_freshness.go). */
module Freshness {
  import opened Prelude

  const MAX_EPOCH_AGE := 7 * DAY
  const MAX_FUTURE_SKEW := 24 * HOUR

  /** Not corrupt: enforced by the producer before SGP4 and again by the consumer. */
  predicate Plausible(now: Instant, src: Instant) {
    src <= now + MAX_FUTURE_SKEW
  }

  /** Not too old to deliver: enforced by the consumers only. */
  predicate Fresh(now: Instant, src: Instant) {
    now - src <= MAX_EPOCH_AGE
  }
}

# Verified model of the NTN operators

This project models the parts of the ntn-operators repository in which a mistake is hardest to see: the
terrestrial/satellite failover engine and the reconciler that drives it, the satellite-ephemeris producer, the
runtime-push consumer, the pass predictor, and the OCUDU configuration provider. Dafny checks the model and
every statement about it; `dafny verify dfyconfig.toml` covers all files.

## How the model is built

- **Time** is a natural number of nanoseconds since Go's zero time (0 is the zero time); clocks never run
  backwards and have left the first second of the calendar. Metrics are `real`, so NaN does not exist.
- **The API server** is a sequence of object versions. A write is accepted only over the version that was read
  (or, for a delete, only while the UID that was read is there). Reads may return any past version, writes may be
  rejected or their acknowledgement lost, and a restart empties every in-memory map. Adversarial choices are
  the actions of a trace; theorems quantify over every legal trace.
- **SHA-256 digests** are the digested values themselves, or an injective function.
- **SGP4, elevation and JSON** are arbitrary functions; number formatting is an arbitrary function that never
  produces a line break.
- Where the source changes state, so does the model: `SliceReconciler.Reconciler`, `StaleCache.Cache`,
  `OmmCache.Cache`, `OmmPersist.Store`, `PassStatus.EphStatus`, `SatSwitch.CellStatus`, `OcuduConfig.ConfigData`
  and `OcuduProvider.ApiServer` are classes, and loops are loops. Each method is tied to a function, and the
  theorems about runs are about those functions.

| files | component |
|---|---|
| `Failover`, `SliceReconciler`, `SliceRuns`, `SliceDwell`, `SliceStreaks`, `SlicePaths` | failover engine, slice reconciler, whole runs of a slice |
| `StaleCache`, `ContactSelection`, `Freshness` | metrics cache, choice of the serving pass, epoch rules |
| `Elements`, `OmmCache`, `RetryAfter`, `Heartbeat`, `Propagation`, `OmmPersist`, `PassStatus` | ephemeris producer |
| `RuntimePush`, `SatSwitch`, `OutageContinuity` | runtime push, from element set to frame, and through an outage |
| `PassWindow`, `PassOrder`, `PassCap`, `PassPrediction`, `Sorting` | pass predictor |
| `Text`, `OcuduConfig`, `EphemerisRewrite`, `ConfigReader`, `ConfigMapOwnership`, `OcuduProvider`, `OcuduCoherence` | OCUDU provider |
| `Prelude` | shared types and arithmetic |

## What the proofs found

Each of these is a lemma with a concrete input or run, beside a lemma that says, for all inputs, exactly when it happens.

- **A replayed sample can skip the switchback delay.** `resetRecoveryStreak` zeroes the recovery clock and keeps the
  observation cursor, so a healthy sample replayed after the gap starts no clock, and a clock that is not running
  passes the delay check (`SlicePaths.ReplayAfterGapSkipsTheDelay`; exactly when: `Failover.HandBackExactly`).
- **A rejected status write can hide a degraded sample.** The comment at
  internal/controller/ntnslice_controller.go:534-538 says a lost commit only delays; it also forgets a degraded sample
  in the middle of a recovery (`SlicePaths.RejectedWriteHidesADegradedSample`; exactly when:
  `SlicePaths.DegradedSampleStopsTheClockExactly`).
- **An upper-bound threshold below the margin has no dead-band**, because the recovery threshold is clamped at zero
  (`Failover.GapExactlyWhenUnclamped`, both directions).
- **"With margin <= 0 this reduces to !terrestrialDegraded"** (pkg/slice/failover.go:682-683) fails twice: an unknown
  metric is neither degraded nor recovered (`Failover.InertIsNeither`), and a reading on an inclusive threshold is both
  (`Failover.ThresholdIsBoth`). Exactly when it holds: `Failover.ReducesToNotDegradedExactly`; when the two verdicts
  overlap under any margin: `Failover.DegradedAndRecoveredExactly`.
- **The all-invalid verdict does not need every trigger to be invalid**: inert ones beside a malformed one are enough
  (`Failover.AllInvalidWithAnInertTrigger`; exactly when: `Failover.ParseTriggerSet`).
- **The nominal 110 s of reconcile latency is 109.999 s**: both sides truncate to milliseconds
  (`Heartbeat.LatencyBoundIsExact`, both directions).
- **An "absent" mark in the pass signature allows an ABA**: a station created after the digest and deleted after the
  sweep leaves PassesPredicted=True over windows of a station that is gone (`PassStatus.AbsentMarkAllowsAba`; exactly
  which stations can be trusted: `PassStatus.TrueMeansLiveExactly`).
- **The durable cache is cut to 128 before the orbit-regime guard**, so deep-space sets can crowd out the only
  propagatable satellite (`OmmPersist.CapBeforeRegimeLosesASatellite`; exactly when the input differs:
  `OmmPersist.SameInputExactly`, and when the result does: `OmmPersist.RestoredPropagatesLikeLive`).
- **A damaged durable cache is never repaired while the payload is unchanged**: the digest annotation makes every persist
  a no-op and the digest check makes every restore refuse (`OmmPersist.DamageOutlivesEveryPersist`; exactly when a
  persisted payload can be restored: `OmmPersist.PersistedCanBeRestored`).
- **A removed and re-added satellite switch is not re-sent** unless a recorded push went through in between, against the
  comment at internal/controller/ntncellconfig_controller.go:894-896 (`SatSwitch.ReAddedSwitchIsNotResent`; exactly when:
  `SatSwitch.ReAddedSwitchExactly`).
- **A lost status write or a lagging cache re-sends a satellite switch**: the frame goes out before its status write, so
  what counts is the version of the cell that the next push reads (`SatSwitch.LostWriteResends`,
  `SatSwitch.StaleReadResends`; exactly when: `SatSwitch.SwitchRidesUntilSeen` and, for two frames in a row,
  `SatSwitch.RepeatedExactlyWhenUnseen`). Only frames whose own write is lost repeat a switch
  (`SatSwitch.EachChangeIsDeliveredOnce`).
- **A delete under a UID precondition does not see a change of owner**: an object that another controller took over in
  place after the check is deleted (`ConfigMapOwnership.TakenOverInPlaceIsDeleted`; exactly when it is still ours:
  `ConfigMapOwnership.RemovedIsOursExactly`).

## Model

| member | source | states |
|---|---|---|
| Failover.ParseTriggerSet | pkg/slice/failover.go:270-309 | the loop returns exactly the live triggers, whether one fires, and whether any is inert or all are invalid |
| Failover.LiveTriggersMembers | pkg/slice/failover.go:270-309 | the live triggers are precisely the parsed ones whose metric is known |
| Failover.EachMetricReadsItsField | pkg/slice/failover.go:145-201 | for all readings, a trigger compares the field of its own metric, and an unknown field makes only its own triggers inert |
| Failover.TerrestrialDegraded | pkg/slice/failover.go:654-668 | true exactly when some live trigger fires |
| Failover.TerrestrialConfirmedRecovered | pkg/slice/failover.go:684-704 | true exactly when every parsed trigger is known and past its threshold by the margin, and the policy is empty or has a parsed trigger |
| Failover.EvaluateFailoverWithContext | pkg/slice/failover.go:329-483 | the base decision for every path, pass and trigger verdict |
| Failover.EvaluateFailoverWithHysteresis | pkg/slice/failover.go:494-602 | the decision with dead-band and switchback delay |
| Failover.EvaluateFailoverWithAntiFlap | pkg/slice/failover.go:721-809 | the decision with confirmation and dwell, and the next anti-flap state |
| Failover.HandBackNeedsConfirmedRecovery | pkg/slice/failover.go:557-601 | a hand-back off an available satellite needs every trigger known and past the margin |
| Failover.HandBackExactly | pkg/slice/failover.go:534-601 | such a hand-back happens if and only if recovery is confirmed, nothing fires, and either the running recovery clock has lasted the delay, or no clock runs and the sample is a replay (or the delay is not positive) |
| Failover.SampleCountsOnce | pkg/slice/failover.go:733-770 | a timestamped sample counts at most once: evaluated again, or after a newer one, it moves nothing |
| Failover.FailoverExactly | pkg/slice/failover.go:721-809 | from terrestrial the engine fails over if and only if the pass is available, a trigger fires, the confirmations (this sample included if new) suffice and the dwell is over; otherwise it stays |
| Failover.OtherPathsExactly | pkg/slice/failover.go:329-483 | a satellite whose pass is over is left at once whatever the sample; from unavailable the path taken for every pass and trigger verdict |
| Failover.EvaluationFacts | pkg/slice/failover.go:721-809 | every evaluation: targets, when each decision can arise, and how counter, clocks and cursor move |
| Failover.GapExactlyWhenUnclamped | pkg/slice/failover.go:146-173 | firing and recovered readings of a trigger are a margin apart, for all readings, if and only if the threshold is a lower bound or at least the margin |
| Failover.DegradedAndRecoveredExactly | pkg/slice/failover.go:684-704 | a confirmed-recovered sample is degraded as well if and only if some trigger is ambiguous on it: on its inclusive threshold without a margin, or under a threshold lifted by the clamp |
| Failover.RecoveredWithoutMarginExactly | pkg/slice/failover.go:684-704 | without a margin, recovery is confirmed if and only if nothing is inert, something parsed, and every firing trigger is ambiguous |
| Failover.ReducesToNotDegradedExactly | pkg/slice/failover.go:682-704 | on which samples the documented reduction to "not degraded" holds, for every policy |
| Failover.InertIsNeither | pkg/slice/failover.go:693-697 | an unknown metric is neither degraded nor confirmed recovered |
| Failover.ThresholdIsBoth | pkg/slice/failover.go:146-201 | a reading on an inclusive threshold is degraded and confirmed recovered |
| Failover.AllInvalidWithAnInertTrigger | pkg/slice/failover.go:270-309 | one malformed and one inert trigger are all-invalid, one inert trigger is not |
| SliceReconciler.Reconciler.LoadFlapState | internal/controller/ntnslice_controller.go:138-158 | another UID evicts the entry; another generation drops the streak and keeps the dwell clock; other keys are untouched |
| SliceReconciler.NewGenerationStartsOver | internal/controller/ntnslice_controller.go:138-158 | a new object or generation has no streak and counts its first sample, whatever its time; only a dwell clock of the same object survives |
| SliceReconciler.Reconciler.StoreFlapState | internal/controller/ntnslice_controller.go:162-169 | stores the entry under the UID and generation it was computed for |
| SliceReconciler.Reconciler.ResetRecoveryStreak | internal/controller/ntnslice_controller.go:227-237 | clears clock and counter, keeps cursor and dwell clock |
| SliceReconciler.Reconciler.SeedLastSwitchbackFromStatus | internal/controller/ntnslice_controller.go:178-201 | adopts a newer durable clock and clears one from the future |
| SliceReconciler.FutureClockSelfHeals | internal/controller/ntnslice_controller.go:178-218 | a durable dwell clock from the future holds nothing back and is gone from the next evaluated status |
| SliceReconciler.Reconciler.EvaluateReliable | internal/controller/ntnslice_controller.go:383-457 | load, seed, evaluate, mirror and count in order; the plan before the write |
| SliceReconciler.Reconciler.Reconcile | internal/controller/ntnslice_controller.go:372-541 | what is decided and written, and that memory is committed only when the write is acknowledged or unnecessary |
| SliceRuns.StepWellFormed | internal/controller/ntnslice_controller.go:372-541 | every action keeps UIDs and generations ordered, clocks in the past and the path out of `unavailable` |
| SliceDwell.MinDwellHoldsInEveryRun | internal/controller/ntnslice_controller.go:138-218 | in every run with restarts, stale reads and rejected writes, a durable failover comes at least minTerrestrialDwell after the whole second of every earlier durable quality switchback of the same UID |
| SliceDwell.DwellIsNeverInvented | internal/controller/ntnslice_controller.go:138-218 | a dwell only holds because of a hand-back that became durable, and memory is never ahead of the newest status at second granularity |
| SliceStreaks.HandBackEndsAnUnbrokenRecovery | pkg/slice/failover.go:684-770 | in every run, a durable hand-back on a new sample or a running clock ends an unbroken recovery under one policy that began at least switchbackDelay earlier |
| SliceStreaks.HandBackEndsAHealthyStreak | pkg/slice/failover.go:684-770 | in every run whose evaluations are all committed and all advance the cursor, a durable hand-back ends a streak in which every single evaluation had all triggers known and past the margin, begun at least switchbackDelay earlier |
| SliceStreaks.FailoverRestsOnNDistinctSamples | pkg/slice/failover.go:746-796 | in every run, a durable failover under N > 1 rests on N degraded samples of that UID, generation and policy with increasing source times |
| SlicePaths.PathsObeyTheOrbit | pkg/slice/failover.go:366-402 | in every run: only terrestrial and satellite; satellite entered only on a known active pass and only by a failover decided on a sample; left when the pass is known over; unchanged when unknown; without a usable sample the only move is off a satellite whose pass is over; failoverCount counts the durable failovers |
| SlicePaths.DecisionTakesEffect | internal/controller/ntnslice_controller.go:458-541 | a reconcile that wrote over the newest version leaves its decision in the status |
| SlicePaths.MarginSeparatesFailoverAndHandBack | pkg/slice/failover.go:146-173 | between any failover and any hand-back of a run some trigger's metric has moved by at least the margin |
| SlicePaths.SustainedDegradationFailsOver | pkg/slice/failover.go:746-796 | from any reachable world, N fresh degraded samples in a row during a known pass end on satellite once the dwell is over |
| SlicePaths.SustainedRecoveryHandsBack | pkg/slice/failover.go:534-601 | from any reachable world, fresh confirmed-recovered samples in a row end off the satellite once one comes switchbackDelay after the first |
| SlicePaths.ReplayAfterGapSkipsTheDelay | internal/controller/ntnslice_controller.go:227-237 | a run in which a replayed healthy sample hands back 20 s into a 60 s delay |
| SlicePaths.RejectedWriteHidesADegradedSample | internal/controller/ntnslice_controller.go:534-541 | a run in which a degraded sample whose write was rejected does not restart the recovery |
| SlicePaths.DegradedSampleStopsTheClockExactly | internal/controller/ntnslice_controller.go:530-541 | a counted degraded sample stops a running recovery clock if and only if its evaluation is committed, that is, its write was acknowledged or not needed |
| StaleCache.Cache.Read | pkg/slice/metrics/stale.go:61-102 | fresh samples are stored per UID; a failure replays the last one with its own timestamp and freshness time, a cancelled read nothing; other UIDs are untouched |
| StaleCache.ServesTheLastAnswer | pkg/slice/metrics/stale.go:61-102 | over every sequence of reads: an answer is passed on as fresh; without one the last answer there was comes back, marked stale and dated when it came, unless the caller is cancelled or there was none |
| StaleCache.OutageOnlyReplays | pkg/slice/metrics/stale.go:61-102 | during an outage every delivered sample is the last fresh one |
| StaleCache.OutageMovesNoClock | pkg/slice/metrics/stale.go:61-102 | while the replay of a counted sample is usable, no number of replays moves a counter, clock or cursor of the engine |
| StaleCache.OutageNeverAdvances | internal/controller/ntnslice_controller.go:372-457 | over every run of reconciles of an outage without a spec edit, the cursor stays, and counter and recovery clock stay until the first reconcile that holds, which clears both |
| StaleCache.OutageClearsExactlyWhenStale | internal/controller/ntnslice_controller.go:659-737 | with a readable ephemeris and no cancelled read they are cleared if and only if the last reconcile finds the sample over 90 s old |
| ContactSelection.ScanWindows | internal/controller/ntnslice_controller.go:917-955 | the scan finds the active window with fresh elements that comes first in the LOS order with its tie-breaks, and tells a stale-only pass from no pass |
| ContactSelection.CheckSatelliteAvailability | internal/controller/ntnslice_controller.go:871-955 | a pass is unknown exactly when the read failed or PassesPredicted is not True, available exactly when some active window has fresh elements, and a dangling reference is known and unavailable |
| ContactSelection.EarlierIsAnOrder | internal/controller/ntnslice_controller.go:961-969 | the tie-break is a strict order |
| ContactSelection.CandidateLeavesFirst | internal/controller/ntnslice_controller.go:917-969 | the candidate is open now and no deliverable window has an earlier LOS; ties go to the smaller NORAD, then station |
| ContactSelection.DeliverableExactly | internal/controller/ntnslice_controller.go:917-945 | a window counts if and only if it is open now and its satellite has no elements more than seven days old |
| ContactSelection.VerdictIgnoresOrder | internal/controller/ntnslice_controller.go:871-969 | the verdict does not depend on the order of the stored windows |
| Elements.FilterOMMs | pkg/ephemeris/pass_predictor.go:424-439 | the map-based loop computes the selection in input order |
| Elements.FilterMembers | pkg/ephemeris/pass_predictor.go:424-439 | an element set survives exactly when it was there and the selector is empty or names it |
| Elements.FilterNarrowed | pkg/ephemeris/pass_predictor.go:424-439 | selecting by a wider and then a narrower selector is selecting by the narrower one |
| Elements.SplitByOrbitRegime | pkg/ephemeris/orbit_regime.go:73-82 | both partitions, each in input order |
| Elements.RegimeMembers | pkg/ephemeris/orbit_regime.go:48-82 | an element set lands in the partition its orbital period demands |
| Elements.DeepSpaceExactly | pkg/ephemeris/orbit_regime.go:48-71 | deep space is a positive mean motion of at most 6.4 revolutions a day |
| Elements.RegimeThenFilter | pkg/ephemeris/orbit_regime.go:73-82 | the regime split and the NORAD selection commute |
| RetryAfter.IsAllASCIIDigits | pkg/ephemeris/gp_fetcher.go:160-170 | true exactly on non-empty runs of ASCII digits |
| RetryAfter.DecimalDenotesItself | pkg/ephemeris/gp_fetcher.go:134-170 | every number written out in decimal is a run of digits that denotes it |
| RetryAfter.ParseRetryAfter | pkg/ephemeris/gp_fetcher.go:134-181 | digits of any length mean min(value, 86400) seconds; dates are clamped to [0, 24 h]; anything else is 0 (section 10.2.3 of RFC 9110) |
| OmmCache.EffectiveInterval | internal/controller/satelliteephemeris_controller.go:131-145 | the configured interval, or the nearer end of [2 h, 24 h] when it lies outside |
| OmmCache.Cache.ObtainOMMs | internal/controller/satelliteephemeris_controller.go:1758-1840 | cache and outcome after a fetch, a failure with or without cache, a bodyless 304, or a refused URL |
| OmmCache.Cache.AcquireOMMs | internal/controller/satelliteephemeris_controller.go:822-909 | hydration of a cold cache, then cache and outcome of the whole decision: window, backoff, setup failure, fetch |
| OmmCache.OutageNeverLosesTheCache | internal/controller/satelliteephemeris_controller.go:822-909 | over every sequence of failed fetches, failed setups and bodyless 304s the element sets stay and every reconcile of their source is served from them unless the URL is refused |
| OmmCache.ContactsAreSpaced | internal/controller/satelliteephemeris_controller.go:735-842 | over every run with a matching cache, contacts under unchanged retry inputs wait for the previous one's armed delay or refresh window, the entry holds exactly the current streak, and the cache holds the element sets of the last contact that brought any, dated by the last one that did not fail |
| OmmCache.ContactsExactlyWhenDue | internal/controller/satelliteephemeris_controller.go:811-909 | a reconcile contacts the upstream if and only if it is set up, not refused, past the refresh window and past the delay of a last failure under the same retry inputs |
| OmmCache.FetchReplacesTheCache | internal/controller/satelliteephemeris_controller.go:1833-1840 | a fetch that brings element sets replaces whatever was cached, ends any backoff, and is what the reconcile propagates |
| OmmCache.NotModifiedConfirms | internal/controller/satelliteephemeris_controller.go:1815-1830 | a 304 without a body keeps the element sets, dates them anew and ends any backoff |
| OmmCache.ServedIsCached | internal/controller/satelliteephemeris_controller.go:822-909 | what a reconcile propagates is what the cache then holds for its source and object; nothing exactly when there is no such cache and the upstream could not be asked or failed |
| OmmCache.TransientRamp | internal/controller/satelliteephemeris_controller.go:735-805 | the k-th consecutive transient failure reopens after min(2^min(k-1,10) min, interval); another class or retry key restarts at k = 1 |
| OmmCache.DelayIsBounded | internal/controller/satelliteephemeris_controller.go:735-759 | every delay lies in [1 min, 24 h]; a rate limit waits exactly for the longer of interval and Retry-After; bad credentials wait 15 min |
| Heartbeat.RequeueIsTheHeartbeat | internal/controller/satelliteephemeris_controller.go:532-532 | every reconcile that propagated requeues in 3 min |
| Heartbeat.EpochAlwaysClears | internal/controller/ntncellconfig_controller.go:768-774 | with beats at most 3 min + 109.999 s apart, the visible epoch clears the 10 s margin at every moment |
| Heartbeat.LatencyBoundIsExact | internal/controller/satelliteephemeris_controller.go:396-396 | a latency bound guarantees this for all propagation instants if and only if it is at most 109.999 s |
| Propagation.FillBest | internal/controller/satelliteephemeris_controller.go:1062-1075 | the map holds the pick of every NORAD listed |
| Propagation.CanonicalizeOMMs | internal/controller/satelliteephemeris_controller.go:1062-1082 | one pick per NORAD, strictly ascending, for any order of walking the map |
| Propagation.BestIsLatest | internal/controller/satelliteephemeris_controller.go:1053-1075 | the pick has the latest parseable epoch of its satellite |
| Propagation.CanonicalIsOrderFree | internal/controller/satelliteephemeris_controller.go:1062-1082 | the (NORAD, epoch) sequence does not depend on upstream or map order; nor does the whole output when epochs are distinct |
| Propagation.CanonicalUnchangedExactly | internal/controller/satelliteephemeris_controller.go:1062-1082 | further element sets leave the canonical sequence unchanged if and only if each is of a listed satellite and no better than its pick |
| Propagation.CountHealth | internal/controller/satelliteephemeris_controller.go:1106-1121 | the pre-pass counts unparseable, implausible and stale epochs over the whole set |
| Propagation.HealthCountsEach | internal/controller/satelliteephemeris_controller.go:1106-1121 | the three counts are the numbers of element sets without an epoch, with one over a day ahead, and with one over seven days old |
| Propagation.PropagateAll | internal/controller/satelliteephemeris_controller.go:1123-1193 | the loop left at the cap yields the states, failures and skipped count of the full scan |
| Propagation.PropagateStates | internal/controller/satelliteephemeris_controller.go:1084-1200 | selection, canonical order, health and propagation put together |
| Propagation.EverySatelliteIsAccountedFor | internal/controller/satelliteephemeris_controller.go:1106-1193 | states + unparseable + implausible + failed in the scanned prefix + skipped = canonical size; at most 128 states; skipping only at the cap; the full-set counts agree below it |
| Propagation.StatesComeFromElements | internal/controller/satelliteephemeris_controller.go:1123-1193 | states are strictly ascending by NORAD and each is the propagation of a plausible element set |
| OmmPersist.Store.PersistOMMCache | internal/controller/satelliteephemeris_ommcache_persist.go:111-190 | what is written, and when an empty, oversized or unchanged payload writes nothing |
| OmmPersist.PersistKeepsTheStore | internal/controller/satelliteephemeris_ommcache_persist.go:111-190 | an empty payload, one over 900 KiB and a rejected write leave the stored object alone |
| OmmPersist.Store.HydrateFromCacheObject | internal/controller/satelliteephemeris_ommcache_persist.go:249-294 | what one candidate object yields through label, digest, identity and parse gates |
| OmmPersist.Store.RestoreOMMCache | internal/controller/satelliteephemeris_ommcache_persist.go:226-351 | a warm cache is kept; a cold one takes over what the hashed name offers, else the older name, which is then copied forward unless the hashed name exists |
| OmmPersist.RestoreIsNeverWrong | internal/controller/satelliteephemeris_ommcache_persist.go:226-351 | after any persists by this or an older version, migrations, losses and damage, a restore yields the payload of one fetch of that object from that source, with its fetch time |
| OmmPersist.PersistedCanBeRestored | internal/controller/satelliteephemeris_ommcache_persist.go:131-284 | over any existing object, an accepted persist of a payload that fits can be restored if and only if the digest short-circuit did not meet an unlabelled, damaged or foreign object |
| OmmPersist.RestartServesThePersisted | internal/controller/satelliteephemeris_ommcache_persist.go:226-312 | after a persist that did not meet a stuck object, a restart in the middle of an outage propagates the persisted payload |
| OmmPersist.RestartServesTheLegacyCopy | internal/controller/satelliteephemeris_ommcache_persist.go:226-351 | the same of a copy that only the older name holds, which is then carried over |
| OmmPersist.WarmIsKept | internal/controller/satelliteephemeris_ommcache_persist.go:226-351 | a warm cache is kept, and an object under the hashed name is preferred to and never replaced by an older copy |
| OmmPersist.DamageOutlivesEveryPersist | internal/controller/satelliteephemeris_ommcache_persist.go:178-180 | damage under an intact digest survives every number of persists of the same payload and is refused by every restore |
| OmmPersist.SameInputExactly | internal/controller/satelliteephemeris_ommcache_persist.go:111-121 | for an equal or narrowed selector, the payload propagates like the whole fetch if and only if at most 128 sets are tracked or nothing beyond them would be propagated |
| OmmPersist.RestoredPropagatesLikeLive | internal/controller/satelliteephemeris_ommcache_persist.go:111-312 | whatever object the persist met, the restored process arrives at the canonical element sets of the live one if and only if at most 128 sets are tracked or what lies beyond would not be propagated or is no better than the kept pick of its satellite; then the states are equal too |
| OmmPersist.CapBeforeRegimeLosesASatellite | internal/controller/satelliteephemeris_ommcache_persist.go:111-121 | with 129 tracked sets the restored process can lose the only satellite that is propagated live |
| PassStatus.EphStatus.InvalidatePassPredictionStatus | internal/controller/satelliteephemeris_controller.go:667-672 | windows, time, hash and condition are all cleared |
| PassStatus.EphStatus.PrepareWriteA | internal/controller/satelliteephemeris_controller.go:415-437 | when a sweep is due and what write A carries; without one, the kept windows have this signature and are under 15 min old |
| PassStatus.EphStatus.PrepareWriteB | internal/controller/satelliteephemeris_controller.go:484-503 | what write B carries after a sweep that succeeded or failed |
| PassStatus.SnapshotKeepsOrder | internal/controller/satelliteephemeris_controller.go:617-660 | every creation, edit, termination or removal of a station keeps UID, generation and terminating flag from ever returning to a value they have left |
| PassStatus.DigestExactly | internal/controller/satelliteephemeris_controller.go:618-660 | two signatures are equal if and only if the pass inputs are, up to order, and every station shows the same mark |
| PassStatus.SweepsExactlyWhenDue | internal/controller/satelliteephemeris_controller.go:409-437 | a heartbeat with stations goes on to sweep unless the stored signature is the one just read and the last sweep is under 15 min old; then the pass status is left alone, and a changed signature clears it to Unknown |
| PassStatus.UnconfiguredClears | internal/controller/satelliteephemeris_controller.go:416-421 | without stations a heartbeat never sweeps and clears every pass field |
| PassStatus.UndisturbedSweep | internal/controller/satelliteephemeris_controller.go:484-516 | undisturbed, a due sweep over stations that are all there ends in True under the live signature, stamped with its end |
| PassStatus.TrueMeansLiveExactly | internal/controller/satelliteephemeris_controller.go:409-516 | in every run windows are shown exactly under PassesPredicted=True, and True with the live signature means windows of the live inputs, in which each station was swept exactly as it is now if and only if it exists now |
| PassStatus.TrueMeansLive | internal/controller/satelliteephemeris_controller.go:409-516 | so without an absent mark the windows are those of every station exactly as it is now |
| PassStatus.AbsentMarkAllowsAba | internal/controller/satelliteephemeris_controller.go:648-658 | a run that ends with the live signature and True over windows of a station that no longer exists |
| RuntimePush.UniquePropagatedNorads | internal/controller/ntncellconfig_controller.go:1069-1075 | counts the distinct NORADs |
| RuntimePush.SelectPropagatedState | internal/controller/ntncellconfig_controller.go:1080-1093 | the first state of the wanted satellite, or the first state |
| RuntimePush.SelectedIsWanted | internal/controller/ntncellconfig_controller.go:1080-1093 | the selection is one of the states and of the wanted satellite; none is selected only when there is none |
| RuntimePush.CheckGates | internal/controller/ntncellconfig_controller.go:716-799 | the verdict of every gate before deduplication, in order |
| RuntimePush.VerdictExactly | internal/controller/ntncellconfig_controller.go:716-799 | which gate closes if and only if: other inputs, several satellites and none asked for, none of the one asked for, an epoch not ten seconds ahead or a source epoch out of bounds |
| RuntimePush.DeliveredIsAdmitted | internal/controller/ntncellconfig_controller.go:716-799 | an admitted state has matching inputs, is the wanted or the only satellite, lies ahead of the margin and has a fresh, plausible source epoch |
| RuntimePush.EveryFrameIsBacked | internal/controller/satelliteephemeris_controller.go:396-407 | in every run across early returns, restarts, restores and edits, every frame was propagated from an element set fetched from the source, and within the selector, of the spec the consumer read |
| RuntimePush.EarlyReturnKeepsTheStates | internal/controller/satelliteephemeris_controller.go:1663-1720 | a reconcile without element sets leaves the propagated states and their input hash as they were |
| SatSwitch.CellStatus.Push | internal/controller/ntncellconfig_controller.go:809-898 | what a push sends and records on success, failure and when up to date |
| SatSwitch.SentExactlyWhenNew | internal/controller/ntncellconfig_controller.go:809-898 | a successful push adds a frame if and only if the version it read does not show that very state as pushed for its own generation; a failed one adds none |
| SatSwitch.EachStateGoesOutOnce | internal/controller/ntncellconfig_controller.go:809-811 | through any offers, closed gates and spec edits, the states on the wire are exactly the offers that differ from the event before them |
| SatSwitch.SwitchRidesUntilSeen | internal/controller/ntncellconfig_controller.go:832-898 | in every run, with stale reads and lost writes at will, each version records the switch of the last frame whose write it contains, and a frame carries its switch if and only if the version it read does not record it |
| SatSwitch.RepeatedExactlyWhenUnseen | internal/controller/ntncellconfig_controller.go:832-898 | a switch just sent is sent again by the next frame that wants it if and only if the version that frame read does not show it: never after reading past a kept write, always after reading the same version |
| SatSwitch.SwitchRidesOnChange | internal/controller/ntncellconfig_controller.go:832-898 | in every run, among the frames whose write was kept, a frame carries the switch exactly when it differs from the one wanted at the previous such frame; so if every write is kept, among all frames |
| SatSwitch.EachChangeIsDeliveredOnce | internal/controller/ntncellconfig_controller.go:832-898 | in every run, the switches delivered by frames whose write was kept are the wanted ones, each change once |
| SatSwitch.RecordedExactlyOnceKept | internal/controller/ntncellconfig_controller.go:832-898 | from any reachable world, through any refusals, failures, stale reads and lost writes, a pending switch is recorded exactly when the write of some frame sent since was kept |
| SatSwitch.PendingRidesUntilSeen | internal/controller/ntncellconfig_controller.go:832-898 | and a frame that sees the pending switch carries it if and only if the version it read contains the write of no frame sent since |
| SatSwitch.ReAddedSwitchIsNotResent | internal/controller/ntncellconfig_controller.go:894-898 | a run in which a removed and re-added switch is not sent again |
| SatSwitch.ReAddedSwitchExactly | internal/controller/ntncellconfig_controller.go:832-898 | whatever pushes, failures, refused gates, stale reads and lost writes come in between and after, a frame that sees the re-added switch carries it if and only if some frame went out without it and was recorded, and the version read contains no frame sent since |
| SatSwitch.LostWriteResends | internal/controller/ntncellconfig_controller.go:832-898 | a lost status write makes the next push send the same switch again |
| SatSwitch.StaleReadResends | internal/controller/ntncellconfig_controller.go:832-898 | a push that reads the version before a kept write sends the switch again, and one that has caught up does not although the write before it was lost |
| OutageContinuity.EveryReconcilePropagates | internal/controller/satelliteephemeris_controller.go:861-909 | every reconcile of an outage with a warm cache stores the propagation of the same cached element sets |
| OutageContinuity.DeliversExactlyWhileFresh | internal/controller/ntncellconfig_controller.go:716-799 | within a beat and its latency, for a source of any size, the gates deliver the asked-for satellite if and only if it is inside the cap of 128, propagates, and has a source epoch of at most seven days; which refusal otherwise |
| OutageContinuity.ReconcileThenPush | internal/controller/satelliteephemeris_controller.go:396-407 | in any world, an accepted reconcile with element sets and a push within the heartbeat and its latency put the satellite's state on the wire if and only if it is inside the cap, propagates and is fresh |
| OutageContinuity.ScanFindsExactly | internal/controller/satelliteephemeris_controller.go:1123-1193 | an element set has a state exactly when fewer than 128 before it have one, its epoch is plausible and SGP4 succeeds |
| OutageContinuity.OutageKeepsTheCellSupplied | internal/controller/satelliteephemeris_controller.go:522-532 | during any outage with a warm cache and beats within the safe latency, the status a cell sees supplies its satellite at every moment, exactly while it is inside the cap, propagates, and its source epoch is at most seven days old |
| OutageContinuity.OutageSendsEachStateOnce | internal/controller/ntncellconfig_controller.go:716-811 | through the same outage, what the gates offer the cell is what the supply asks for, and each new state goes out once |
| OutageContinuity.NewBeatIsANewState | internal/controller/ntncellconfig_controller.go:1113-1150 | two supplies of a satellite are the same state if and only if their epochs agree to the millisecond and SGP4 gives the same ECEF |
| PassWindow.RefineMaskCrossing | pkg/ephemeris/pass_predictor.go:396-421 | from any int64 bracket, 40 halvings end on the usable side within 200 ms of a below-mask instant |
| PassWindow.TrimStart | pkg/ephemeris/pass_predictor.go:371-377 | the trimmed start is at or above the mask up to the peak and at most 200 ms late |
| PassWindow.TrimEnd | pkg/ephemeris/pass_predictor.go:380-386 | the trimmed end, likewise |
| PassWindow.TrimPassToMask | pkg/ephemeris/pass_predictor.go:360-388 | for an elevation that rises and falls, the trimmed pass is above the mask throughout and loses less than 200 ms at each edge |
| PassWindow.ConservativePassWindow | pkg/ephemeris/pass_predictor.go:444-470 | a rounded window lies inside the computed one and is not empty |
| PassWindow.StoredWindow | pkg/ephemeris/pass_predictor.go:360-470 | every instant of a stored window is at or above the mask, under 1.2 s is lost at each edge, and only passes with under 2.4 s of usable time are dropped |
| PassOrder.LessIsTotal | pkg/ephemeris/pass_predictor.go:238-249 | any two keys are ordered one way or are equal |
| PassOrder.KeysAreTotallyOrdered | pkg/ephemeris/pass_predictor.go:238-249 | lessPass is a total order on keys and a weak order on passes |
| PassOrder.SortedAscends | pkg/ephemeris/pass_predictor.go:238-249 | sorted passes ascend by AOS, then satellite, then station, then LOS |
| PassCap.CountSatellites | pkg/ephemeris/pass_predictor.go:203-210 | counts the distinct satellites |
| PassCap.SplitByQuota | pkg/ephemeris/pass_predictor.go:212-222 | the quota loop with its running counts computes the split |
| PassCap.Refill | pkg/ephemeris/pass_predictor.go:223-229 | the remaining budget goes to the earliest leftover passes |
| PassCap.CapPerSatellite | pkg/ephemeris/pass_predictor.go:199-232 | a sorted rearrangement of the chosen passes, or the input itself when it fits |
| PassCap.CapIsFair | pkg/ephemeris/pass_predictor.go:199-232 | exactly min(len, limit) passes; each satellite keeps its earliest ones; at least min(count, limit/nSat) each when satellites do not outnumber the limit, at most one each when they do |
| PassCap.EarliestAreKept | pkg/ephemeris/pass_predictor.go:199-232 | of one satellite, no pass that is dropped has an earlier AOS than one that is kept |
| PassCap.RefillTakesTheEarliest | pkg/ephemeris/pass_predictor.go:223-229 | beyond the quotas, no pass that is dropped has an earlier AOS than one that fills the budget |
| PassPrediction.RunWorkers | pkg/ephemeris/pass_predictor.go:138-164 | for any completion order, everything found and some error if there was one |
| PassPrediction.PredictPasses | pkg/ephemeris/pass_predictor.go:90-192 | when it refuses, is empty, is cancelled or fails, and otherwise an answer that does not mention the schedule |
| PassPrediction.AnswersAreDeterministic | pkg/ephemeris/pass_predictor.go:135-192 | any two answers on one input agree on failing and on every key shown, and are equal when keys are unique |
| PassPrediction.AnswersShowTheEarliest | pkg/ephemeris/pass_predictor.go:165-192 | an answer ascends by AOS, shows min(found, 500) of the passes the work items yielded, and leaves out no pass of a satellite that starts before one it shows |
| PassPrediction.WorkIsEveryPair | pkg/ephemeris/pass_predictor.go:123-132 | every satellite over every station is one work item |
| PassPrediction.FoundExactly | pkg/ephemeris/pass_predictor.go:138-164 | a pass is found if and only if some work item yields it |
| EphemerisRewrite.BlockHasShape | pkg/provider/ocudu/provider.go:463-487 | a rendered block is the key line of its representation at the given column and six fields two columns deeper |
| EphemerisRewrite.ReplaceBlock | pkg/provider/ocudu/provider.go:501-533 | the loop with its found flag replaces the first block and copies every other line |
| EphemerisRewrite.ReplaceEphemeris | pkg/provider/ocudu/provider.go:501-533 | found exactly when there is a key line; unchanged text when there is none |
| EphemerisRewrite.FirstBlockReplaced | pkg/provider/ocudu/provider.go:501-533 | around any well-shaped block, wherever it stands, all other lines are preserved |
| EphemerisRewrite.LastReplacementWins | pkg/provider/ocudu/provider.go:501-533 | on arbitrary text, replacing twice is replacing once with the second value |
| EphemerisRewrite.BothRenderersAgree | pkg/provider/ocudu/provider.go:463-487 | the push renderer and the template render the same block from the same codepoints |
| EphemerisRewrite.RewriteIsRegenerate | pkg/provider/ocudu/config.go:122-228 | rewriting a generated configuration equals generating it from the spec with the new ephemeris, character by character |
| OcuduConfig.Sanitize | pkg/provider/ocudu/config.go:82-92 | no LF, CR, NEL, LS, PS or NUL is left; breaks become blanks in place and text without any of them is unchanged |
| OcuduConfig.ConfigData.ApplyTAInfo | pkg/provider/ocudu/config.go:363-378 | timing advance and its drift, and nothing else |
| OcuduConfig.ConfigData.ApplyOptionalNTNFields | pkg/provider/ocudu/config.go:380-422 | the optional blocks, and nothing else |
| OcuduConfig.ConfigData.ApplyStage3Fields | pkg/provider/ocudu/config.go:424-448 | neighbours, reference location and threshold, and nothing else |
| OcuduConfig.ConfigData.ApplyCellOverrides | pkg/provider/ocudu/config.go:450-475 | overrides over defaults, and nothing else |
| OcuduConfig.ConfigData.ApplyEphemeris | pkg/provider/ocudu/config.go:477-505 | the ephemeris in physical units and nothing else, or the error for both or no representation |
| OcuduConfig.GenerateConfig | pkg/provider/ocudu/config.go:318-338 | a spec is rendered exactly when it has one ephemeris, as the record of its fields says; which error otherwise |
| ConfigReader.ConfigShowsTheSpec | pkg/provider/ocudu/config.go:122-228 | the generated text, read by indentation alone, shows every field of the spec under its own key, in its own unit and with its default, in order, and nothing else |
| ConfigReader.RewrittenShowsTheUpdate | pkg/provider/ocudu/provider.go:501-533 | after a push the text shows the pushed ephemeris and every other field as before |
| ConfigMapOwnership.EveryWriteIsLegitimate | pkg/provider/ocudu/provider.go:183-306 | in every interleaving, updates overwrite only what the CR controlled or could adopt and keep what is foreign in it, deletes remove the very UID that passed the check, and created objects are owned from their first version |
| ConfigMapOwnership.ForeignObjectsAreUntouched | pkg/provider/ocudu/provider.go:135-171 | an object that was never the CR's in any state is never written or deleted by the provider |
| ConfigMapOwnership.OursExactly | pkg/provider/ocudu/provider.go:135-160 | an object may be touched if and only if its first controller reference is the CR, or it has no owner, carries the labels and holds a configuration |
| ConfigMapOwnership.StillOursExactly | pkg/provider/ocudu/provider.go:145-171 | after any run, an object that is still there is ours if and only if the last state another actor put in its place is, or it was and there is none |
| ConfigMapOwnership.RemovedIsOursExactly | pkg/provider/ocudu/provider.go:165-170 | the same of whatever a delete of an earlier read removes |
| ConfigMapOwnership.TakenOverInPlaceIsDeleted | pkg/provider/ocudu/provider.go:165-170 | an object taken over by another controller after the check is deleted under the UID precondition |
| ConfigMapOwnership.UpkeepChangesNothing | pkg/provider/ocudu/provider.go:284-288 | over an applied object, no sequence of Apply and Push of its spec, at reads of any age, changes the store |
| ConfigMapOwnership.OneApplyIsEnough | pkg/provider/ocudu/provider.go:183-306 | after one Apply on a free name or over an object of ours, no run of further Apply and Push of the spec writes anything |
| ConfigMapOwnership.PushIsApplyOfTheNewSpec | pkg/provider/ocudu/provider.go:374-412 | a push leaves exactly the configuration of the spec with the pushed ephemeris |
| ConfigMapOwnership.PushExactly | pkg/provider/ocudu/provider.go:374-412 | when a push refuses, cannot work or has nothing to do; a write changes the ephemeris in the stored text and nothing else |
| OcuduCoherence.ProviderIsCoherent | pkg/provider/ocudu/provider.go:404-406 | the real renderers meet what the previous three rows ask of them |
| OcuduCoherence.ProviderIsQuiet | pkg/provider/ocudu/provider.go:183-412 | OneApplyIsEnough for the real renderers, with no hypothesis left but one-line formatting |
| OcuduCoherence.AppliedShowsTheSpec | pkg/provider/ocudu/provider.go:183-306 | an applied object shows every field of its spec in the configuration and the koffset in its annotation |
| OcuduProvider.ApplyCellConfig | pkg/provider/ocudu/provider.go:183-306 | with any changes by others between its requests, the call is a run of the protocol; success means the desired object was there; refusal, conflict and failure each say what was seen and write nothing; undisturbed, it succeeds exactly on a free name or an object of ours |
| OcuduProvider.PushEphemerisUpdate | pkg/provider/ocudu/provider.go:354-412 | likewise; refused exactly for a foreign object, failed exactly without an object, configuration or block, in conflict only when something changed under it, and on success the object carried the pushed ephemeris |
| OcuduProvider.Cleanup | pkg/provider/ocudu/provider.go:145-171 | nothing happens to an object that is not ours; after success ours is gone; undisturbed it succeeds |

## Left out

- Trigger texts are parsed or malformed by assumption; the grammar of trigger strings is not modelled.
- Reasons, messages, events, log lines and Prometheus series: observability only.
- The ground-station controller, the maintenance window, QoS, security and billing status: they would only add easy members.
- HTTP, WebSocket, TLS, Secrets, DNS and egress checks: a fetch, a setup and a push succeed or fail by choice of the trace.
- SGP4, TEME-to-ECEF and GeneratePasses: arbitrary functions, total or failing; predictSingle's own assembly of a pass is not modelled.
- The wording of the template's fixed comment lines: a parameter that contains no line break.
- Invalid UTF-8 in ConfigMap text: text is a sequence of characters.
- API errors other than not-found, already-exists and conflict: they end a provider call without a write.
- A ConfigMap cache object forged with a recomputed digest: the restore theorems assume that only the operator stamps annotations.
- Restoring after a source edit that returns a byte-identical payload: the digest short-circuit keeps the old source key; OmmPersist.PersistedCanBeRestored says exactly when the payload is there.
- Pass windows are identified by the inputs they were swept from; their dependence on element sets and on the sweep time is not part of PassStatus.
- Two operator processes working on the same slice at once; one process memory is modelled, and a handover is a wiped memory.
- RuntimePush.EveryFrameIsBacked: speaks of the version of the SatelliteEphemeris that the consumer read, which a lagging informer may show late; one UID per run.
- SatSwitch.EachChangeIsDeliveredOnce: says nothing of frames whose own write was lost; SatSwitch.SwitchRidesUntilSeen says what those carry. One UID of the cell per run.

/** The durable element-set cache (internal/controller/satelliteephemeris_ommcache_persist.go). */
module OmmPersist {
  import opened Prelude
  import opened Elements
  import opened OmmCache
  import opened Propagation

  const MAX_BYTES: nat := 900 * 1024

  /**
   JSON, SHA-256 and the re-validation on restore, as far as they matter here. `valid` is the filter every fetched
   element set has passed; `parse` applies it again and is None on malformed text.
   */
  datatype Codec = Codec(valid: Omm -> bool, marshal: seq<Omm> -> string, parse: string -> Option<seq<Omm>>, digest: string -> string)

  predicate AllValid(c: Codec, omms: seq<Omm>) {
    forall i | 0 <= i < |omms| :: c.valid(omms[i])
  }

  /** Valid element sets survive printing, non-empty lists print something, and digests do not collide. */
  ghost predicate Faithful(c: Codec) {
    && (forall omms: seq<Omm> :: AllValid(c, omms) ==> c.parse(c.marshal(omms)) == Some(omms))
    && (forall omms: seq<Omm> :: omms != [] ==> c.marshal(omms) != [])
    && (forall a, b :: c.digest(a) == c.digest(b) ==> a == b)
  }

  /** A successful fetch: the object, its source and selector, and the (already validated) element sets. */
  datatype Fetch = Fetch(uid: nat, source: SourceKey, selector: seq<int>, omms: seq<Omm>, fetchedAt: Instant)

  /** ommCachePayload: the tracked element sets, at most 128, in upstream order. */
  function PayloadOf(f: Fetch): seq<Omm> {
    var tracked := Filter(f.omms, f.selector);
    if |tracked| > MAX_STATES then tracked[..MAX_STATES] else tracked
  }

  /** The cache ConfigMap of one object: label, annotations and data. */
  datatype Object = Object(labelled: bool, source: SourceKey, fetchedAt: Instant, digest: string, uid: nat, data: string)

  function Stamped(c: Codec, f: Fetch): Object {
    var data := c.marshal(PayloadOf(f));
    Object(true, f.source, f.fetchedAt, c.digest(data), f.uid, data)
  }

  /** The payload is worth persisting and fits. */
  predicate Persistable(c: Codec, f: Fetch) {
    PayloadOf(f) != [] && |c.marshal(PayloadOf(f))| <= MAX_BYTES
  }

  /** persistOMMCache; `accepted` is whether the API server takes the write. */
  function Persisted(c: Codec, held: Option<Object>, f: Fetch, accepted: bool): Option<Object> {
    var data := c.marshal(PayloadOf(f));
    if PayloadOf(f) == [] || |data| > MAX_BYTES then held
    else if held.Some? && held.value.digest == c.digest(data) && held.value.data != [] then held
    else if accepted then Some(Stamped(c, f))
    else held
  }

  /** hydrateFromCacheObject: what a cold process takes over, None when any gate refuses. */
  function Restored(c: Codec, held: Option<Object>, source: SourceKey, uid: nat): Option<Entry> {
    if held == None || !held.value.labelled || held.value.data == [] then None
    else if held.value.digest != c.digest(held.value.data) then None
    else if held.value.uid != uid || held.value.source != source then None
    else
      var omms := c.parse(held.value.data);
      if omms == None || omms.value == [] then None
      else Some(Entry(Payload(omms.value, held.value.fetchedAt, false), source, uid, 0, None, 0, None))
  }

  /** restoreOMMCache on a cold cache: the hashed name first, then the name older versions used. */
  function Offered(c: Codec, held: Option<Object>, legacy: Option<Object>, source: SourceKey, uid: nat): Option<Entry> {
    var e := Restored(c, held, source, uid);
    if e.Some? then e else Restored(c, legacy, source, uid)
  }

  /** copyCacheForward: a migrated object is created under the hashed name; one that exists there is left alone. */
  function Forwarded(c: Codec, held: Option<Object>, legacy: Option<Object>, source: SourceKey, uid: nat, accepted: bool): Option<Object> {
    if held == None && Restored(c, legacy, source, uid).Some? && accepted then legacy else held
  }

  /** The process and its two ConfigMaps. */
  class Store {
    const codec: Codec
    var held: Option<Object>
    var legacy: Option<Object>
    var cache: Option<Entry>

    constructor (c: Codec, migrating: Option<Object>)
      ensures codec == c && held == None && legacy == migrating && cache == None
    {
      codec, held, legacy, cache := c, None, migrating, None;
    }

    method PersistOMMCache(f: Fetch, accepted: bool)
      modifies `held
      ensures held == Persisted(codec, old(held), f, accepted)
    {
      var omms := FilterOMMs(f.omms, f.selector);
      if |omms| > MAX_STATES {
        omms := omms[..MAX_STATES];
      }
      if |omms| == 0 {
        return;
      }
      var data := codec.marshal(omms);
      if |data| > MAX_BYTES {
        return;
      }
      var digest := codec.digest(data);
      if held.Some? && held.value.digest == digest && held.value.data != "" {
        return;
      }
      if accepted {
        held := Some(Object(true, f.source, f.fetchedAt, digest, f.uid, data));
      }
    }

    /** One candidate object, through every gate. */
    method HydrateFromCacheObject(candidate: Option<Object>, source: SourceKey, uid: nat) returns (e: Option<Entry>)
      ensures e == Restored(codec, candidate, source, uid)
    {
      if candidate == None {
        return None;
      }
      var cm := candidate.value;
      if !cm.labelled || cm.data == "" {
        return None;
      }
      if cm.digest != codec.digest(cm.data) {
        return None;
      }
      if cm.uid != uid || cm.source != source {
        return None;
      }
      var omms := codec.parse(cm.data);
      if omms == None || |omms.value| == 0 {
        return None;
      }
      return Some(Entry(Payload(omms.value, cm.fetchedAt, false), source, uid, 0, None, 0, None));
    }

    method RestoreOMMCache(source: SourceKey, uid: nat, accepted: bool) returns (hydrated: bool)
      modifies `cache, `held
      ensures old(cache).Some? ==> !hydrated && cache == old(cache) && held == old(held)
      ensures old(cache) == None ==> cache == Offered(codec, old(held), legacy, source, uid) && hydrated == cache.Some?
      ensures old(cache) == None && Restored(codec, old(held), source, uid) == None ==>
        held == Forwarded(codec, old(held), legacy, source, uid, accepted)
      ensures Restored(codec, old(held), source, uid).Some? ==> held == old(held)
    {
      if cache.Some? {
        return false;
      }
      var e := HydrateFromCacheObject(held, source, uid);
      if e.Some? {
        cache := e;
        return true;
      }
      e := HydrateFromCacheObject(legacy, source, uid);
      if e.Some? {
        cache := e;
        if held == None && accepted {
          held := legacy;
        }
      }
      return e.Some?;
    }
  }

  // ---- a restore is never wrong ------------------------------------------------------------------------------

  datatype World = World(held: Option<Object>, legacy: Option<Object>, fetches: seq<Fetch>)

  /** Persisting a fetch (now, or by an older version), a restore with its migration, or damage to the bytes by anyone. */
  datatype Action =
    | Persist(fetch: Fetch, accepted: bool)
    | OldPersist(fetch: Fetch, accepted: bool)
    | Restore(source: SourceKey, uid: nat, accepted: bool)
    | Corrupt(data: string)
    | CorruptOld(data: string)
    | Drop

  const EMPTY := World(None, None, [])

  predicate Enabled(c: Codec, a: Action) {
    a.Persist? || a.OldPersist? ==> AllValid(c, a.fetch.omms)
  }

  function Damaged(held: Option<Object>, data: string): Option<Object> {
    if held.Some? then Some(held.value.(data := data)) else None
  }

  function Step(c: Codec, w: World, a: Action): World {
    match a
    case Persist(f, accepted) => w.(held := Persisted(c, w.held, f, accepted), fetches := w.fetches + [f])
    case OldPersist(f, accepted) => w.(legacy := Persisted(c, w.legacy, f, accepted), fetches := w.fetches + [f])
    case Restore(source, uid, accepted) => w.(held := Forwarded(c, w.held, w.legacy, source, uid, accepted))
    case Corrupt(data) => w.(held := Damaged(w.held, data))
    case CorruptOld(data) => w.(legacy := Damaged(w.legacy, data))
    case Drop => w.(held := None)
  }

  function Run(c: Codec, w: World, trace: seq<Action>): World {
    if trace == [] then w else Step(c, Run(c, w, trace[..|trace| - 1]), trace[|trace| - 1])
  }

  /** The object's identity, time and digest are those of fetch `f`. */
  predicate StampOf(c: Codec, o: Object, f: Fetch) {
    && f.uid == o.uid && f.source == o.source && o.digest == c.digest(c.marshal(PayloadOf(f))) && o.fetchedAt == f.fetchedAt
    && AllValid(c, f.omms) && Persistable(c, f)
  }

  /** They are those of one real fetch of that object from that source. */
  ghost predicate Genuine(c: Codec, held: Option<Object>, fetches: seq<Fetch>) {
    held.Some? ==> exists f | f in fetches :: StampOf(c, held.value, f)
  }

  lemma GenuineLater(c: Codec, held: Option<Object>, fetches: seq<Fetch>, g: Fetch)
    requires Genuine(c, held, fetches)
    ensures Genuine(c, held, fetches + [g])
  {
    if held.Some? {
      var f :| f in fetches && StampOf(c, held.value, f);
      assert f in fetches + [g];
    }
  }

  lemma PersistedGenuine(c: Codec, held: Option<Object>, fetches: seq<Fetch>, f: Fetch, accepted: bool)
    requires Genuine(c, held, fetches) && AllValid(c, f.omms)
    ensures Genuine(c, Persisted(c, held, f, accepted), fetches + [f])
  {
    GenuineLater(c, held, fetches, f);
    assert f in fetches + [f];
  }

  lemma DamagedGenuine(c: Codec, held: Option<Object>, fetches: seq<Fetch>, data: string)
    requires Genuine(c, held, fetches)
    ensures Genuine(c, Damaged(held, data), fetches)
  {
    if held.Some? {
      var f :| f in fetches && StampOf(c, held.value, f);
      assert StampOf(c, Damaged(held, data).value, f);
    }
  }

  lemma StepGenuine(c: Codec, w: World, a: Action)
    requires Genuine(c, w.held, w.fetches) && Genuine(c, w.legacy, w.fetches) && Enabled(c, a)
    ensures var v := Step(c, w, a); Genuine(c, v.held, v.fetches) && Genuine(c, v.legacy, v.fetches)
  {
    match a
    case Persist(f, accepted) =>
      PersistedGenuine(c, w.held, w.fetches, f, accepted);
      GenuineLater(c, w.legacy, w.fetches, f);
    case OldPersist(f, accepted) =>
      PersistedGenuine(c, w.legacy, w.fetches, f, accepted);
      GenuineLater(c, w.held, w.fetches, f);
    case Corrupt(data) => DamagedGenuine(c, w.held, w.fetches, data);
    case CorruptOld(data) => DamagedGenuine(c, w.legacy, w.fetches, data);
    case Restore(_, _, _) =>
    case Drop =>
  }

  lemma {:induction false} RunGenuine(c: Codec, trace: seq<Action>)
    requires forall i | 0 <= i < |trace| :: Enabled(c, trace[i])
    ensures var w := Run(c, EMPTY, trace); Genuine(c, w.held, w.fetches) && Genuine(c, w.legacy, w.fetches)
  {
    if trace != [] {
      RunGenuine(c, trace[..|trace| - 1]);
      StepGenuine(c, Run(c, EMPTY, trace[..|trace| - 1]), trace[|trace| - 1]);
    }
  }

  lemma PayloadIsValid(c: Codec, f: Fetch)
    requires AllValid(c, f.omms)
    ensures AllValid(c, PayloadOf(f))
  {
    forall i | 0 <= i < |PayloadOf(f)| ensures c.valid(PayloadOf(f)[i]) {
      FilterMembers(f.omms, f.selector, PayloadOf(f)[i]);
    }
  }

  /** `e` is the payload of `f`, for that object and source, with its fetch time. */
  predicate EntryOf(e: Entry, f: Fetch) {
    e == Entry(Payload(PayloadOf(f), f.fetchedAt, false), f.source, f.uid, 0, None, 0, None)
  }

  lemma RestoredIsGenuine(c: Codec, held: Option<Object>, fetches: seq<Fetch>, source: SourceKey, uid: nat)
    requires Faithful(c) && Genuine(c, held, fetches)
    ensures var e := Restored(c, held, source, uid);
      e.Some? ==> e.value.uid == uid && e.value.source == source && exists f | f in fetches :: EntryOf(e.value, f)
  {
    var e := Restored(c, held, source, uid);
    if e.Some? {
      var f :| f in fetches && StampOf(c, held.value, f);
      assert held.value.data == c.marshal(PayloadOf(f));
      PayloadIsValid(c, f);
      assert EntryOf(e.value, f);
    }
  }

  /**
   Whatever was persisted by this or an older version, migrated, lost or damaged before: a restore for an object and a
   source yields exactly the payload of one fetch of that object from that source, with its original fetch time.
   */
  lemma RestoreIsNeverWrong(c: Codec, trace: seq<Action>, source: SourceKey, uid: nat)
    requires Faithful(c) && forall i | 0 <= i < |trace| :: Enabled(c, trace[i])
    ensures var w := Run(c, EMPTY, trace); var e := Offered(c, w.held, w.legacy, source, uid);
      e.Some? ==> e.value.uid == uid && e.value.source == source && exists f | f in w.fetches :: EntryOf(e.value, f)
  {
    var w := Run(c, EMPTY, trace);
    RunGenuine(c, trace);
    RestoredIsGenuine(c, w.held, w.fetches, source, uid);
    RestoredIsGenuine(c, w.legacy, w.fetches, source, uid);
  }

  // ---- a restored cache propagates like the live result ---------------------------------------------------------

  /** What a reconcile with this selector hands to the propagation: near-earth only, then selected. */
  function Propagated(omms: seq<Omm>, selector: seq<int>): seq<Omm> {
    Filter(Regime(omms, false), selector)
  }

  lemma PropagatedConcat(a: seq<Omm>, b: seq<Omm>, selector: seq<int>)
    ensures Propagated(a + b, selector) == Propagated(a, selector) + Propagated(b, selector)
  {
    RegimeConcat(a, b, false);
    FilterConcat(Regime(a, false), Regime(b, false), selector);
  }

  /** Whatever the cut at 128 removed, this selector would not have propagated it. */
  predicate NothingCut(f: Fetch, selector: seq<int>) {
    var tracked := Filter(f.omms, f.selector);
    |tracked| <= MAX_STATES || Propagated(tracked[MAX_STATES..], selector) == []
  }

  /** Before the cut, the tracked element sets propagate like the whole fetch. */
  lemma TrackedPropagates(f: Fetch, selector: seq<int>)
    requires Narrows(selector, f.selector)
    ensures Propagated(Filter(f.omms, f.selector), selector) == Propagated(f.omms, selector)
  {
    RegimeThenFilter(Filter(f.omms, f.selector), selector);
    FilterNarrowed(f.omms, f.selector, selector);
    RegimeThenFilter(f.omms, selector);
  }

  /** The payload propagates like the whole fetch exactly when the cut removed nothing that counts. */
  lemma SameInputExactly(f: Fetch, selector: seq<int>)
    requires Narrows(selector, f.selector)
    ensures Propagated(PayloadOf(f), selector) == Propagated(f.omms, selector) <==> NothingCut(f, selector)
  {
    var tracked := Filter(f.omms, f.selector);
    TrackedPropagates(f, selector);
    if |tracked| > MAX_STATES {
      assert tracked == PayloadOf(f) + tracked[MAX_STATES..];
      PropagatedConcat(PayloadOf(f), tracked[MAX_STATES..], selector);
    }
  }

  /**
   Whatever the cut at 128 removed, this selector would not have propagated it, or it is an older duplicate of a satellite
   that was kept.
   */
  predicate NothingCutShows(f: Fetch, selector: seq<int>) {
    var tracked := Filter(f.omms, f.selector);
    |tracked| <= MAX_STATES || Covered(Propagated(PayloadOf(f), selector), Propagated(tracked[MAX_STATES..], selector))
  }

  /**
   For an equal or narrowed selector and whatever object the persist met: whatever canonical sequences the live process
   and the restored one arrive at, they are equal exactly when nothing that the cut removed shows (so for any 128 tracked
   element sets). A crash then changes nothing: the states at the same instant are equal.
   */
  lemma RestoredPropagatesLikeLive(c: Codec, sgp4: Sgp4, held: Option<Object>, f: Fetch, selector: seq<int>, now: Instant, epoch: Instant,
                                   live: seq<Omm>, restored: seq<Omm>)
    requires Faithful(c) && AllValid(c, f.omms) && Narrows(selector, f.selector) && Persistable(c, f)
    requires Canonical(live, Propagated(f.omms, selector))
    requires var e := Restored(c, Persisted(c, held, f, true), f.source, f.uid);
      e.Some? && Canonical(restored, Propagated(e.value.result.omms, selector))
    ensures live == restored <==> NothingCutShows(f, selector)
    ensures NothingCutShows(f, selector) ==> Scan(sgp4, live, now, epoch) == Scan(sgp4, restored, now, epoch)
  {
    PayloadIsValid(c, f);
    assert c.parse(c.marshal(PayloadOf(f))) == Some(PayloadOf(f));
    SameCanonicalExactly(f, selector, live, restored);
  }

  lemma SameCanonicalExactly(f: Fetch, selector: seq<int>, live: seq<Omm>, restored: seq<Omm>)
    requires Narrows(selector, f.selector)
    requires Canonical(live, Propagated(f.omms, selector)) && Canonical(restored, Propagated(PayloadOf(f), selector))
    ensures live == restored <==> NothingCutShows(f, selector)
  {
    var tracked := Filter(f.omms, f.selector);
    TrackedPropagates(f, selector);
    if |tracked| > MAX_STATES {
      assert tracked == PayloadOf(f) + tracked[MAX_STATES..];
      PropagatedConcat(PayloadOf(f), tracked[MAX_STATES..], selector);
      CanonicalUnchangedExactly(Propagated(PayloadOf(f), selector), Propagated(tracked[MAX_STATES..], selector), live, restored);
    } else {
      CanonicalUnique(Propagated(f.omms, selector), live, restored);
    }
  }

  /**
   The object found claims the new payload's digest, so persistOMMCache leaves it alone, and yet it is not this
   payload for this object and source: the bytes were damaged, the label was removed, or another object or source
   with the same bytes wrote it.
   */
  predicate Stuck(c: Codec, held: Option<Object>, f: Fetch) {
    var data := c.marshal(PayloadOf(f));
    held.Some? && held.value.digest == c.digest(data) && held.value.data != []
      && (!held.value.labelled || held.value.data != data || held.value.uid != f.uid || held.value.source != f.source)
  }

  /** After an accepted persist the payload can be restored exactly when the short-circuit did not meet a stuck object. */
  lemma PersistedCanBeRestored(c: Codec, held: Option<Object>, f: Fetch)
    requires Faithful(c) && AllValid(c, f.omms) && Persistable(c, f)
    ensures Restored(c, Persisted(c, held, f, true), f.source, f.uid).Some? <==> !Stuck(c, held, f)
  {
    PayloadIsValid(c, f);
    assert c.parse(c.marshal(PayloadOf(f))) == Some(PayloadOf(f));
  }

  /** A payload that is empty or too large never touches the store, and neither does a rejected write. */
  lemma PersistKeepsTheStore(c: Codec, held: Option<Object>, f: Fetch, accepted: bool)
    requires PayloadOf(f) == [] || |c.marshal(PayloadOf(f))| > 900 * 1024 || !accepted
    ensures Persisted(c, held, f, accepted) == held
  {
  }

  /** A fetch was persisted, the process restarted, and `r` is a reconcile of that object and source that brings nothing new. */
  predicate AfterRestart(f: Fetch, r: Request) {
    r.source == f.source && r.uid == f.uid && !r.insecure && BringsNothing(r, f.source, f.uid)
  }

  /**
   A restart in the middle of an outage loses nothing: whatever the persist had found under its name, unless it was stuck,
   the first reconcile of the cold process propagates the persisted payload.
   */
  lemma RestartServesThePersisted(c: Codec, held: Option<Object>, legacy: Option<Object>, f: Fetch, r: Request)
    requires Faithful(c) && AllValid(c, f.omms) && Persistable(c, f) && !Stuck(c, held, f) && AfterRestart(f, r)
    ensures var warm := Warm(None, Offered(c, Persisted(c, held, f, true), legacy, f.source, f.uid));
      OutcomeOf(warm, r).Usable? && OutcomeOf(warm, r).payload.omms == PayloadOf(f)
  {
    PayloadIsValid(c, f);
    assert c.parse(c.marshal(PayloadOf(f))) == Some(PayloadOf(f));
    KeepsTheCache(Warm(None, Offered(c, Persisted(c, held, f, true), legacy, f.source, f.uid)), r, PayloadOf(f), f.source, f.uid);
  }

  /** The same of a copy that only the older version's name holds; and that copy is carried over to the new name. */
  lemma RestartServesTheLegacyCopy(c: Codec, held: Option<Object>, f: Fetch, r: Request)
    requires Faithful(c) && AllValid(c, f.omms) && Persistable(c, f) && !Stuck(c, held, f) && AfterRestart(f, r)
    ensures var legacy := Persisted(c, held, f, true); var warm := Warm(None, Offered(c, None, legacy, f.source, f.uid));
      && OutcomeOf(warm, r).Usable? && OutcomeOf(warm, r).payload.omms == PayloadOf(f)
      && Forwarded(c, None, legacy, f.source, f.uid, true) == legacy && Forwarded(c, None, legacy, f.source, f.uid, false) == None
  {
    PayloadIsValid(c, f);
    assert c.parse(c.marshal(PayloadOf(f))) == Some(PayloadOf(f));
    KeepsTheCache(Warm(None, Offered(c, None, Persisted(c, held, f, true), f.source, f.uid)), r, PayloadOf(f), f.source, f.uid);
  }

  /** A warm process keeps its own cache, and an object under the new name is never replaced by an older copy. */
  lemma WarmIsKept(c: Codec, cache: Entry, durable: Option<Entry>, held: Object, legacy: Option<Object>, source: SourceKey, uid: nat, accepted: bool)
    ensures Warm(Some(cache), durable) == Some(cache)
    ensures Forwarded(c, Some(held), legacy, source, uid, accepted) == Some(held)
    ensures Restored(c, Some(held), source, uid).Some? ==> Offered(c, Some(held), legacy, source, uid) == Restored(c, Some(held), source, uid)
  {
  }

  /**
   Damage under an intact digest annotation is never repaired while the payload stays the same: however many fetches
   are persisted, each finds its own digest and writes nothing, and no restore ever accepts the object.
   */
  lemma {:induction false} DamageOutlivesEveryPersist(c: Codec, f: Fetch, junk: string, trace: seq<Action>, source: SourceKey, uid: nat)
    requires Faithful(c) && junk != [] && junk != c.marshal(PayloadOf(f))
    requires forall i | 0 <= i < |trace| :: trace[i].Persist? && PayloadOf(trace[i].fetch) == PayloadOf(f)
    ensures var broken := Some(Stamped(c, f).(data := junk));
      Run(c, World(broken, None, [f]), trace).held == broken && Restored(c, broken, source, uid) == None
  {
    if trace != [] {
      DamageOutlivesEveryPersist(c, f, junk, trace[..|trace| - 1], source, uid);
    }
  }

  // ---- beyond 128 -------------------------------------------------------------------------------------------------

  function DeepSpaceSets(n: nat, epoch: Instant): seq<Omm> {
    if n == 0 then [] else DeepSpaceSets(n - 1, epoch) + [Omm(n, "", Some(epoch), 1.0, "")]
  }

  lemma {:induction false} DeepSpaceFacts(n: nat, epoch: Instant)
    ensures |DeepSpaceSets(n, epoch)| == n && Regime(DeepSpaceSets(n, epoch), false) == []
  {
    if n > 0 {
      DeepSpaceFacts(n - 1, epoch);
      var last := Omm(n, "", Some(epoch), 1.0, "");
      assert (DeepSpaceSets(n - 1, epoch) + [last])[..n - 1] == DeepSpaceSets(n - 1, epoch);
      assert PeriodMinutes(last) == 1440.0;
    }
  }

  /**
   With 129 tracked sets the cut can matter: the payload is cut before the orbit-regime guard, so 128 deep-space sets listed
   first crowd out the one satellite that is propagated live.
   */
  lemma CapBeforeRegimeLosesASatellite(epoch: Instant)
    ensures var leo := Omm(25544, "ISS", Some(epoch), 15.5, "");
      var f := Fetch(1, SourceKey("CelesTrak", "u"), [], DeepSpaceSets(MAX_STATES, epoch) + [leo], epoch);
      && |Filter(f.omms, f.selector)| == MAX_STATES + 1
      && Propagated(f.omms, []) == [leo]
      && Propagated(PayloadOf(f), []) == []
  {
    var leo := Omm(25544, "ISS", Some(epoch), 15.5, "");
    var deep := DeepSpaceSets(MAX_STATES, epoch);
    DeepSpaceFacts(MAX_STATES, epoch);
    FilterAll(deep + [leo]);
    assert (deep + [leo])[..|deep|] == deep;
    assert PeriodMinutes(leo) < DEEP_SPACE_PERIOD;
    assert Regime(deep + [leo], false) == [leo];
    FilterAll([leo]);
    FilterAll([]);
  }
}

/**
 Where a reconcile's element sets come from (acquireOMMs, obtainOMMs, cacheServe, fetchRetryDelay and
 applyFetchBackoff in internal/controller/satelliteephemeris_controller.go).
 */
module OmmCache {
  import opened Prelude
  import opened Elements

  const MIN_REFRESH: int := 2 * HOUR
  const MAX_REFRESH: int := 24 * HOUR
  const MAX_AUTH_RETRY: int := 15 * MINUTE

  /** A failed fetch, by retry strategy; `retryAfter` is the clamped Retry-After of a rate limit. */
  datatype FetchError = Transient | RateLimited(retryAfter: int) | AuthFailed

  datatype Class = TransientClass | RateLimitedClass | AuthClass

  /** classifyFetchErrClass: a nil error counts as transient. */
  function ClassOf(e: Option<FetchError>): Class {
    match e
    case Some(RateLimited(_)) => RateLimitedClass
    case Some(AuthFailed) => AuthClass
    case _ => TransientClass
  }

  /** clampRefreshInterval */
  function EffectiveInterval(configured: int): (r: int)
    ensures MIN_REFRESH <= r <= MAX_REFRESH
    ensures r == configured || (r == 2 * HOUR && configured < r) || (r == 24 * HOUR && configured > r)
  {
    if configured < MIN_REFRESH then MIN_REFRESH else if configured > MAX_REFRESH then MAX_REFRESH else configured
  }

  function RetryDelay(e: FetchError, interval: int, failures: nat): int {
    match e
    case RateLimited(retryAfter) => Max(interval, retryAfter)
    case AuthFailed => Min(interval, MAX_AUTH_RETRY)
    case Transient => Min(MINUTE * Pow2(Min(Max(failures - 1, 0), 10)), interval)
  }

  /** What a fetch retry depends on: the credential reference and the effective interval. */
  datatype RetryKey = RetryKey(credential: string, interval: int)

  /** What a payload depends on: source type and URL. */
  datatype SourceKey = SourceKey(kind: string, url: string)

  datatype Payload = Payload(omms: seq<Omm>, fetchedAt: Instant, notModified: bool)

  datatype Entry = Entry(result: Payload, source: SourceKey, uid: nat, nextFetch: Instant,
                         lastErr: Option<FetchError>, failures: nat, retryKey: Option<RetryKey>)

  datatype Fetch = Fetched(payload: Payload) | FetchFailed(error: FetchError)

  /**
   One reconcile: the object it serves, its start, what fetcher setup, the cleartext check and the upstream
   would answer, and the instant after the fetch.
   */
  datatype Request = Request(now: Instant, source: SourceKey, uid: nat, key: RetryKey,
                             setupFails: bool, insecure: bool, upstream: Fetch, after: Instant)

  datatype Outcome =
    | Usable(payload: Payload)
    | Insecure
    | NothingToServe

  predicate Matches(e: Entry, r: Request) {
    e.source == r.source && e.uid == r.uid
  }

  datatype Serve = Window | Backoff | NoServe

  /** cacheServe, on a matching entry. */
  function ServeReason(e: Entry, r: Request): Serve {
    if r.now - e.result.fetchedAt < r.key.interval then Window
    else if r.now < e.nextFetch && e.retryKey == Some(r.key) then Backoff
    else NoServe
  }

  /** Does this reconcile contact the upstream? */
  predicate Contacts(cache: Option<Entry>, r: Request) {
    !r.setupFails && !r.insecure && (cache.None? || !Matches(cache.value, r) || ServeReason(cache.value, r) == NoServe)
  }

  /** applyFetchBackoff */
  function Armed(e: Entry, err: FetchError, key: RetryKey, now: Instant): Entry {
    var failures := (if e.retryKey != Some(key) || ClassOf(Some(err)) != ClassOf(e.lastErr) then 0 else e.failures) + 1;
    e.(failures := failures, nextFetch := Max(now + RetryDelay(err, key.interval, failures), 0), lastErr := Some(err), retryKey := Some(key))
  }

  /** A 304 without a body, and an entry it confirms. */
  predicate Confirms(cache: Option<Entry>, r: Request) {
    r.upstream.Fetched? && r.upstream.payload.notModified && r.upstream.payload.omms == []
      && cache.Some? && Matches(cache.value, r) && cache.value.result.omms != []
  }

  /** The cache after a reconcile. */
  function CacheAfter(cache: Option<Entry>, r: Request): Option<Entry> {
    if !Contacts(cache, r) then cache
    else if Confirms(cache, r) then
      Some(cache.value.(result := Payload(cache.value.result.omms, r.upstream.payload.fetchedAt, true), nextFetch := 0, lastErr := None, failures := 0))
    else match r.upstream
      case FetchFailed(err) => if cache.Some? && Matches(cache.value, r) then Some(Armed(cache.value, err, r.key, r.after)) else cache
      case Fetched(p) => Some(Entry(p, r.source, r.uid, 0, None, 0, None))
  }

  /** What the reconcile propagates. */
  function OutcomeOf(cache: Option<Entry>, r: Request): Outcome {
    var matching := cache.Some? && Matches(cache.value, r);
    if matching && (ServeReason(cache.value, r) != NoServe || r.setupFails) then Usable(cache.value.result)
    else if r.setupFails then NothingToServe
    else if r.insecure then Insecure
    else if matching && !Confirms(cache, r) && r.upstream.FetchFailed? then Usable(cache.value.result)
    else if r.upstream.FetchFailed? then NothingToServe
    else if Confirms(cache, r) then Usable(CacheAfter(cache, r).value.result)
    else Usable(r.upstream.payload)
  }

  /** restoreOMMCache: only a cold cache is hydrated. */
  function Warm(cache: Option<Entry>, durable: Option<Entry>): Option<Entry> {
    if cache.Some? then cache else durable
  }

  /** The reconciler's cache entry for one object key. */
  class Cache {
    var entry: Option<Entry>

    constructor ()
      ensures entry == None
    {
      entry := None;
    }

    method MatchingCache(r: Request) returns (c: Option<Entry>)
      ensures c == if entry.Some? && Matches(entry.value, r) then entry else None
    {
      c := if entry == None || entry.value.source != r.source || entry.value.uid != r.uid then None else entry;
    }

    method ObtainOMMs(r: Request) returns (outcome: Outcome)
      requires !r.setupFails && (entry.Some? && Matches(entry.value, r) ==> ServeReason(entry.value, r) == NoServe)
      modifies this
      ensures entry == CacheAfter(old(entry), r) && outcome == OutcomeOf(old(entry), r)
    {
      if r.insecure {
        return Insecure;
      }
      var c := MatchingCache(r);
      match r.upstream
      case FetchFailed(err) =>
        if c == None {
          return NothingToServe;
        }
        var e := c.value;
        if e.retryKey != Some(r.key) || ClassOf(Some(err)) != ClassOf(e.lastErr) {
          e := e.(failures := 0);
        }
        e := e.(failures := e.failures + 1);
        e := e.(nextFetch := Max(r.after + RetryDelay(err, r.key.interval, e.failures), 0));
        e := e.(lastErr := Some(err));
        e := e.(retryKey := Some(r.key));
        entry := Some(e);
        return Usable(e.result);
      case Fetched(p) =>
        if p.notModified && |p.omms| == 0 && c.Some? && |c.value.result.omms| > 0 {
          var e := c.value;
          e := e.(result := e.result.(fetchedAt := p.fetchedAt, notModified := true));
          e := e.(nextFetch := 0, lastErr := None, failures := 0);
          entry := Some(e);
          return Usable(e.result);
        }
        entry := Some(Entry(p, r.source, r.uid, 0, None, 0, None));
        return Usable(p);
    }

    /** `durable` is what the persisted ConfigMap offers this object and source, None when nothing passes its gates. */
    method AcquireOMMs(r: Request, durable: Option<Entry>) returns (outcome: Outcome)
      modifies this
      ensures entry == CacheAfter(Warm(old(entry), durable), r) && outcome == OutcomeOf(Warm(old(entry), durable), r)
    {
      if entry == None && durable.Some? {
        entry := durable;
      }
      var c := MatchingCache(r);
      if c.Some? {
        if r.now - c.value.result.fetchedAt < r.key.interval {
          return Usable(c.value.result);
        }
        if r.now < c.value.nextFetch && c.value.retryKey == Some(r.key) {
          return Usable(c.value.result);
        }
      }
      if !r.setupFails {
        outcome := ObtainOMMs(r);
        return;
      }
      if c.Some? {
        return Usable(c.value.result);
      }
      return NothingToServe;
    }
  }

  // ---- runs ------------------------------------------------------------------------------------------------

  /**
   One contact with the upstream: the reconcile's start, the instant after the fetch, and its result. A failure and a 304
   without a body bring no element sets.
   */
  datatype Contact = Contact(at: Instant, after: Instant, key: RetryKey, error: Option<FetchError>, fetchedAt: Instant,
                             brought: Option<seq<Omm>>)

  datatype State = State(cache: Option<Entry>, contacts: seq<Contact>)

  function ContactOf(r: Request): Contact {
    match r.upstream
    case Fetched(p) => Contact(r.now, r.after, r.key, None, p.fetchedAt, if p.notModified && p.omms == [] then None else Some(p.omms))
    case FetchFailed(e) => Contact(r.now, r.after, r.key, Some(e), 0, None)
  }

  function Step(s: State, r: Request): State {
    State(CacheAfter(s.cache, r), if Contacts(s.cache, r) then s.contacts + [ContactOf(r)] else s.contacts)
  }

  function Run(s: State, trace: seq<Request>): State {
    if trace == [] then s else Step(Run(s, trace[..|trace| - 1]), trace[|trace| - 1])
  }

  /** The element sets are still there, under the same source and object. */
  predicate Holds(cache: Option<Entry>, omms: seq<Omm>, source: SourceKey, uid: nat) {
    cache.Some? && cache.value.result.omms == omms && cache.value.source == source && cache.value.uid == uid
  }

  /**
   A reconcile that brings no new element sets: nothing set up, nothing fetched, or a 304 without a body; for
   another source or object (after an edit), nothing set up, refused, or nothing fetched.
   */
  predicate BringsNothing(r: Request, source: SourceKey, uid: nat) {
    || r.setupFails
    || r.upstream.FetchFailed?
    || (r.source == source && r.uid == uid && r.upstream.payload.notModified && r.upstream.payload.omms == [])
    || ((r.source != source || r.uid != uid) && r.insecure)
  }

  /**
   No sequence of failed fetches, failed setups and bodyless 304s loses a cache; each reconcile that wants its
   source is served from it unless the URL is refused as cleartext.
   */
  lemma {:induction false} OutageNeverLosesTheCache(s: State, trace: seq<Request>, omms: seq<Omm>, source: SourceKey, uid: nat)
    requires Holds(s.cache, omms, source, uid) && omms != []
    requires forall i | 0 <= i < |trace| :: BringsNothing(trace[i], source, uid)
    ensures Holds(Run(s, trace).cache, omms, source, uid)
    ensures forall i | 0 <= i < |trace| && trace[i].source == source && trace[i].uid == uid && !trace[i].insecure ::
      OutcomeOf(Run(s, trace[..i]).cache, trace[i]).Usable? && OutcomeOf(Run(s, trace[..i]).cache, trace[i]).payload.omms == omms
  {
    if trace != [] {
      var n := |trace| - 1;
      OutageNeverLosesTheCache(s, trace[..n], omms, source, uid);
      forall i | 0 <= i < n ensures trace[..n][..i] == trace[..i] {}
      KeepsTheCache(Run(s, trace[..n]).cache, trace[n], omms, source, uid);
    }
  }

  lemma KeepsTheCache(cache: Option<Entry>, r: Request, omms: seq<Omm>, source: SourceKey, uid: nat)
    requires Holds(cache, omms, source, uid) && omms != [] && BringsNothing(r, source, uid)
    ensures Holds(CacheAfter(cache, r), omms, source, uid)
    ensures r.source == source && r.uid == uid && !r.insecure ==>
      OutcomeOf(cache, r).Usable? && OutcomeOf(cache, r).payload.omms == omms
  {
  }

  // ---- the retry ramp ----------------------------------------------------------------------------------------

  /** How many contacts in a row, ending with the last, failed in its class and under its retry inputs. */
  function Streak(contacts: seq<Contact>): nat {
    if contacts == [] then 0
    else
      var n := |contacts| - 1;
      var last := contacts[n];
      if last.error.None? then 0
      else if n > 0 && contacts[n - 1].error.Some? && ClassOf(contacts[n - 1].error) == ClassOf(last.error) && contacts[n - 1].key == last.key
      then 1 + Streak(contacts[..n])
      else 1
  }

  /** When the contact at `i` allows the next one under the same retry inputs. */
  function Reopens(contacts: seq<Contact>, i: nat): int
    requires i < |contacts|
  {
    var c := contacts[i];
    if c.error.Some? then c.after + RetryDelay(c.error.value, c.key.interval, Streak(contacts[..i + 1]))
    else c.fetchedAt + c.key.interval
  }

  /** Every contact waited for the previous one's delay, as long as the retry inputs stayed the same. */
  predicate Spaced(contacts: seq<Contact>) {
    forall i | 0 < i < |contacts| && contacts[i].key == contacts[i - 1].key :: contacts[i].at >= Reopens(contacts, i - 1)
  }

  /** The entry remembers the ramp exactly. */
  predicate Ramped(e: Entry, contacts: seq<Contact>) {
    if contacts == [] || contacts[|contacts| - 1].error.None? then
      && e.lastErr == None && e.failures == 0 && e.nextFetch == 0
      && (contacts != [] ==> e.result.fetchedAt == contacts[|contacts| - 1].fetchedAt)
    else
      var last := contacts[|contacts| - 1];
      && e.lastErr == last.error && e.retryKey == Some(last.key) && e.failures == Streak(contacts)
      && e.nextFetch == Max(Reopens(contacts, |contacts| - 1), 0)
  }

  /** The element sets of the last contact that brought any, and the time of the last one that did not fail. */
  function Latest(first: Payload, contacts: seq<Contact>): seq<Omm> {
    if contacts == [] then first.omms
    else if contacts[|contacts| - 1].brought.Some? then contacts[|contacts| - 1].brought.value
    else Latest(first, contacts[..|contacts| - 1])
  }

  function Confirmed(first: Payload, contacts: seq<Contact>): Instant {
    if contacts == [] then first.fetchedAt
    else if contacts[|contacts| - 1].error.None? then contacts[|contacts| - 1].fetchedAt
    else Confirmed(first, contacts[..|contacts| - 1])
  }

  /** The cache of one object and source, told by what it started from and by every contact since. */
  predicate Tracked(s: State, source: SourceKey, uid: nat, first: Payload) {
    && s.cache.Some? && s.cache.value.source == source && s.cache.value.uid == uid
    && Ramped(s.cache.value, s.contacts) && Spaced(s.contacts)
    && s.cache.value.result.omms == Latest(first, s.contacts) && s.cache.value.result.fetchedAt == Confirmed(first, s.contacts)
  }

  lemma ReopensAppend(contacts: seq<Contact>, c: Contact, i: nat)
    requires i < |contacts|
    ensures Reopens(contacts + [c], i) == Reopens(contacts, i)
  {
    assert (contacts + [c])[..i + 1] == contacts[..i + 1];
  }

  lemma SpacedAppend(contacts: seq<Contact>, c: Contact)
    requires Spaced(contacts)
    requires contacts != [] && contacts[|contacts| - 1].key == c.key ==> c.at >= Reopens(contacts, |contacts| - 1)
    ensures Spaced(contacts + [c])
  {
    var longer := contacts + [c];
    forall i | 0 < i < |longer| && longer[i].key == longer[i - 1].key ensures longer[i].at >= Reopens(longer, i - 1) {
      ReopensAppend(contacts, c, i - 1);
    }
  }

  lemma ContactIsTracked(s: State, r: Request, source: SourceKey, uid: nat, first: Payload)
    requires Tracked(s, source, uid, first) && r.source == source && r.uid == uid && Contacts(s.cache, r)
    ensures Tracked(Step(s, r), source, uid, first)
  {
    var c := ContactOf(r);
    var longer := s.contacts + [c];
    var n := |s.contacts|;
    assert longer[..n] == s.contacts && longer[..n + 1] == longer && longer[n] == c;
    assert n > 0 ==> longer[n - 1] == s.contacts[n - 1];
    SpacedAppend(s.contacts, c);
  }

  /**
   With a matching cache, over every run of reconciles of one source: contacts are separated by the armed
   delay, the delay of a failure is that of its place in the streak of failures of its class, and the cache holds
   the element sets of the last contact that brought any, with the time of the last one that did not fail.
   */
  lemma {:induction false} ContactsAreSpaced(s: State, trace: seq<Request>, source: SourceKey, uid: nat, first: Payload)
    requires Tracked(s, source, uid, first)
    requires forall i | 0 <= i < |trace| :: trace[i].source == source && trace[i].uid == uid
    ensures Tracked(Run(s, trace), source, uid, first)
  {
    if trace != [] {
      var n := |trace| - 1;
      ContactsAreSpaced(s, trace[..n], source, uid, first);
      if Contacts(Run(s, trace[..n]).cache, trace[n]) {
        ContactIsTracked(Run(s, trace[..n]), trace[n], source, uid, first);
      }
    }
  }

  /**
   And a reconcile contacts the upstream exactly when it is set up, not refused, past the refresh window since the last
   contact that did not fail, and past the delay of a last contact that failed under the same retry inputs.
   */
  lemma ContactsExactlyWhenDue(s: State, r: Request, source: SourceKey, uid: nat, first: Payload)
    requires Tracked(s, source, uid, first) && r.source == source && r.uid == uid
    ensures var n := |s.contacts|;
      |Step(s, r).contacts| == n + 1 <==>
        && !r.setupFails && !r.insecure && r.now - Confirmed(first, s.contacts) >= r.key.interval
        && (n > 0 && s.contacts[n - 1].error.Some? && s.contacts[n - 1].key == r.key ==> r.now >= Reopens(s.contacts, n - 1))
  {
  }

  /** A fetch that brings element sets replaces what was cached, whatever that was, and is what the reconcile propagates. */
  lemma FetchReplacesTheCache(cache: Option<Entry>, r: Request)
    requires Contacts(cache, r) && r.upstream.Fetched? && r.upstream.payload.omms != []
    ensures CacheAfter(cache, r) == Some(Entry(r.upstream.payload, r.source, r.uid, 0, None, 0, None))
    ensures OutcomeOf(cache, r) == Usable(r.upstream.payload)
  {
  }

  /** A 304 without a body keeps the element sets, dates them anew, marks them as confirmed and ends any backoff. */
  lemma NotModifiedConfirms(cache: Option<Entry>, r: Request)
    requires Contacts(cache, r) && r.upstream.Fetched? && r.upstream.payload.notModified && r.upstream.payload.omms == []
    requires cache.Some? && Matches(cache.value, r) && cache.value.result.omms != []
    ensures CacheAfter(cache, r).Some?
    ensures var e := CacheAfter(cache, r).value;
      && e.result == Payload(cache.value.result.omms, r.upstream.payload.fetchedAt, true) && Matches(e, r)
      && e.nextFetch == 0 && e.lastErr == None && e.failures == 0
  {
  }

  /**
   What a reconcile propagates is what the cache holds for its source and object afterwards; it has nothing exactly when
   there is no such cache and the upstream could not be asked or did not answer.
   */
  lemma ServedIsCached(cache: Option<Entry>, r: Request)
    ensures var o, after := OutcomeOf(cache, r), CacheAfter(cache, r);
      && (o.Usable? ==> after.Some? && Matches(after.value, r) && o.payload == after.value.result)
      && (o.NothingToServe? <==> !(cache.Some? && Matches(cache.value, r)) && (r.setupFails || (!r.insecure && r.upstream.FetchFailed?)))
      && (o.Insecure? ==> r.insecure && after == cache)
  {
  }

  /** A run of `k` transient failures under one retry key, and nothing else after the first `m` contacts. */
  predicate TransientTail(contacts: seq<Contact>, m: nat) {
    m < |contacts| && (forall i | m <= i < |contacts| :: contacts[i].error == Some(Transient) && contacts[i].key == contacts[m].key)
      && (m > 0 ==> contacts[m - 1].error != Some(Transient) || contacts[m - 1].key != contacts[m].key)
  }

  lemma {:induction false} StreakOfTransients(contacts: seq<Contact>, m: nat)
    requires TransientTail(contacts, m)
    ensures Streak(contacts) == |contacts| - m
  {
    var n := |contacts| - 1;
    if m < n {
      assert TransientTail(contacts[..n], m);
      StreakOfTransients(contacts[..n], m);
    }
  }

  lemma {:induction false} Pow2Positive(n: nat)
    ensures 1 <= Pow2(n) && (n <= 10 ==> Pow2(n) <= 1024)
  {
    if n > 0 {
      Pow2Positive(n - 1);
      if n <= 10 {
        Pow2Ten(n);
      }
    }
  }

  lemma {:induction false} Pow2Ten(n: nat)
    requires n <= 10
    ensures Pow2(n) <= Pow2(10) == 1024
    decreases 10 - n
  {
    if n < 10 {
      Pow2Ten(n + 1);
    } else {
      assert Pow2(5) == 32;
      assert Pow2(10) == 32 * Pow2(5);
    }
  }

  /**
   The k-th consecutive transient failure reopens the upstream after min(2^min(k-1, 10) minutes, interval);
   a change of class or retry key starts again at one minute.
   */
  lemma TransientRamp(contacts: seq<Contact>, m: nat)
    requires TransientTail(contacts, m)
    ensures var last := contacts[|contacts| - 1]; var k := |contacts| - m;
      Reopens(contacts, |contacts| - 1) == last.after + Min(MINUTE * Pow2(Min(k - 1, 10)), last.key.interval)
  {
    StreakOfTransients(contacts, m);
    assert contacts[..|contacts|] == contacts;
  }

  /**
   Every delay lies between one minute and one day; a rate limit waits for the longer of the refresh interval and
   its Retry-After, and bad credentials are probed again after a quarter of an hour whatever the interval.
   */
  lemma DelayIsBounded(e: FetchError, configured: int, failures: nat)
    requires e.RateLimited? ==> 0 <= e.retryAfter <= 24 * HOUR
    ensures MINUTE <= RetryDelay(e, EffectiveInterval(configured), failures) <= DAY
    ensures e.RateLimited? ==> RetryDelay(e, EffectiveInterval(configured), failures) == Max(EffectiveInterval(configured), e.retryAfter)
    ensures e.AuthFailed? ==> RetryDelay(e, EffectiveInterval(configured), failures) == 15 * MINUTE
  {
    var shift := Min(Max(failures - 1, 0), 10);
    Pow2Positive(shift);
  }
}

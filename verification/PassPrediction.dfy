/** Racing workers, one answer (PredictPasses in pkg/ephemeris/pass_predictor.go). */
module PassPrediction {
  import opened Prelude
  import opened Sorting
  import opened Elements
  import opened PassOrder
  import opened PassCap

  const MAX_PASS_WINDOWS: nat := 500

  /** What one work item (one satellite over one station) yields; passes are kept even beside an error. */
  datatype Outcome = Outcome(passes: seq<PassResult>, error: Option<string>)

  datatype Prediction = BadMask | Cancelled | Failed(error: string) | Windows(passes: seq<PassResult>)

  /** The work items, satellites outermost. */
  function Work<G>(omms: seq<Omm>, stations: seq<G>): (w: seq<(Omm, G)>)
    ensures |w| == |omms| * |stations|
  {
    if omms == [] then []
    else
      assert |omms| * |stations| == (|omms| - 1) * |stations| + |stations|;
      Work(omms[..|omms| - 1], stations) + seq(|stations|, j requires 0 <= j < |stations| => (omms[|omms| - 1], stations[j]))
  }

  function Results<G>(work: seq<(Omm, G)>, predict: (Omm, G) -> Outcome): (r: seq<Outcome>)
    ensures |r| == |work|
  {
    seq(|work|, i requires 0 <= i < |work| => predict(work[i].0, work[i].1))
  }

  function Iota(n: nat): (r: seq<nat>)
    ensures |r| == n && forall i | 0 <= i < n :: r[i] == i
  {
    seq(n, i => i)
  }

  function PassesOf(results: seq<Outcome>, i: nat): seq<PassResult> {
    if i < |results| then results[i].passes else []
  }

  /** Everything found, in the order in which the work items completed. */
  function Found(results: seq<Outcome>, order: seq<nat>): seq<PassResult> {
    if order == [] then [] else Found(results, order[..|order| - 1]) + PassesOf(results, order[|order| - 1])
  }

  /** Every satellite over every station is one work item. */
  lemma {:induction false} WorkIsEveryPair<G>(omms: seq<Omm>, stations: seq<G>, i: nat, j: nat)
    requires i < |omms| && j < |stations|
    ensures i * |stations| + j < |omms| * |stations| && Work(omms, stations)[i * |stations| + j] == (omms[i], stations[j])
  {
    var n, k := |omms| - 1, |stations|;
    assert n * k + k == |omms| * k;
    if i < n {
      WorkIsEveryPair(omms[..n], stations, i, j);
      assert omms[..n][i] == omms[i];
    }
  }

  /** A pass is found exactly when some work item yields it. */
  lemma {:induction false} FoundExactly(results: seq<Outcome>, order: seq<nat>, p: PassResult)
    ensures p in Found(results, order) <==> exists k | 0 <= k < |order| :: order[k] < |results| && p in results[order[k]].passes
  {
    if order != [] {
      var n := |order| - 1;
      FoundExactly(results, order[..n], p);
      if k :| 0 <= k < n && order[k] < |results| && p in results[order[k]].passes {
        assert order[..n][k] == order[k];
      }
    }
  }

  /** `order` is a schedule of `n` items: each completes exactly once. */
  predicate Schedule(order: seq<nat>, n: nat) {
    multiset(order) == multiset(Iota(n))
  }

  lemma ScheduleInRange(order: seq<nat>, n: nat)
    requires Schedule(order, n)
    ensures forall k | 0 <= k < |order| :: order[k] < n
    ensures forall i | 0 <= i < n :: i in order
  {
    forall k | 0 <= k < |order| ensures order[k] < n { assert order[k] in multiset(Iota(n)); }
    forall i | 0 <= i < n ensures i in order { assert Iota(n)[i] == i; assert Iota(n)[i] in multiset(order); }
  }

  /** `p` may be the result when the workers found `found`: some sort, the cap, and its own sort. */
  ghost predicate IsOutput(p: seq<PassResult>, found: seq<PassResult>) {
    exists s | Sorted(s) && multiset(s) == multiset(found) :: Sorted(p) && multiset(p) == multiset(Chosen(s, MAX_PASS_WINDOWS))
  }

  /** What a call may answer, with no mention of the schedule. */
  ghost predicate Answers(r: Prediction, results: seq<Outcome>) {
    var found := Found(results, Iota(|results|));
    if found == [] && exists i | 0 <= i < |results| :: results[i].error.Some?
    then r.Failed? && exists i | 0 <= i < |results| :: results[i].error == Some(r.error)
    else r.Windows? && IsOutput(r.passes, found)
  }

  /** `firstErr` is an error of some item, and None only when no item failed. */
  ghost predicate SomeError(firstErr: Option<string>, results: seq<Outcome>) {
    if firstErr.None? then forall i | 0 <= i < |results| :: results[i].error.None?
    else exists i | 0 <= i < |results| :: results[i].error == firstErr
  }

  /** The worker pool: items are appended under the mutex in the order in which they complete. */
  method RunWorkers<G>(work: seq<(Omm, G)>, predict: (Omm, G) -> Outcome, order: seq<nat>)
    returns (all: seq<PassResult>, firstErr: Option<string>)
    requires Schedule(order, |work|)
    ensures all == Found(Results(work, predict), order)
    ensures SomeError(firstErr, Results(work, predict))
  {
    ghost var results := Results(work, predict);
    ScheduleInRange(order, |work|);
    all, firstErr := [], None;
    for k := 0 to |order|
      invariant all == Found(results, order[..k])
      invariant firstErr.None? ==> forall j | 0 <= j < k :: results[order[j]].error.None?
      invariant firstErr.Some? ==> exists j | 0 <= j < k :: results[order[j]].error == firstErr
    {
      assert order[..k + 1][..k] == order[..k];
      var (omm, station) := work[order[k]];
      var outcome := predict(omm, station);
      assert outcome == results[order[k]];
      if outcome.error.Some? && firstErr.None? {
        firstErr := outcome.error;
      }
      all := all + outcome.passes;
    }
    assert order[..|order|] == order;
    if firstErr.None? {
      forall i | 0 <= i < |results| ensures results[i].error.None? {
        assert i in order;
        var j :| 0 <= j < |order| && order[j] == i;
      }
    }
  }

  method SortAndCap(all: seq<PassResult>) returns (r: seq<PassResult>)
    ensures IsOutput(r, all)
  {
    KeysAreTotallyOrdered();
    var sorted := Sort(LessPass, all);
    r := CapPerSatellite(sorted, MAX_PASS_WINDOWS);
  }

  method PredictPasses<G>(omms: seq<Omm>, stations: seq<G>, minElevation: real, noradFilter: seq<int>,
                          predict: (Omm, G) -> Outcome, order: seq<nat>, cancelled: bool) returns (r: Prediction)
    requires Schedule(order, |Filter(omms, noradFilter)| * |stations|)
    ensures r.BadMask? <==> !(0.0 <= minElevation <= 90.0)
    ensures !r.BadMask? && (|stations| == 0 || |Filter(omms, noradFilter)| == 0) ==> r == Windows([])
    ensures !r.BadMask? && |stations| > 0 && |Filter(omms, noradFilter)| > 0 ==>
      if cancelled then r == Cancelled else Answers(r, Results(Work(Filter(omms, noradFilter), stations), predict))
  {
    if minElevation < 0.0 || minElevation > 90.0 {
      return BadMask;
    }
    if |omms| == 0 || |stations| == 0 {
      return Windows([]);
    }
    var filtered := FilterOMMs(omms, noradFilter);
    if |filtered| == 0 {
      return Windows([]);
    }
    var work := Work(filtered, stations);
    var all, firstErr := RunWorkers(work, predict, order);
    if cancelled {
      return Cancelled;
    }
    ghost var results := Results(work, predict);
    FoundPermutes(results, order, Iota(|results|));
    SameLength(all, Found(results, Iota(|results|)));
    if firstErr.Some? && |all| == 0 {
      return Failed(firstErr.value);
    }
    var passes := SortAndCap(all);
    OutputOfRearranged(passes, all, Found(results, Iota(|results|)));
    return Windows(passes);
  }

  lemma OutputOfRearranged(p: seq<PassResult>, a: seq<PassResult>, b: seq<PassResult>)
    requires IsOutput(p, a) && multiset(a) == multiset(b)
    ensures IsOutput(p, b)
  {
  }

  // ---- schedules do not matter ---------------------------------------------------------------------

  lemma FoundSnoc(results: seq<Outcome>, a: seq<nat>, i: nat)
    ensures Found(results, a + [i]) == Found(results, a) + PassesOf(results, i)
  {
    assert (a + [i])[..|a|] == a;
  }

  lemma Associative<T>(a: seq<T>, b: seq<T>, c: seq<T>)
    ensures (a + b) + c == a + (b + c)
  {
  }

  lemma {:induction false} FoundConcat(results: seq<Outcome>, a: seq<nat>, b: seq<nat>)
    ensures Found(results, a + b) == Found(results, a) + Found(results, b)
    decreases |b|
  {
    if b == [] {
      assert a + b == a;
    } else {
      var init, last := b[..|b| - 1], b[|b| - 1];
      assert b == init + [last] && a + b == (a + init) + [last];
      FoundConcat(results, a, init);
      FoundSnoc(results, a + init, last);
      FoundSnoc(results, init, last);
      Associative(Found(results, a), Found(results, init), PassesOf(results, last));
    }
  }

  lemma FoundOne(results: seq<Outcome>, i: nat)
    ensures Found(results, [i]) == PassesOf(results, i)
  {
    assert [i][..0] == [];
  }

  lemma FoundRemoveAt(results: seq<Outcome>, a: seq<nat>, i: nat)
    requires i < |a|
    ensures multiset(Found(results, a)) == multiset(Found(results, a[..i] + a[i + 1..])) + multiset(PassesOf(results, a[i]))
  {
    var front, back := a[..i], a[i + 1..];
    assert a == (front + [a[i]]) + back;
    FoundConcat(results, front + [a[i]], back);
    FoundConcat(results, front, [a[i]]);
    FoundOne(results, a[i]);
    FoundConcat(results, front, back);
    MiddleOut(Found(results, front), PassesOf(results, a[i]), Found(results, back));
  }

  lemma MiddleOut<T>(a: seq<T>, b: seq<T>, c: seq<T>)
    ensures multiset(a + b + c) == multiset(a + c) + multiset(b)
  {
  }

  lemma PutBack(results: seq<Outcome>, a: seq<nat>, b: seq<nat>, i: nat)
    requires a != [] && i < |b| && a[0] == b[i]
    requires multiset(Found(results, a[..0] + a[1..])) == multiset(Found(results, b[..i] + b[i + 1..]))
    ensures multiset(Found(results, a)) == multiset(Found(results, b))
  {
    FoundRemoveAt(results, a, 0);
    FoundRemoveAt(results, b, i);
  }

  lemma {:induction false} FoundPermutes(results: seq<Outcome>, a: seq<nat>, b: seq<nat>)
    requires multiset(a) == multiset(b)
    ensures multiset(Found(results, a)) == multiset(Found(results, b))
    decreases |a|
  {
    SameLength(a, b);
    if a != [] {
      var i := FindIn(a[0], a, b);
      RemoveBoth(a, 0, b, i);
      FoundPermutes(results, a[..0] + a[1..], b[..i] + b[i + 1..]);
      PutBack(results, a, b, i);
    } else {
      assert a == b;
    }
  }

  ghost predicate UniqueKeys(s: seq<PassResult>) {
    forall p, q | p in s && q in s && KeyOf(p) == KeyOf(q) :: p == q
  }

  lemma UniqueKeysUniqueSort(a: seq<PassResult>, b: seq<PassResult>)
    requires KeysOf(a) == KeysOf(b) && UniqueKeys(a) && multiset(a) == multiset(b)
    ensures a == b
  {
    SameLength(a, b);
    forall i | 0 <= i < |a| ensures a[i] == b[i] {
      assert KeysOf(a)[i] == KeysOf(b)[i];
      assert b[i] in multiset(a);
    }
  }

  lemma SortedAgree(s: seq<PassResult>, t: seq<PassResult>)
    requires Sorted(s) && Sorted(t) && multiset(s) == multiset(t)
    ensures KeysOf(s) == KeysOf(t) && (UniqueKeys(s) ==> s == t)
  {
    KeysOfPermutation(s, t);
    SortedKeysAgree(s, t);
    if UniqueKeys(s) {
      UniqueKeysUniqueSort(s, t);
    }
  }

  lemma ChosenMembers(s: seq<PassResult>, limit: nat, p: PassResult)
    requires p in Chosen(s, limit)
    ensures p in s
  {
    ChosenPerSatellite(s, limit, p.satellite);
    OfMembers(Chosen(s, limit), p.satellite);
    OfMembers(s, p.satellite);
    assert p in Of(Chosen(s, limit), p.satellite);
    assert p in Of(s, p.satellite);
  }

  /** Whatever the schedule and whatever an unstable sort does with equal keys, the keys shown are the same. */
  lemma {:induction false} OutputIsDeterministic(p: seq<PassResult>, q: seq<PassResult>, found: seq<PassResult>)
    requires IsOutput(p, found) && IsOutput(q, found)
    ensures KeysOf(p) == KeysOf(q)
    ensures UniqueKeys(found) ==> p == q
  {
    var s :| Sorted(s) && multiset(s) == multiset(found) && Sorted(p) && multiset(p) == multiset(Chosen(s, MAX_PASS_WINDOWS));
    var t :| Sorted(t) && multiset(t) == multiset(found) && Sorted(q) && multiset(q) == multiset(Chosen(t, MAX_PASS_WINDOWS));
    SortedAgree(s, t);
    var cs, ct := Chosen(s, MAX_PASS_WINDOWS), Chosen(t, MAX_PASS_WINDOWS);
    ChosenByKeys(s, t, MAX_PASS_WINDOWS);
    KeysOfPermutation(p, cs);
    KeysOfPermutation(q, ct);
    SortedKeysAgree(p, q);
    if UniqueKeys(found) {
      forall x, y | x in s && y in s && KeyOf(x) == KeyOf(y) ensures x == y {
        assert x in multiset(found) && y in multiset(found);
      }
      forall x, y | x in p && y in p && KeyOf(x) == KeyOf(y) ensures x == y {
        assert x in multiset(cs) && y in multiset(cs);
        ChosenMembers(s, MAX_PASS_WINDOWS, x);
        ChosenMembers(s, MAX_PASS_WINDOWS, y);
      }
      UniqueKeysUniqueSort(p, q);
    }
  }

  /** Two calls on the same input agree on whether they fail, and on every key they show. */
  lemma {:induction false} AnswersAreDeterministic(a: Prediction, b: Prediction, results: seq<Outcome>)
    requires Answers(a, results) && Answers(b, results)
    ensures a.Failed? == b.Failed? && a.Windows? == b.Windows?
    ensures a.Windows? ==> KeysOf(a.passes) == KeysOf(b.passes)
    ensures a.Windows? && UniqueKeys(Found(results, Iota(|results|))) ==> a == b
  {
    if a.Windows? && b.Windows? {
      OutputIsDeterministic(a.passes, b.passes, Found(results, Iota(|results|)));
    }
  }

  /**
   Whatever the schedule, an answer ascends by AOS, shows only passes that some work item yielded, and all of them if they
   fit into 500, and otherwise 500 of them; no pass of a satellite that it leaves out starts before one that it shows.
   */
  lemma AnswersShowTheEarliest(r: Prediction, results: seq<Outcome>)
    requires Answers(r, results) && r.Windows?
    ensures var found := Found(results, Iota(|results|));
      && |r.passes| == Min(|found|, 500)
      && (forall i, j | 0 <= i < j < |r.passes| :: r.passes[i].aos <= r.passes[j].aos)
      && (forall p: PassResult, q: PassResult | p in r.passes && q.satellite == p.satellite && multiset(found)[q] > multiset(r.passes)[q] :: p.aos <= q.aos)
      && (forall p | p in r.passes :: exists i | 0 <= i < |results| :: p in results[i].passes)
      && (forall i, p | 0 <= i < |results| && p in results[i].passes && |found| <= 500 :: p in r.passes)
  {
    var found := Found(results, Iota(|results|));
    var s :| Sorted(s) && multiset(s) == multiset(found) && Sorted(r.passes) && multiset(r.passes) == multiset(Chosen(s, MAX_PASS_WINDOWS));
    SameLength(s, found);
    CapIsFair(s, MAX_PASS_WINDOWS, r.passes, "");
    forall i, j | 0 <= i < j < |r.passes| ensures r.passes[i].aos <= r.passes[j].aos {
      SortedAscends(r.passes, i, j);
    }
    forall p: PassResult, q: PassResult | p in r.passes && q.satellite == p.satellite && multiset(found)[q] > multiset(r.passes)[q] ensures p.aos <= q.aos {
      EarliestAreKept(s, MAX_PASS_WINDOWS, r.passes, p, q);
    }
    forall p | p in r.passes ensures exists i | 0 <= i < |results| :: p in results[i].passes {
      assert p in multiset(Chosen(s, MAX_PASS_WINDOWS));
      ChosenMembers(s, MAX_PASS_WINDOWS, p);
      assert p in multiset(found);
      FoundExactly(results, Iota(|results|), p);
    }
    forall i, p | 0 <= i < |results| && p in results[i].passes && |found| <= 500 ensures p in r.passes {
      FoundExactly(results, Iota(|results|), p);
      assert Iota(|results|)[i] == i;
      assert p in multiset(s) && p in multiset(r.passes);
    }
  }
}

/** The fair per-satellite cap on pass windows (capPerSatellite in pkg/ephemeris/pass_predictor.go). */
module PassCap {
  import opened Prelude
  import opened Sorting
  import opened PassOrder

  /** One satellite's passes, in order. */
  function Of(s: seq<PassResult>, satellite: string): seq<PassResult> {
    if s == [] then []
    else
      var last := s[|s| - 1];
      Of(s[..|s| - 1], satellite) + (if last.satellite == satellite then [last] else [])
  }

  function Names(s: seq<PassResult>): set<string> {
    set p | p in s :: p.satellite
  }

  /** The quota of one satellite: an equal share of the limit, and never less than one pass. */
  function Quota(s: seq<PassResult>, limit: nat): (q: nat)
    requires s != []
    ensures q >= 1
  {
    assert s[0].satellite in Names(s);
    Max(limit / |Names(s)|, 1)
  }

  /** The first loop: passes within their satellite's quota, and the rest. */
  function Split(s: seq<PassResult>, limit: nat, quota: nat): (seq<PassResult>, seq<PassResult>) {
    if s == [] then ([], [])
    else
      var (kept, left) := Split(s[..|s| - 1], limit, quota);
      var p := s[|s| - 1];
      if |kept| < limit && |Of(kept, p.satellite)| < quota then (kept + [p], left) else (kept, left + [p])
  }

  /** The passes that survive, before the final sort: the fair share, topped up with the earliest others. */
  function Chosen(s: seq<PassResult>, limit: nat): (r: seq<PassResult>)
  {
    if |s| <= limit then s
    else
      var (kept, left) := Split(s, limit, Quota(s, limit));
      kept + left[..Min(|left|, Max(limit - |kept|, 0))]
  }

  /** The counting loop: the number of distinct satellite names. */
  method CountSatellites(passes: seq<PassResult>) returns (nSat: nat)
    ensures nSat == |Names(passes)|
  {
    var seen: set<string> := {};
    nSat := 0;
    for i := 0 to |passes|
      invariant seen == Names(passes[..i]) && nSat == |seen|
    {
      NamesExtend(passes, i);
      if passes[i].satellite !in seen {
        seen := seen + {passes[i].satellite};
        nSat := nSat + 1;
      }
    }
    assert passes[..|passes|] == passes;
  }

  predicate CountsOf(count: map<string, nat>, s: seq<PassResult>, x: string) {
    (if x in count then count[x] else 0) == |Of(s, x)|
  }

  /** The quota loop, with a running count per satellite. */
  method SplitByQuota(passes: seq<PassResult>, limit: nat, quota: nat) returns (kept: seq<PassResult>, leftover: seq<PassResult>)
    ensures (kept, leftover) == Split(passes, limit, quota)
  {
    kept, leftover := [], [];
    var count: map<string, nat> := map[];
    for i := 0 to |passes|
      invariant (kept, leftover) == Split(passes[..i], limit, quota)
      invariant forall x :: CountsOf(count, kept, x)
    {
      assert passes[..i + 1][..i] == passes[..i];
      var p := passes[i];
      assert CountsOf(count, kept, p.satellite);
      var n := if p.satellite in count then count[p.satellite] else 0;
      if |kept| < limit && n < quota {
        var more, counted := kept + [p], count[p.satellite := n + 1];
        forall x ensures CountsOf(counted, more, x) {
          assert CountsOf(count, kept, x);
          OfAppend(kept, p, x);
        }
        kept, count := more, counted;
      } else {
        leftover := leftover + [p];
      }
    }
    assert passes[..|passes|] == passes;
  }

  /** The refill loop: the earliest leftover passes, up to the limit. */
  method Refill(fair: seq<PassResult>, leftover: seq<PassResult>, limit: nat) returns (kept: seq<PassResult>)
    ensures kept == fair + leftover[..Min(|leftover|, Max(limit - |fair|, 0))]
  {
    kept := fair;
    var i := 0;
    while i < |leftover|
      invariant 0 <= i <= |leftover| && kept == fair + leftover[..i] && (i == 0 || |fair| + i <= limit)
    {
      if |kept| >= limit {
        break;
      }
      kept := kept + [leftover[i]];
      i := i + 1;
    }
  }

  method CapPerSatellite(passes: seq<PassResult>, limit: nat) returns (r: seq<PassResult>)
    ensures |passes| <= limit ==> r == passes
    ensures multiset(r) == multiset(Chosen(passes, limit))
    ensures Sorted(passes) ==> Sorted(r)
  {
    if |passes| <= limit {
      return passes;
    }
    var nSat := CountSatellites(passes);
    assert passes[0].satellite in Names(passes);
    var quota := Max(limit / nSat, 1);
    var kept, leftover := SplitByQuota(passes, limit, quota);
    kept := Refill(kept, leftover, limit);
    assert kept == Chosen(passes, limit);
    KeysAreTotallyOrdered();
    r := Sort(LessPass, kept);
  }

  // ---- one satellite's passes -------------------------------------------------------------------

  lemma NamesExtend(s: seq<PassResult>, i: nat)
    requires i < |s|
    ensures Names(s[..i + 1]) == Names(s[..i]) + {s[i].satellite}
  {
    assert s[..i + 1] == s[..i] + [s[i]];
    assert s[i] in s[..i + 1];
  }

  lemma OfAppend(s: seq<PassResult>, p: PassResult, x: string)
    ensures Of(s + [p], x) == Of(s, x) + (if p.satellite == x then [p] else [])
  {
    assert (s + [p])[..|s|] == s;
  }

  lemma {:induction false} OfConcat(a: seq<PassResult>, b: seq<PassResult>, x: string)
    ensures Of(a + b, x) == Of(a, x) + Of(b, x)
  {
    if b == [] {
      assert a + b == a;
    } else {
      assert (a + b)[..|a + b| - 1] == a + b[..|b| - 1];
      OfConcat(a, b[..|b| - 1], x);
    }
  }

  lemma {:induction false} OfMembers(s: seq<PassResult>, x: string)
    ensures forall p :: p in Of(s, x) <==> p in s && p.satellite == x
  {
    if s != [] {
      OfMembers(s[..|s| - 1], x);
      assert s == s[..|s| - 1] + [s[|s| - 1]];
    }
  }

  lemma {:induction false} OfSorted(s: seq<PassResult>, x: string)
    requires Sorted(s)
    ensures Sorted(Of(s, x))
  {
    if s != [] {
      var init, last := s[..|s| - 1], s[|s| - 1];
      OfSorted(init, x);
      OfMembers(init, x);
      var r := Of(init, x);
      forall i | 0 <= i < |r| ensures !LessPass(last, r[i]) {
        assert r[i] in init;
      }
    }
  }

  lemma {:induction false} OfCount(s: seq<PassResult>, x: string, p: PassResult)
    ensures multiset(Of(s, x))[p] == if p.satellite == x then multiset(s)[p] else 0
  {
    if s != [] {
      OfCount(s[..|s| - 1], x, p);
      assert s == s[..|s| - 1] + [s[|s| - 1]];
    }
  }

  /** Rearranging all passes rearranges each satellite's passes. */
  lemma OfPermutation(a: seq<PassResult>, b: seq<PassResult>, x: string)
    requires multiset(a) == multiset(b)
    ensures multiset(Of(a, x)) == multiset(Of(b, x))
  {
    forall p ensures multiset(Of(a, x))[p] == multiset(Of(b, x))[p] {
      OfCount(a, x, p);
      OfCount(b, x, p);
    }
  }

  // ---- the split ----------------------------------------------------------------------------------

  lemma {:induction false} SplitLength(s: seq<PassResult>, limit: nat, quota: nat)
    ensures var (kept, left) := Split(s, limit, quota); |kept| + |left| == |s| && |kept| <= limit
  {
    if s != [] {
      SplitLength(s[..|s| - 1], limit, quota);
    }
  }

  /** No satellite exceeds its quota, and what is left over was refused for a reason. */
  lemma {:induction false} SplitRespectsQuota(s: seq<PassResult>, limit: nat, quota: nat, x: string)
    ensures var (kept, left) := Split(s, limit, quota);
      && |Of(kept, x)| <= quota
      && (Of(left, x) != [] ==> |Of(kept, x)| >= quota || |kept| >= limit)
  {
    if s != [] {
      SplitRespectsQuota(s[..|s| - 1], limit, quota, x);
      var (kept, left) := Split(s[..|s| - 1], limit, quota);
      OfAppend(kept, s[|s| - 1], x);
      OfAppend(left, s[|s| - 1], x);
    }
  }

  lemma KeepOne(kept: seq<PassResult>, left: seq<PassResult>, p: PassResult, x: string)
    requires p.satellite == x ==> Of(left, x) == []
    ensures Of(kept + [p], x) + Of(left, x) == Of(kept, x) + Of(left, x) + (if p.satellite == x then [p] else [])
  {
    OfAppend(kept, p, x);
  }

  /** A satellite's kept passes come first among its passes. */
  lemma {:induction false} SplitKeepsTheFirst(s: seq<PassResult>, limit: nat, quota: nat, x: string)
    ensures var (kept, left) := Split(s, limit, quota); Of(s, x) == Of(kept, x) + Of(left, x)
  {
    if s != [] {
      var p := s[|s| - 1];
      SplitKeepsTheFirst(s[..|s| - 1], limit, quota, x);
      var (kept, left) := Split(s[..|s| - 1], limit, quota);
      if |kept| < limit && |Of(kept, p.satellite)| < quota {
        SplitRespectsQuota(s[..|s| - 1], limit, quota, p.satellite);
        KeepOne(kept, left, p, x);
      } else {
        OfAppend(left, p, x);
      }
    }
  }

  /** How many passes belong to a set of satellites. */
  function Among(s: seq<PassResult>, names: set<string>): nat {
    if s == [] then 0
    else Among(s[..|s| - 1], names) + (if s[|s| - 1].satellite in names then 1 else 0)
  }

  lemma {:induction false} AmongAll(s: seq<PassResult>, names: set<string>)
    requires Names(s) <= names
    ensures Among(s, names) == |s|
  {
    if s != [] {
      var init := s[..|s| - 1];
      NamesExtend(s, |s| - 1);
      assert s[..|s|] == s;
      AmongAll(init, names);
    }
  }

  lemma {:induction false} AmongSplit(s: seq<PassResult>, names: set<string>, x: string)
    requires x in names
    ensures Among(s, names) == Among(s, names - {x}) + |Of(s, x)|
  {
    if s != [] {
      AmongSplit(s[..|s| - 1], names, x);
    }
  }

  lemma OneMore(n: nat, quota: nat)
    ensures (n + 1) * quota == n * quota + quota
  {
  }

  lemma {:induction false} AmongAtMost(s: seq<PassResult>, names: set<string>, quota: nat)
    requires forall x | x in names :: |Of(s, x)| <= quota
    ensures Among(s, names) <= |names| * quota
    decreases names
  {
    if names == {} {
      AmongNone(s);
    } else {
      var x :| x in names;
      AmongSplit(s, names, x);
      AmongAtMost(s, names - {x}, quota);
      assert |names| == |names - {x}| + 1;
      OneMore(|names - {x}|, quota);
    }
  }

  lemma {:induction false} AmongAtLeast(s: seq<PassResult>, names: set<string>)
    requires forall x | x in names :: |Of(s, x)| >= 1
    ensures Among(s, names) >= |names|
    decreases names
  {
    if names != {} {
      var x :| x in names;
      AmongSplit(s, names, x);
      AmongAtLeast(s, names - {x});
      assert |names| == |names - {x}| + 1;
    }
  }

  lemma {:induction false} AmongNone(s: seq<PassResult>)
    ensures Among(s, {}) == 0
  {
    if s != [] {
      AmongNone(s[..|s| - 1]);
    }
  }

  lemma {:induction false} SplitNames(s: seq<PassResult>, limit: nat, quota: nat)
    ensures Names(Split(s, limit, quota).0) <= Names(s)
  {
    if s != [] {
      SplitNames(s[..|s| - 1], limit, quota);
      assert s == s[..|s| - 1] + [s[|s| - 1]];
      forall x | x in Names(Split(s, limit, quota).0) ensures x in Names(s) {
        var p :| p in Split(s, limit, quota).0 && p.satellite == x;
        if p != s[|s| - 1] {
          assert p in Split(s[..|s| - 1], limit, quota).0;
          assert x in Names(s[..|s| - 1]);
        }
      }
    }
  }

  lemma EqualShares(limit: nat, n: nat)
    requires 0 < n <= limit
    ensures Max(limit / n, 1) == limit / n && (n - 1) * (limit / n) + limit / n <= limit
  {
    assert limit / n * n <= limit;
  }

  /** A satellite whose passes were refused because the budget ran out still has its full share. */
  lemma FullBudgetMeansFullShare(s: seq<PassResult>, limit: nat, x: string)
    requires |s| > limit && x in Names(s) && |Names(s)| <= limit
    requires |Split(s, limit, Quota(s, limit)).0| >= limit
    ensures |Of(Split(s, limit, Quota(s, limit)).0, x)| >= Quota(s, limit)
  {
    var names, quota := Names(s), Quota(s, limit);
    var kept := Split(s, limit, quota).0;
    SplitNames(s, limit, quota);
    AmongAll(kept, names);
    AmongSplit(kept, names, x);
    forall y ensures |Of(kept, y)| <= quota { SplitRespectsQuota(s, limit, quota, y); }
    AmongAtMost(kept, names - {x}, quota);
    assert |names - {x}| == |names| - 1;
    EqualShares(limit, |names|);
  }

  lemma FirstPassIsKept(s: seq<PassResult>, limit: nat, quota: nat, x: string)
    requires x in Names(s) && quota >= 1 && |Split(s, limit, quota).0| < limit
    ensures |Of(Split(s, limit, quota).0, x)| >= 1
  {
    SplitRespectsQuota(s, limit, quota, x);
    SplitKeepsTheFirst(s, limit, quota, x);
    OfMembers(s, x);
    var p :| p in s && p.satellite == x;
    assert p in Of(s, x);
  }

  lemma MoreThanTheLimit(limit: nat, n: nat)
    requires n > limit
    ensures Max(limit / n, 1) == 1
  {
  }

  /** With more satellites than the limit, the first pass of `limit` satellites fills the budget. */
  lemma ManySatellitesFillTheBudget(s: seq<PassResult>, limit: nat)
    requires |s| > limit && |Names(s)| > limit
    ensures |Split(s, limit, Quota(s, limit)).0| == limit && Quota(s, limit) == 1
  {
    var names := Names(s);
    MoreThanTheLimit(limit, |names|);
    SplitLength(s, limit, 1);
    if |Split(s, limit, 1).0| < limit {
      var kept := Split(s, limit, 1).0;
      forall x | x in names ensures |Of(kept, x)| >= 1 {
        FirstPassIsKept(s, limit, 1, x);
      }
      AmongAtLeast(kept, names);
      SplitNames(s, limit, 1);
      AmongAll(kept, names);
    }
  }

  // ---- what the cap promises ------------------------------------------------------------------------

  lemma {:induction false} OfPrefix(a: seq<PassResult>, n: nat, x: string)
    requires n <= |a|
    ensures Of(a[..n], x) <= Of(a, x)
  {
    assert a == a[..n] + a[n..];
    OfConcat(a[..n], a[n..], x);
  }

  /** The chosen passes of a satellite are its first ones. */
  lemma ChosenAreTheFirst(s: seq<PassResult>, limit: nat, x: string)
    ensures Of(Chosen(s, limit), x) <= Of(s, x)
    ensures |s| > limit ==> Of(Split(s, limit, Quota(s, limit)).0, x) <= Of(Chosen(s, limit), x)
  {
    if |s| > limit {
      var (kept, left) := Split(s, limit, Quota(s, limit));
      SplitKeepsTheFirst(s, limit, Quota(s, limit), x);
      var n := Min(|left|, Max(limit - |kept|, 0));
      OfConcat(kept, left[..n], x);
      OfPrefix(left, n, x);
    }
  }

  lemma NoPassesOfAStranger(s: seq<PassResult>, x: string)
    requires x !in Names(s)
    ensures Of(s, x) == []
  {
    OfMembers(s, x);
    forall p ensures p !in Of(s, x) {
      assert p in s ==> p.satellite in Names(s);
    }
  }

  lemma ChosenAreFair(s: seq<PassResult>, limit: nat, x: string)
    requires 0 < |Names(s)| <= limit
    ensures |Of(Chosen(s, limit), x)| >= Min(|Of(s, x)|, limit / |Names(s)|)
  {
    if |s| > limit && x in Names(s) {
      var quota := Quota(s, limit);
      EqualShares(limit, |Names(s)|);
      ChosenAreTheFirst(s, limit, x);
      SplitKeepsTheFirst(s, limit, quota, x);
      SplitRespectsQuota(s, limit, quota, x);
      if |Split(s, limit, quota).0| >= limit {
        FullBudgetMeansFullShare(s, limit, x);
      }
    } else if x !in Names(s) {
      NoPassesOfAStranger(s, x);
    }
  }

  lemma ChosenAreOneEach(s: seq<PassResult>, limit: nat, x: string)
    requires |s| > limit && |Names(s)| > limit
    ensures |Of(Chosen(s, limit), x)| <= 1
  {
    ManySatellitesFillTheBudget(s, limit);
    var (kept, left) := Split(s, limit, 1);
    SplitRespectsQuota(s, limit, 1, x);
    assert left[..0] == [] && kept + [] == kept;
    assert Chosen(s, limit) == kept;
  }

  /** The chosen passes of a satellite are its first ones, at least its fair share, and one each under pressure. */
  lemma ChosenPerSatellite(s: seq<PassResult>, limit: nat, x: string)
    ensures Of(Chosen(s, limit), x) <= Of(s, x)
    ensures 0 < |Names(s)| <= limit ==> |Of(Chosen(s, limit), x)| >= Min(|Of(s, x)|, limit / |Names(s)|)
    ensures |s| > limit && |Names(s)| > limit ==> |Of(Chosen(s, limit), x)| <= 1
  {
    ChosenAreTheFirst(s, limit, x);
    if 0 < |Names(s)| <= limit { ChosenAreFair(s, limit, x); }
    if |s| > limit && |Names(s)| > limit { ChosenAreOneEach(s, limit, x); }
  }

  lemma ChosenLength(s: seq<PassResult>, limit: nat)
    ensures |Chosen(s, limit)| == Min(|s|, limit)
  {
    if |s| > limit {
      SplitLength(s, limit, Quota(s, limit));
    }
  }

  /** A sorted rearrangement of a prefix of sorted passes shows the first keys. */
  lemma SortedPrefix(r: seq<PassResult>, chosen: seq<PassResult>, full: seq<PassResult>)
    requires Sorted(r) && Sorted(full) && multiset(r) == multiset(chosen) && chosen <= full
    ensures |r| == |chosen| && KeysOf(r) <= KeysOf(full) && multiset(r) == multiset(full[..|r|])
  {
    SameLength(r, chosen);
    assert chosen == full[..|chosen|];
    KeysOfPermutation(r, chosen);
    SortedKeysAgree(r, chosen);
  }

  /**
   Every sorted rearrangement of the chosen passes, hence every result of CapPerSatellite on sorted
   input: exact length, each satellite's earliest passes, and the fair share of each.
   */
  lemma CapIsFair(s: seq<PassResult>, limit: nat, r: seq<PassResult>, x: string)
    requires Sorted(s) && Sorted(r) && multiset(r) == multiset(Chosen(s, limit))
    ensures |r| == Min(|s|, limit)
    ensures KeysOf(Of(r, x)) <= KeysOf(Of(s, x))
    ensures |Of(r, x)| <= |Of(s, x)| && multiset(Of(r, x)) == multiset(Of(s, x)[..|Of(r, x)|])
    ensures 0 < |Names(s)| <= limit ==> |Of(r, x)| >= Min(|Of(s, x)|, limit / |Names(s)|)
    ensures |s| > limit && |Names(s)| > limit ==> |Of(r, x)| <= 1
  {
    var c := Chosen(s, limit);
    SameLength(r, c);
    ChosenLength(s, limit);
    ChosenPerSatellite(s, limit, x);
    OfPermutation(r, c, x);
    OfSorted(s, x);
    OfSorted(r, x);
    SortedPrefix(Of(r, x), Of(c, x), Of(s, x));
  }

  /** A place of `p` in a sequence that holds it more often than its first `n` places do. */
  lemma BeyondPrefix(s: seq<PassResult>, n: nat, p: PassResult) returns (j: nat)
    requires n <= |s| && multiset(s)[p] > multiset(s[..n])[p]
    ensures n <= j < |s| && s[j] == p
  {
    assert s == s[..n] + s[n..];
    assert multiset(s)[p] == multiset(s[..n])[p] + multiset(s[n..])[p];
    assert p in s[n..];
    j :| n <= j < |s| && s[j] == p;
  }

  /** Of one satellite, no pass that the cap drops starts before a pass that it keeps. */
  lemma EarliestAreKept(s: seq<PassResult>, limit: nat, r: seq<PassResult>, kept: PassResult, dropped: PassResult)
    requires Sorted(s) && Sorted(r) && multiset(r) == multiset(Chosen(s, limit))
    requires kept in r && multiset(s)[dropped] > multiset(r)[dropped] && kept.satellite == dropped.satellite
    ensures kept.aos <= dropped.aos
  {
    var x := kept.satellite;
    CapIsFair(s, limit, r, x);
    OfMembers(r, x);
    OfCount(s, x, dropped);
    OfCount(r, x, dropped);
    OfSorted(s, x);
    assert kept in multiset(Of(r, x));
    PrefixComesFirst(Of(s, x), |Of(r, x)|, kept, dropped);
  }

  /** Of sorted passes, what lies in a prefix starts no later than what does not all lie in it. */
  lemma PrefixComesFirst(s: seq<PassResult>, n: nat, kept: PassResult, dropped: PassResult)
    requires Sorted(s) && n <= |s| && kept in multiset(s[..n]) && multiset(s)[dropped] > multiset(s[..n])[dropped]
    ensures kept.aos <= dropped.aos
  {
    var i :| 0 <= i < n && s[..n][i] == kept;
    var j := BeyondPrefix(s, n, dropped);
    SortedAscends(s, i, j);
  }

  lemma {:induction false} SplitKeepsOrder(s: seq<PassResult>, limit: nat, quota: nat)
    requires Sorted(s)
    ensures Sorted(Split(s, limit, quota).1) && forall p | p in Split(s, limit, quota).1 :: p in s
  {
    if s != [] {
      SplitKeepsOrder(s[..|s| - 1], limit, quota);
      var left := Split(s[..|s| - 1], limit, quota).1;
      forall i | 0 <= i < |left| ensures !LessPass(s[|s| - 1], left[i]) {
        assert left[i] in s[..|s| - 1];
      }
    }
  }

  /** Among the passes beyond the quotas, those that fill the budget start no later than those that are dropped. */
  lemma RefillTakesTheEarliest(s: seq<PassResult>, limit: nat, i: nat, j: nat)
    requires Sorted(s) && |s| > limit
    requires var (kept, left) := Split(s, limit, Quota(s, limit)); i < limit - |kept| <= j < |left|
    ensures var (kept, left) := Split(s, limit, Quota(s, limit));
      Chosen(s, limit) == kept + left[..limit - |kept|] && left[i].aos <= left[j].aos
  {
    var quota := Quota(s, limit);
    SplitLength(s, limit, quota);
    SplitKeepsOrder(s, limit, quota);
    SortedAscends(Split(s, limit, quota).1, i, j);
  }

  // ---- the choice depends on the keys alone ----------------------------------------------------------

  lemma {:induction false} OfByKeys(a: seq<PassResult>, b: seq<PassResult>, x: string)
    requires KeysOf(a) == KeysOf(b)
    ensures |Of(a, x)| == |Of(b, x)|
  {
    assert |KeysOf(a)| == |a| && |KeysOf(b)| == |b|;
    if a != [] {
      var n := |a| - 1;
      assert KeysOf(a)[n] == KeyOf(a[n]) && KeysOf(b)[n] == KeyOf(b[n]);
      KeysPrefix(a, b, n);
      OfByKeys(a[..n], b[..n], x);
    }
  }

  lemma KeysPrefix(a: seq<PassResult>, b: seq<PassResult>, n: nat)
    requires KeysOf(a) == KeysOf(b) && n <= |a| && n <= |b|
    ensures KeysOf(a[..n]) == KeysOf(b[..n])
  {
    forall i | 0 <= i < n ensures KeyOf(a[i]) == KeyOf(b[i]) {
      assert KeysOf(a)[i] == KeysOf(b)[i];
    }
  }

  lemma {:induction false} SplitByKeys(a: seq<PassResult>, b: seq<PassResult>, limit: nat, quota: nat)
    requires KeysOf(a) == KeysOf(b)
    ensures KeysOf(Split(a, limit, quota).0) == KeysOf(Split(b, limit, quota).0)
    ensures KeysOf(Split(a, limit, quota).1) == KeysOf(Split(b, limit, quota).1)
  {
    assert |KeysOf(a)| == |a| && |KeysOf(b)| == |b|;
    if a != [] {
      var n := |a| - 1;
      KeysPrefix(a, b, n);
      SplitByKeys(a[..n], b[..n], limit, quota);
      assert KeysOf(a)[n] == KeyOf(a[n]) && KeysOf(b)[n] == KeyOf(b[n]);
      var (ka, la) := Split(a[..n], limit, quota);
      var (kb, lb) := Split(b[..n], limit, quota);
      OfByKeys(ka, kb, a[n].satellite);
      assert |KeysOf(ka)| == |ka| && |KeysOf(kb)| == |kb|;
      KeysOfConcat(ka, [a[n]]);
      KeysOfConcat(kb, [b[n]]);
      KeysOfConcat(la, [a[n]]);
      KeysOfConcat(lb, [b[n]]);
      assert KeysOf([a[n]]) == KeysOf([b[n]]);
    }
  }

  lemma NamesByKeys(a: seq<PassResult>, b: seq<PassResult>)
    requires KeysOf(a) == KeysOf(b)
    ensures Names(a) == Names(b)
  {
    assert |KeysOf(a)| == |a| && |KeysOf(b)| == |b|;
    forall x | x in Names(a) ensures x in Names(b) {
      var i :| 0 <= i < |a| && a[i].satellite == x;
      assert KeysOf(a)[i] == KeysOf(b)[i] && b[i] in b;
    }
    forall x | x in Names(b) ensures x in Names(a) {
      var i :| 0 <= i < |b| && b[i].satellite == x;
      assert KeysOf(a)[i] == KeysOf(b)[i] && a[i] in a;
    }
  }

  lemma ChosenByKeys(a: seq<PassResult>, b: seq<PassResult>, limit: nat)
    requires KeysOf(a) == KeysOf(b)
    ensures KeysOf(Chosen(a, limit)) == KeysOf(Chosen(b, limit))
  {
    assert |KeysOf(a)| == |a| && |KeysOf(b)| == |b|;
    if |a| > limit {
      NamesByKeys(a, b);
      var quota := Quota(a, limit);
      SplitByKeys(a, b, limit, quota);
      var (ka, la) := Split(a, limit, quota);
      var (kb, lb) := Split(b, limit, quota);
      assert |KeysOf(ka)| == |ka| && |KeysOf(kb)| == |kb| && |KeysOf(la)| == |la| && |KeysOf(lb)| == |lb|;
      var n := Min(|la|, Max(limit - |ka|, 0));
      KeysPrefix(la, lb, n);
      KeysOfConcat(ka, la[..n]);
      KeysOfConcat(kb, lb[..n]);
    }
  }
}

/** Sorting facts over an arbitrary order, so that no proof has to look inside a particular comparison. */
module Sorting {

  /** `less` ranks its arguments; arguments of equal rank need not be equal. */
  ghost predicate WeakOrder<T(!new)>(less: (T, T) -> bool) {
    && (forall a, b :: !(less(a, b) && less(b, a)))
    && (forall a, b, c :: !less(b, a) && !less(c, b) ==> !less(c, a))
  }

  ghost predicate TotalOrder<T(!new)>(less: (T, T) -> bool) {
    WeakOrder(less) && forall a, b :: less(a, b) || less(b, a) || a == b
  }

  predicate SortedBy<T>(less: (T, T) -> bool, s: seq<T>) {
    forall i, j | 0 <= i < j < |s| :: !less(s[j], s[i])
  }

  lemma RemoveAt<T>(s: seq<T>, i: nat)
    requires i < |s|
    ensures multiset(s[..i] + s[i + 1..]) == multiset(s) - multiset{s[i]}
  {
    assert s == s[..i] + [s[i]] + s[i + 1..];
  }

  /** Removing equal elements from rearrangements leaves rearrangements. */
  lemma RemoveBoth<T>(a: seq<T>, i: nat, b: seq<T>, j: nat)
    requires i < |a| && j < |b| && a[i] == b[j]
    ensures multiset(a) == multiset(b) <==> multiset(a[..i] + a[i + 1..]) == multiset(b[..j] + b[j + 1..])
  {
    RemoveAt(a, i);
    RemoveAt(b, j);
    assert a[i] in multiset(a) && b[j] in multiset(b);
    assert multiset(a) == multiset(a[..i] + a[i + 1..]) + multiset{a[i]};
    assert multiset(b) == multiset(b[..j] + b[j + 1..]) + multiset{b[j]};
  }

  lemma RemoveHeads<T>(a: seq<T>, b: seq<T>)
    requires a != [] && b != [] && a[0] == b[0] && multiset(a) == multiset(b)
    ensures multiset(a[1..]) == multiset(b[1..])
  {
    RemoveBoth(a, 0, b, 0);
    assert a[..0] + a[1..] == a[1..] && b[..0] + b[1..] == b[1..];
  }

  lemma SameLength<T>(a: seq<T>, b: seq<T>)
    requires multiset(a) == multiset(b)
    ensures |a| == |b|
  {
    assert |multiset(a)| == |a| && |multiset(b)| == |b|;
  }

  /** Some member of a set: which one is not promised. */
  method AnyOf<T(==)>(s: set<T>) returns (x: T)
    requires s != {}
    ensures x in s
  {
    x :| x in s;
  }

  lemma FindIn<T>(x: T, a: seq<T>, b: seq<T>) returns (i: nat)
    requires multiset(a) == multiset(b) && x in a
    ensures i < |b| && b[i] == x
  {
    assert x in multiset(b);
    i :| 0 <= i < |b| && b[i] == x;
  }

  lemma SameHead<T(!new)>(less: (T, T) -> bool, a: seq<T>, b: seq<T>)
    requires forall x, y :: less(x, y) || less(y, x) || x == y
    requires SortedBy(less, a) && SortedBy(less, b) && multiset(a) == multiset(b) && a != [] && b != []
    ensures a[0] == b[0]
  {
    var i := FindIn(a[0], a, b);
    var j := FindIn(b[0], b, a);
  }

  /** Under a total order a sorted sequence is determined by its contents. */
  lemma {:induction false} SortedUnique<T(!new)>(less: (T, T) -> bool, a: seq<T>, b: seq<T>)
    requires forall x, y :: less(x, y) || less(y, x) || x == y
    requires SortedBy(less, a) && SortedBy(less, b) && multiset(a) == multiset(b)
    ensures a == b
  {
    SameLength(a, b);
    if a != [] {
      SameHead(less, a, b);
      RemoveHeads(a, b);
      SortedUnique(less, a[1..], b[1..]);
    }
  }

  function Insert<T>(less: (T, T) -> bool, p: T, s: seq<T>): (r: seq<T>)
  {
    if s == [] then [p]
    else if !less(p, s[|s| - 1]) then s + [p]
    else Insert(less, p, s[..|s| - 1]) + [s[|s| - 1]]
  }

  lemma {:induction false} InsertSorts<T(!new)>(less: (T, T) -> bool, p: T, s: seq<T>)
    requires WeakOrder(less) && SortedBy(less, s)
    ensures SortedBy(less, Insert(less, p, s))
    ensures multiset(Insert(less, p, s)) == multiset(s) + multiset{p}
  {
    if s != [] {
      var last, rest := s[|s| - 1], s[..|s| - 1];
      assert s == rest + [last];
      if less(p, last) {
        InsertSorts(less, p, rest);
        var r := Insert(less, p, rest);
        forall i | 0 <= i < |r| ensures !less(last, r[i]) {
          assert r[i] in multiset(r);
          if r[i] != p { assert r[i] in rest; }
        }
      } else {
        forall i | 0 <= i < |s| ensures !less(p, s[i]) {
          assert !less(last, s[i]);
        }
      }
    }
  }

  /** Any sort: a sorted rearrangement, with no promise about elements of equal rank. */
  method Sort<T(!new)>(less: (T, T) -> bool, s: seq<T>) returns (r: seq<T>)
    requires WeakOrder(less)
    ensures SortedBy(less, r) && multiset(r) == multiset(s)
  {
    r := [];
    for i := 0 to |s|
      invariant SortedBy(less, r) && multiset(r) == multiset(s[..i])
    {
      assert s[..i + 1] == s[..i] + [s[i]];
      InsertSorts(less, s[i], r);
      r := Insert(less, s[i], r);
    }
    assert s[..|s|] == s;
  }
}

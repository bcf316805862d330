/** Pass windows and their total order (lessPass in pkg/ephemeris/pass_predictor.go). */
module PassOrder {
  import opened Prelude
  import opened Sorting

  datatype PassResult = PassResult(satellite: string, norad: int, station: string, aos: Instant, los: Instant, maxElevation: real)
  datatype Key = Key(aos: Instant, satellite: string, station: string, los: Instant)

  function KeyOf(p: PassResult): Key {
    Key(p.aos, p.satellite, p.station, p.los)
  }

  function KeysOf(s: seq<PassResult>): (ks: seq<Key>)
    ensures |ks| == |s| && forall i | 0 <= i < |s| :: ks[i] == KeyOf(s[i])
  {
    seq(|s|, i requires 0 <= i < |s| => KeyOf(s[i]))
  }

  /** lessPass, which reads nothing but the key. */
  predicate Less(a: Key, b: Key) {
    if a.aos != b.aos then a.aos < b.aos
    else if a.satellite != b.satellite then StringLess(a.satellite, b.satellite)
    else if a.station != b.station then StringLess(a.station, b.station)
    else a.los < b.los
  }

  /** lessPass on passes: passes that differ only outside the key have equal rank. */
  predicate LessPass(a: PassResult, b: PassResult) {
    Less(KeyOf(a), KeyOf(b))
  }

  lemma LessIsTotal(a: Key, b: Key)
    ensures Less(a, b) || Less(b, a) || a == b
    ensures !(Less(a, b) && Less(b, a))
  {
    StringOrderTotal(a.satellite, b.satellite);
    StringOrderTotal(a.station, b.station);
  }

  lemma LessIsTransitive(a: Key, b: Key, c: Key)
    ensures Less(a, b) && Less(b, c) ==> Less(a, c)
  {
    if StringLess(a.satellite, b.satellite) && StringLess(b.satellite, c.satellite) {
      StringOrderTransitive(a.satellite, b.satellite, c.satellite);
      StringOrderTotal(a.satellite, c.satellite);
    }
    if StringLess(a.station, b.station) && StringLess(b.station, c.station) {
      StringOrderTransitive(a.station, b.station, c.station);
      StringOrderTotal(a.station, c.station);
    }
    StringOrderTotal(a.satellite, b.satellite);
    StringOrderTotal(a.station, b.station);
  }

  lemma KeysAreTotallyOrdered()
    ensures TotalOrder(Less) && WeakOrder(LessPass)
  {
    forall a, b ensures (Less(a, b) || Less(b, a) || a == b) && !(Less(a, b) && Less(b, a)) { LessIsTotal(a, b); }
    forall a, b, c | !Less(b, a) && !Less(c, b) ensures !Less(c, a) {
      LessIsTotal(a, b);
      LessIsTotal(b, c);
      LessIsTotal(a, c);
      LessIsTransitive(a, b, c);
    }
  }

  predicate Sorted(s: seq<PassResult>) {
    SortedBy(LessPass, s)
  }

  /** Sorted passes ascend by AOS; among equal AOS by satellite, then by station, then by LOS. */
  lemma SortedAscends(s: seq<PassResult>, i: nat, j: nat)
    requires Sorted(s) && i < j < |s|
    ensures s[i].aos <= s[j].aos
    ensures s[i].aos == s[j].aos ==> s[i].satellite == s[j].satellite || StringLess(s[i].satellite, s[j].satellite)
    ensures s[i].aos == s[j].aos && s[i].satellite == s[j].satellite ==> s[i].station == s[j].station || StringLess(s[i].station, s[j].station)
    ensures s[i].aos == s[j].aos && s[i].satellite == s[j].satellite && s[i].station == s[j].station ==> s[i].los <= s[j].los
  {
    assert !LessPass(s[j], s[i]);
    StringOrderTotal(s[i].satellite, s[j].satellite);
    StringOrderTotal(s[i].station, s[j].station);
  }

  lemma KeysOfConcat(a: seq<PassResult>, b: seq<PassResult>)
    ensures KeysOf(a + b) == KeysOf(a) + KeysOf(b)
  {
  }

  lemma KeysOfRemoveAt(s: seq<PassResult>, i: nat)
    requires i < |s|
    ensures KeysOf(s[..i] + s[i + 1..]) == KeysOf(s)[..i] + KeysOf(s)[i + 1..]
  {
  }

  lemma KeysPutBack(a: seq<PassResult>, b: seq<PassResult>, i: nat)
    requires a != [] && i < |b| && a[0] == b[i]
    requires multiset(KeysOf(a[..0] + a[1..])) == multiset(KeysOf(b[..i] + b[i + 1..]))
    ensures multiset(KeysOf(a)) == multiset(KeysOf(b))
  {
    KeysOfRemoveAt(a, 0);
    KeysOfRemoveAt(b, i);
    RemoveBoth(KeysOf(a), 0, KeysOf(b), i);
  }

  /** Rearranging passes only rearranges their keys. */
  lemma {:induction false} KeysOfPermutation(a: seq<PassResult>, b: seq<PassResult>)
    requires multiset(a) == multiset(b)
    ensures multiset(KeysOf(a)) == multiset(KeysOf(b))
    decreases |a|
  {
    SameLength(a, b);
    if a != [] {
      var i := FindIn(a[0], a, b);
      RemoveBoth(a, 0, b, i);
      KeysOfPermutation(a[..0] + a[1..], b[..i] + b[i + 1..]);
      KeysPutBack(a, b, i);
    } else {
      assert a == b;
    }
  }

  /** Two sorted rearrangements of passes with the same keys show the same key sequence. */
  lemma SortedKeysAgree(a: seq<PassResult>, b: seq<PassResult>)
    requires Sorted(a) && Sorted(b) && multiset(KeysOf(a)) == multiset(KeysOf(b))
    ensures KeysOf(a) == KeysOf(b)
  {
    KeysAreTotallyOrdered();
    SortedUnique(Less, KeysOf(a), KeysOf(b));
  }
}

/** A grouping round of a different-models bundle, seen model by model: which keys it takes, and how the
    rounds of two carts that differ by single units keep in step
    (src/modules/promotions/bundles/bundle-pricing.util.ts). */
module BundleRounds {
  import opened BundlePricing
  import opened BundleOptimality

  // ------------------------------------------------------------ the ranking is strict

  lemma {:induction false} KeyLessIsStrict(a: string, b: string)
    ensures !(KeyLess(a, b) && KeyLess(b, a))
    ensures a != b ==> KeyLess(a, b) || KeyLess(b, a)
  {
    if a != [] && b != [] && a[0] == b[0] {
      KeyLessIsStrict(a[1..], b[1..]);
      assert a == [a[0]] + a[1..] && b == [b[0]] + b[1..];
    }
  }

  lemma {:induction false} KeyLessTransitive(a: string, b: string, c: string)
    requires KeyLess(a, b) && KeyLess(b, c)
    ensures KeyLess(a, c)
  {
    if a != [] && a[0] == b[0] && b[0] == c[0] {
      KeyLessTransitive(a[1..], b[1..], c[1..]);
    }
  }

  /** A bucket of `n` units with this key ranks before one of `m` units with the other. */
  predicate Outranks(n: int, key: string, m: int, other: string) {
    n > m || (n == m && KeyLess(key, other))
  }

  ghost predicate StrictlyRanked(r: seq<Bucket>) {
    forall i, j :: 0 <= i < j < |r| ==> RanksBefore(r[i], r[j])
  }

  lemma {:induction false} RanksTransitive(x: Bucket, y: Bucket, z: Bucket)
    requires RanksBefore(x, y) && RanksBefore(y, z)
    ensures RanksBefore(x, z)
  {
    if KeyLess(x.key, y.key) && KeyLess(y.key, z.key) {
      KeyLessTransitive(x.key, y.key, z.key);
    }
  }

  lemma {:induction false} HeadKeepsRanked(head: Bucket, tail: seq<Bucket>)
    requires StrictlyRanked(tail) && forall y :: y in tail ==> RanksBefore(head, y)
    ensures StrictlyRanked([head] + tail)
  {
    var r := [head] + tail;
    forall i, j | 0 <= i < j < |r| ensures RanksBefore(r[i], r[j]) {
      assert r[j] == tail[j - 1] && r[j] in tail;
      if i > 0 {
        assert r[i] == tail[i - 1];
      }
    }
  }

  lemma {:induction false} InsertKeepsRanked(x: Bucket, ranked: seq<Bucket>)
    requires StrictlyRanked(ranked) && forall y :: y in ranked ==> y.key != x.key
    ensures StrictlyRanked(InsertByRank(x, ranked))
  {
    if ranked == [] || !RanksBefore(ranked[0], x) {
      forall y | y in ranked ensures RanksBefore(x, y) {
        KeyLessIsStrict(ranked[0].key, x.key);
        assert RanksBefore(x, ranked[0]);
        var i :| 0 <= i < |ranked| && ranked[i] == y;
        if i > 0 {
          RanksTransitive(x, ranked[0], y);
        }
      }
      HeadKeepsRanked(x, ranked);
    } else {
      var rest := ranked[1..];
      assert forall i :: 0 <= i < |rest| ==> rest[i] == ranked[i + 1];
      InsertKeepsRanked(x, rest);
      var inner := InsertByRank(x, rest);
      forall y | y in inner ensures RanksBefore(ranked[0], y) {
        assert y in multiset(inner);
        if y != x {
          assert y in multiset(rest);
          var i :| 0 <= i < |rest| && rest[i] == y;
          assert ranked[i + 1] == y;
        }
      }
      HeadKeepsRanked(ranked[0], inner);
    }
  }

  lemma {:induction false} RankedIsStrict(buckets: seq<Bucket>)
    requires DistinctKeys(buckets)
    ensures StrictlyRanked(Ranked(buckets))
  {
    if buckets != [] {
      var rest := buckets[1..];
      assert forall i :: 0 <= i < |rest| ==> rest[i] == buckets[i + 1];
      RankedIsStrict(rest);
      forall y | y in Ranked(rest) ensures y.key != buckets[0].key {
        assert y in multiset(Ranked(rest)) && y in multiset(rest);
        var i :| 0 <= i < |rest| && rest[i] == y;
        assert buckets[i + 1] == y;
      }
      InsertKeepsRanked(buckets[0], Ranked(rest));
    }
  }

  // ------------------------------------------------------------ buckets by key

  /** The units under a key. */
  function At(buckets: seq<Bucket>, key: string): seq<Unit> {
    if buckets == [] then []
    else if buckets[0].key == key then buckets[0].units
    else At(buckets[1..], key)
  }

  function KeysLeft(buckets: seq<Bucket>): set<string> {
    set i | 0 <= i < |buckets| && buckets[i].units != [] :: buckets[i].key
  }

  function KeysOf(picks: seq<Pick>): set<string> {
    set i | 0 <= i < |picks| :: picks[i].key
  }

  lemma {:induction false} AtIndex(buckets: seq<Bucket>, i: nat)
    requires DistinctKeys(buckets) && i < |buckets|
    ensures At(buckets, buckets[i].key) == buckets[i].units
  {
    if i > 0 {
      assert buckets[1..][i - 1] == buckets[i];
      AtIndex(buckets[1..], i - 1);
    }
  }

  lemma {:induction false} AtAbsent(buckets: seq<Bucket>, key: string)
    requires !HasKey(buckets, key)
    ensures At(buckets, key) == []
  {
    if buckets != [] {
      assert buckets[0].key != key;
      forall i | 0 <= i < |buckets[1..]| ensures buckets[1..][i].key != key {
        assert buckets[i + 1].key != key;
      }
      AtAbsent(buckets[1..], key);
    }
  }

  lemma {:induction false} KeysLeftAreFilled(buckets: seq<Bucket>, key: string)
    requires DistinctKeys(buckets)
    ensures key in KeysLeft(buckets) <==> At(buckets, key) != []
  {
    if HasKey(buckets, key) {
      var i :| 0 <= i < |buckets| && buckets[i].key == key;
      AtIndex(buckets, i);
    } else {
      AtAbsent(buckets, key);
    }
  }

  lemma {:induction false} KeysLeftCount(buckets: seq<Bucket>)
    requires DistinctKeys(buckets)
    ensures |KeysLeft(buckets)| == |NonEmpty(buckets)|
  {
    if buckets != [] {
      var rest := buckets[1..];
      KeysLeftCount(rest);
      assert forall i :: 0 <= i < |rest| ==> rest[i] == buckets[i + 1];
      if buckets[0].units != [] {
        assert KeysLeft(buckets) == {buckets[0].key} + KeysLeft(rest);
        assert buckets[0].key !in KeysLeft(rest);
      } else {
        assert KeysLeft(buckets) == KeysLeft(rest);
      }
    }
  }

  lemma {:induction false} KeysOfCount(picks: seq<Pick>)
    requires forall i, j :: 0 <= i < j < |picks| ==> picks[i].key != picks[j].key
    ensures |KeysOf(picks)| == |picks|
  {
    if picks != [] {
      var rest := picks[1..];
      assert forall i :: 0 <= i < |rest| ==> rest[i] == picks[i + 1];
      KeysOfCount(rest);
      assert KeysOf(picks) == {picks[0].key} + KeysOf(rest);
      assert picks[0].key !in KeysOf(rest);
    }
  }

  // ------------------------------------------------------------ one round

  /** `taken` are the `size` keys that rank before all others. */
  ghost predicate TopKeys(buckets: seq<Bucket>, taken: set<string>, size: nat) {
    && |taken| == size
    && (forall x :: x in taken ==> At(buckets, x) != [])
    && (forall x, y :: x in taken && y !in taken ==> Outranks(|At(buckets, x)|, x, |At(buckets, y)|, y))
  }

  /** One unit less under each taken key. */
  ghost predicate RoundTaken(buckets: seq<Bucket>, rest: seq<Bucket>, taken: set<string>) {
    forall key :: At(rest, key) == if key in taken && At(buckets, key) != [] then At(buckets, key)[1..] else At(buckets, key)
  }

  lemma {:induction false} PickedOutranks(b: Bundle, size: nat, buckets: seq<Bucket>, p: nat, y: string)
    requires b.requireDifferentPhoneModels && DistinctKeys(buckets) && Choose(b, size, buckets).Some?
    requires p < |Choose(b, size, buckets).value| && y !in KeysOf(Choose(b, size, buckets).value)
    ensures var x := Choose(b, size, buckets).value[p].key;
            At(buckets, x) != [] && Outranks(|At(buckets, x)|, x, |At(buckets, y)|, y)
  {
    var ranked := Ranked(NonEmpty(buckets));
    ChosenFollowRanking(b, size, buckets);
    NonEmptyKeepsKeysDistinct(buckets);
    RankedIsStrict(NonEmpty(buckets));
    assert ranked[p] in multiset(ranked) && ranked[p] in multiset(NonEmpty(buckets));
    var i :| 0 <= i < |buckets| && buckets[i] == ranked[p];
    AtIndex(buckets, i);
    KeysLeftAreFilled(buckets, y);
    if At(buckets, y) != [] {
      var j :| 0 <= j < |buckets| && buckets[j].units != [] && buckets[j].key == y;
      AtIndex(buckets, j);
      NonEmptyKeeps(buckets, j);
      assert buckets[j] in multiset(NonEmpty(buckets)) && buckets[j] in multiset(ranked);
      var q :| 0 <= q < |ranked| && ranked[q] == buckets[j];
      forall k | 0 <= k < size ensures ranked[k].key != y {
        assert Choose(b, size, buckets).value[k].key == ranked[k].key;
      }
      assert RanksBefore(ranked[p], ranked[q]);
    }
  }

  lemma {:induction false} ChosenAreTop(b: Bundle, size: nat, buckets: seq<Bucket>)
    requires b.requireDifferentPhoneModels && DistinctKeys(buckets) && Choose(b, size, buckets).Some?
    ensures TopKeys(buckets, KeysOf(Choose(b, size, buckets).value), size)
  {
    var picks := Choose(b, size, buckets).value;
    ChosenAreHeads(b, size, buckets);
    KeysOfCount(picks);
    forall x, y | x in KeysOf(picks) && y !in KeysOf(picks)
      ensures Outranks(|At(buckets, x)|, x, |At(buckets, y)|, y)
    {
      var p :| 0 <= p < |picks| && picks[p].key == x;
      PickedOutranks(b, size, buckets, p, y);
    }
    forall x | x in KeysOf(picks) ensures At(buckets, x) != [] {
      var p :| 0 <= p < |picks| && picks[p].key == x;
      assert HasHead(buckets, picks[p]);
      var i :| 0 <= i < |buckets| && buckets[i].key == x && buckets[i].units != [];
      AtIndex(buckets, i);
    }
  }

  lemma {:induction false} DropOneAt(buckets: seq<Bucket>, key: string, other: string)
    ensures At(DropFront(buckets, key, 1), other)
         == if other == key && At(buckets, key) != [] then At(buckets, key)[1..] else At(buckets, other)
  {
    if buckets != [] && buckets[0].key != key {
      DropOneAt(buckets[1..], key, other);
      assert DropFront(buckets, key, 1)[1..] == DropFront(buckets[1..], key, 1);
    } else if buckets != [] {
      assert DropFront(buckets, key, 1)[1..] == buckets[1..];
    }
  }

  lemma {:induction false} DropPicksAt(buckets: seq<Bucket>, picks: seq<Pick>, key: string)
    requires forall i, j :: 0 <= i < j < |picks| ==> picks[i].key != picks[j].key
    ensures At(DropPicks(buckets, picks), key)
         == if key in KeysOf(picks) && At(buckets, key) != [] then At(buckets, key)[1..] else At(buckets, key)
    decreases |picks|
  {
    if picks != [] {
      var rest := picks[1..];
      assert forall i :: 0 <= i < |rest| ==> rest[i] == picks[i + 1];
      DropOneAt(buckets, picks[0].key, key);
      DropPicksAt(DropFront(buckets, picks[0].key, 1), rest, key);
      assert KeysOf(picks) == {picks[0].key} + KeysOf(rest);
      assert picks[0].key !in KeysOf(rest);
    }
  }

  /** A round of the computation takes one unit from each of the top keys. */
  lemma {:induction false} RoundByKeys(b: Bundle, size: nat, buckets: seq<Bucket>)
    requires b.requireDifferentPhoneModels && DistinctKeys(buckets) && size > 0 && Choose(b, size, buckets).Some?
    ensures var picks := Choose(b, size, buckets).value;
      && picks != [] && TopKeys(buckets, KeysOf(picks), size)
      && RoundTaken(buckets, AfterRound(b, size, buckets, picks), KeysOf(picks))
      && DistinctKeys(AfterRound(b, size, buckets, picks))
  {
    var picks := Choose(b, size, buckets).value;
    ChosenAreHeads(b, size, buckets);
    ChosenAreTop(b, size, buckets);
    DropPicksSplits(buckets, picks);
    forall key
      ensures At(AfterRound(b, size, buckets, picks), key)
           == if key in KeysOf(picks) && At(buckets, key) != [] then At(buckets, key)[1..] else At(buckets, key)
    {
      DropPicksAt(buckets, picks, key);
    }
  }

  // ------------------------------------------------------------ two carts in step

  /** The second cart is one unit ahead under the keys in `ahead`, and level under all others. */
  ghost predicate Ahead(x: seq<Bucket>, y: seq<Bucket>, ahead: set<string>) {
    forall key :: |At(y, key)| == |At(x, key)| + if key in ahead then 1 else 0
  }

  lemma {:induction false} SubsetIsSmaller<T>(a: set<T>, b: set<T>)
    requires a <= b
    ensures |a| <= |b|
  {
    assert b == a + (b - a);
  }

  lemma {:induction false} OtherMember<T>(s: set<T>, t: set<T>, x: T) returns (y: T)
    requires |s| == |t| && x in s && x !in t
    ensures y in t && y !in s
  {
    if t <= s {
      SubsetIsSmaller(t, s - {x});
      assert false;
    }
    y :| y in t && y !in s;
  }

  /** A key the first cart takes and the second does not was level; it falls one unit ahead. */
  lemma {:induction false} PassedOverWasLevel(x: seq<Bucket>, y: seq<Bucket>, ahead: set<string>, s: set<string>, t: set<string>,
                                              size: nat, key: string)
    requires Ahead(x, y, ahead) && TopKeys(x, s, size) && TopKeys(y, t, size) && key in s && key !in t
    ensures key !in ahead
  {
    var other := OtherMember(s, t, key);
    assert Outranks(|At(x, key)|, key, |At(x, other)|, other);
    assert Outranks(|At(y, other)|, other, |At(y, key)|, key);
    KeyLessIsStrict(key, other);
  }

  /** A key only the second cart takes was one unit ahead; it falls level. */
  lemma {:induction false} TakenAloneWasAhead(x: seq<Bucket>, y: seq<Bucket>, ahead: set<string>, s: set<string>, t: set<string>,
                                              size: nat, key: string)
    requires Ahead(x, y, ahead) && TopKeys(x, s, size) && TopKeys(y, t, size) && key in t && key !in s
    ensures key in ahead
  {
    var other := OtherMember(t, s, key);
    assert Outranks(|At(x, other)|, other, |At(x, key)|, key);
    assert Outranks(|At(y, key)|, key, |At(y, other)|, other);
    KeyLessIsStrict(key, other);
  }

  function NowAhead(ahead: set<string>, s: set<string>, t: set<string>): set<string> { (ahead - (t - s)) + (s - t) }

  lemma {:induction false} ExchangeKeepsCount(ahead: set<string>, s: set<string>, t: set<string>)
    requires |s| == |t| && t - s <= ahead && (s - t) !! ahead
    ensures |NowAhead(ahead, s, t)| == |ahead|
  {
    assert s == (s - t) + (s * t) && t == (t - s) + (s * t);
    assert |s - t| == |t - s|;
    assert ahead == (ahead - (t - s)) + (t - s);
  }

  /** One round in each cart: the second stays at most one unit ahead, under as many keys as before. */
  lemma {:induction false} RoundsKeepStep(x: seq<Bucket>, y: seq<Bucket>, ahead: set<string>, s: set<string>, t: set<string>, size: nat,
                                          x': seq<Bucket>, y': seq<Bucket>)
    requires Ahead(x, y, ahead) && TopKeys(x, s, size) && TopKeys(y, t, size)
    requires RoundTaken(x, x', s) && RoundTaken(y, y', t)
    ensures Ahead(x', y', NowAhead(ahead, s, t)) && |NowAhead(ahead, s, t)| == |ahead|
  {
    forall key | key in s && key !in t ensures key !in ahead {
      PassedOverWasLevel(x, y, ahead, s, t, size, key);
    }
    forall key | key in t && key !in s ensures key in ahead {
      TakenAloneWasAhead(x, y, ahead, s, t, size, key);
    }
    ExchangeKeepsCount(ahead, s, t);
  }
}

/** How good the greedy grouping is: the largest possible number of different-model groups,
    and the largest possible saving for an any-models bundle. */
module BundleOptimality {
  import opened Options
  import opened Sums
  import opened DiscountAllocation
  import opened BundlePricing
  import opened BundleGrouping

  // ------------------------------------------------------------ capacity of the buckets

  /** What a bucket can give to `m` groups of different models: at most one unit a group. */
  function Capped(m: int): Bucket -> int {
    (x: Bucket) => Min(|x.units|, m)
  }

  function Capacity(buckets: seq<Bucket>, m: int): int { SumBy(buckets, Capped(m)) }

  function WithKey(b: Bundle, key: string): Unit -> int {
    (u: Unit) => if KeyOf(b, u) == key then 1 else 0
  }

  function KeyIs(key: string): Bucket -> int {
    (x: Bucket) => if x.key == key then 1 else 0
  }

  /** How many of these units come from the bucket. */
  function UsesIn(b: Bundle, units: seq<Unit>): Bucket -> int {
    (x: Bucket) => SumBy(units, WithKey(b, x.key))
  }

  lemma {:induction false} KeyOccursOnce(buckets: seq<Bucket>, key: string)
    requires DistinctKeys(buckets)
    ensures SumBy(buckets, KeyIs(key)) == if HasKey(buckets, key) then 1 else 0
  {
    if buckets != [] {
      var rest := buckets[1..];
      assert forall i :: 0 <= i < |rest| ==> rest[i] == buckets[i + 1];
      KeyOccursOnce(rest, key);
      if HasKey(rest, key) {
        var i :| 0 <= i < |rest| && rest[i].key == key;
        assert buckets[i + 1].key == key;
      }
      if buckets[0].key != key && HasKey(buckets, key) {
        var i :| 0 <= i < |buckets| && buckets[i].key == key;
        assert rest[i - 1].key == key;
      }
    }
  }

  /** Every unit is counted in exactly one bucket. */
  lemma {:induction false} UsesCoverUnits(b: Bundle, buckets: seq<Bucket>, units: seq<Unit>)
    requires DistinctKeys(buckets)
    requires forall u :: u in units ==> HasKey(buckets, KeyOf(b, u))
    ensures SumBy(buckets, UsesIn(b, units)) == |units|
  {
    if units == [] {
      SumZero(buckets, UsesIn(b, units));
    } else {
      UsesCoverUnits(b, buckets, units[1..]);
      assert units[0] in units;
      KeyOccursOnce(buckets, KeyOf(b, units[0]));
      SumAdd(buckets, KeyIs(KeyOf(b, units[0])), UsesIn(b, units[1..]), UsesIn(b, units));
    }
  }

  lemma {:induction false} KeyCountInBuckets(b: Bundle, buckets: seq<Bucket>, i: nat)
    requires Keyed(b, buckets) && DistinctKeys(buckets) && i < |buckets|
    ensures SumBy(AllUnits(buckets), WithKey(b, buckets[i].key)) == |buckets[i].units|
  {
    var key := buckets[i].key;
    var rest := buckets[1..];
    assert forall j :: 0 <= j < |rest| ==> rest[j] == buckets[j + 1];
    SumConcat(buckets[0].units, AllUnits(rest), WithKey(b, key));
    if i == 0 {
      SumConstant(buckets[0].units, 1, WithKey(b, key));
      KeyAbsent(b, rest, key);
    } else {
      SumZero(buckets[0].units, WithKey(b, key));
      KeyCountInBuckets(b, rest, i - 1);
    }
  }

  lemma {:induction false} KeyAbsent(b: Bundle, buckets: seq<Bucket>, key: string)
    requires Keyed(b, buckets) && forall j :: 0 <= j < |buckets| ==> buckets[j].key != key
    ensures SumBy(AllUnits(buckets), WithKey(b, key)) == 0
  {
    if buckets != [] {
      var rest := buckets[1..];
      assert forall j :: 0 <= j < |rest| ==> rest[j] == buckets[j + 1];
      KeyAbsent(b, rest, key);
      SumZero(buckets[0].units, WithKey(b, key));
      SumConcat(buckets[0].units, AllUnits(rest), WithKey(b, key));
    }
  }

  lemma {:induction false} GroupUsesKeyOnce(b: Bundle, group: seq<Unit>, key: string)
    requires b.requireDifferentPhoneModels && ModelsDiffer(b, group)
    ensures SumBy(group, WithKey(b, key)) <= 1
  {
    if group != [] {
      var rest := group[1..];
      assert forall i :: 0 <= i < |rest| ==> rest[i] == group[i + 1];
      GroupUsesKeyOnce(b, rest, key);
      if KeyOf(b, group[0]) == key {
        forall u | u in rest ensures KeyOf(b, u) != key {
          var i :| 0 <= i < |rest| && rest[i] == u;
          assert KeyOf(b, group[0]) != KeyOf(b, group[i + 1]);
        }
        SumZero(rest, WithKey(b, key));
      }
    }
  }

  lemma {:induction false} GroupsUseKey(b: Bundle, size: nat, groups: seq<seq<Unit>>, key: string)
    requires b.requireDifferentPhoneModels && forall g :: g in groups ==> CompleteGroup(b, size, g)
    ensures SumBy(Flatten(groups), WithKey(b, key)) <= |groups|
  {
    if groups != [] {
      assert groups[0] in groups;
      GroupUsesKeyOnce(b, groups[0], key);
      GroupsUseKey(b, size, groups[1..], key);
      SumConcat(groups[0], Flatten(groups[1..]), WithKey(b, key));
    }
  }

  lemma {:induction false} GroupsOfSize(b: Bundle, size: nat, groups: seq<seq<Unit>>)
    requires forall g :: g in groups ==> CompleteGroup(b, size, g)
    ensures |Flatten(groups)| == size * |groups|
  {
    if groups != [] {
      assert groups[0] in groups;
      GroupsOfSize(b, size, groups[1..]);
      OneMoreFactor(size, |groups|, |groups[1..]|);
    }
  }

  lemma {:induction false} UnitHasBucket(b: Bundle, buckets: seq<Bucket>, u: Unit)
    requires Keyed(b, buckets) && u in AllUnits(buckets)
    ensures HasKey(buckets, KeyOf(b, u))
  {
    if u in buckets[0].units {
      assert buckets[0].key == KeyOf(b, u);
    } else {
      var rest := buckets[1..];
      assert forall j :: 0 <= j < |rest| ==> rest[j] == buckets[j + 1];
      UnitHasBucket(b, rest, u);
      var i :| 0 <= i < |rest| && rest[i].key == KeyOf(b, u);
      assert buckets[i + 1].key == KeyOf(b, u);
    }
  }

  /** Any `m` disjoint groups of different models need capacity `size * m`. */
  lemma {:induction false} GroupingNeedsCapacity(b: Bundle, size: nat, buckets: seq<Bucket>, groups: seq<seq<Unit>>)
    requires b.requireDifferentPhoneModels && Keyed(b, buckets) && DistinctKeys(buckets)
    requires Grouping(b, size, AllUnits(buckets), groups)
    ensures Capacity(buckets, |groups|) >= size * |groups|
  {
    var flat := Flatten(groups);
    var m := |groups|;
    forall x | x in buckets ensures UsesIn(b, flat)(x) <= Capped(m)(x) {
      var i :| 0 <= i < |buckets| && buckets[i] == x;
      KeyCountInBuckets(b, buckets, i);
      SumIncluded(flat, AllUnits(buckets), WithKey(b, x.key));
      GroupsUseKey(b, size, groups, x.key);
    }
    forall u | u in flat ensures HasKey(buckets, KeyOf(b, u)) {
      assert u in multiset(flat) && u in multiset(AllUnits(buckets));
      UnitHasBucket(b, buckets, u);
    }
    SumMonotone(buckets, UsesIn(b, flat), Capped(m));
    UsesCoverUnits(b, buckets, flat);
    GroupsOfSize(b, size, groups);
  }

  // ------------------------------------------------------------ one greedy round

  function Filled(): Bucket -> int { (x: Bucket) => if x.units != [] then 1 else 0 }

  function FilledTimes(m: int): Bucket -> int { (x: Bucket) => if x.units != [] then m else 0 }

  lemma {:induction false} FilledCount(buckets: seq<Bucket>)
    ensures SumBy(buckets, Filled()) == |NonEmpty(buckets)|
  {
    if buckets != [] {
      FilledCount(buckets[1..]);
    }
  }

  lemma {:induction false} CapacityNeedsBuckets(buckets: seq<Bucket>, m: nat)
    ensures Capacity(buckets, m) <= m * |NonEmpty(buckets)|
  {
    forall x | x in buckets ensures Capped(m)(x) <= FilledTimes(m)(x) {
    }
    SumMonotone(buckets, Capped(m), FilledTimes(m));
    SumScaled(buckets, m, Filled(), FilledTimes(m));
    FilledCount(buckets);
  }

  ghost predicate SizesDescend(s: seq<Bucket>) {
    forall i, j :: 0 <= i < j < |s| ==> |s[i].units| >= |s[j].units|
  }

  lemma {:induction false} HeadKeepsDescending(head: Bucket, tail: seq<Bucket>)
    requires SizesDescend(tail) && forall y :: y in tail ==> |head.units| >= |y.units|
    ensures SizesDescend([head] + tail)
  {
    var r := [head] + tail;
    forall i, j | 0 <= i < j < |r| ensures |r[i].units| >= |r[j].units| {
      assert r[j] == tail[j - 1] && r[j] in tail;
      if i > 0 {
        assert r[i] == tail[i - 1];
      }
    }
  }

  lemma {:induction false} InsertKeepsSizesDescending(x: Bucket, ranked: seq<Bucket>)
    requires SizesDescend(ranked)
    ensures SizesDescend(InsertByRank(x, ranked))
  {
    if ranked == [] || !RanksBefore(ranked[0], x) {
      HeadKeepsDescending(x, ranked);
    } else {
      var rest := ranked[1..];
      assert forall i :: 0 <= i < |rest| ==> rest[i] == ranked[i + 1];
      InsertKeepsSizesDescending(x, rest);
      var inner := InsertByRank(x, rest);
      forall y | y in inner ensures |ranked[0].units| >= |y.units| {
        assert y in multiset(inner);
        if y != x {
          assert y in multiset(rest);
          var i :| 0 <= i < |rest| && rest[i] == y;
          assert ranked[i + 1] == y;
        }
      }
      HeadKeepsDescending(ranked[0], inner);
    }
  }

  /** Ranking puts the largest buckets first. */
  lemma {:induction false} RankedDescending(buckets: seq<Bucket>)
    ensures SizesDescend(Ranked(buckets))
  {
    if buckets != [] {
      RankedDescending(buckets[1..]);
      InsertKeepsSizesDescending(buckets[0], Ranked(buckets[1..]));
    }
  }

  ghost predicate PickedKey(picks: seq<Pick>, key: string) {
    exists i :: 0 <= i < |picks| && picks[i].key == key
  }

  ghost function Picked(picks: seq<Pick>): Bucket -> int {
    (x: Bucket) => if PickedKey(picks, x.key) then 1 else 0
  }

  lemma {:induction false} PickedKeyHead(picks: seq<Pick>, key: string)
    requires picks != []
    ensures PickedKey(picks, key) <==> picks[0].key == key || PickedKey(picks[1..], key)
  {
    if PickedKey(picks, key) && picks[0].key != key {
      var i :| 0 <= i < |picks| && picks[i].key == key;
      assert picks[1..][i - 1].key == key;
    }
    if PickedKey(picks[1..], key) {
      var i :| 0 <= i < |picks[1..]| && picks[1..][i].key == key;
      assert picks[i + 1].key == key;
    }
  }

  /** A round shortens exactly the picked buckets, each by one unit. */
  lemma {:induction false} DropPicksShortens(buckets: seq<Bucket>, picks: seq<Pick>, j: nat)
    requires DistinctKeys(buckets) && PicksAreHeads(buckets, picks) && j < |buckets|
    ensures |DropPicks(buckets, picks)| == |buckets|
    ensures |DropPicks(buckets, picks)[j].units|
         == |buckets[j].units| - if PickedKey(picks, buckets[j].key) then 1 else 0
    decreases |picks|
  {
    if picks != [] {
      assert HasHead(buckets, picks[0]);
      var i :| 0 <= i < |buckets| && buckets[i].key == picks[0].key && buckets[i].units != []
            && buckets[i].units[0] == picks[0].unit;
      DropFrontSplits(buckets, i, 1);
      FirstPickSplits(buckets, picks);
      PickedKeyHead(picks, buckets[j].key);
      DropPicksShortens(DropFront(buckets, picks[0].key, 1), picks[1..], j);
      if j == i {
        forall k | 0 <= k < |picks[1..]| ensures picks[1..][k].key != picks[0].key {
          assert picks[1..][k] == picks[k + 1];
        }
        assert !PickedKey(picks[1..], buckets[j].key);
      } else {
        assert !(i < j && buckets[i].key == buckets[j].key) && !(j < i && buckets[i].key == buckets[j].key);
      }
    }
  }

  lemma {:induction false} PickedCount(buckets: seq<Bucket>, picks: seq<Pick>)
    requires DistinctKeys(buckets) && PicksAreHeads(buckets, picks)
    ensures SumBy(buckets, Picked(picks)) == |picks|
    decreases |picks|
  {
    if picks == [] {
      SumZero(buckets, Picked(picks));
    } else {
      assert forall p :: p in picks[1..] ==> p in picks;
      PickedCount(buckets, picks[1..]);
      KeyOccursOnce(buckets, picks[0].key);
      assert HasHead(buckets, picks[0]);
      forall k | 0 <= k < |picks[1..]| ensures picks[1..][k].key != picks[0].key {
        assert picks[1..][k] == picks[k + 1];
      }
      forall x | x in buckets ensures Picked(picks)(x) == KeyIs(picks[0].key)(x) + Picked(picks[1..])(x) {
        PickedKeyHead(picks, x.key);
      }
      SumAdd(buckets, KeyIs(picks[0].key), Picked(picks[1..]), Picked(picks));
    }
  }

  lemma {:induction false} ChosenFollowRanking(b: Bundle, size: nat, buckets: seq<Bucket>)
    requires b.requireDifferentPhoneModels && Choose(b, size, buckets).Some?
    ensures size <= |Ranked(NonEmpty(buckets))|
    ensures |Choose(b, size, buckets).value| == size
    ensures forall p :: 0 <= p < size ==> Choose(b, size, buckets).value[p].key == Ranked(NonEmpty(buckets))[p].key
  {
    var nonEmpty := NonEmpty(buckets);
    assert |multiset(Ranked(nonEmpty))| == |multiset(nonEmpty)|;
  }

  lemma {:induction false} KeyDeterminesBucket(buckets: seq<Bucket>, i: nat, x: Bucket)
    requires DistinctKeys(buckets) && i < |buckets| && x in buckets && x.key == buckets[i].key
    ensures x == buckets[i]
  {
    var k :| 0 <= k < |buckets| && buckets[k] == x;
    assert !(k < i) && !(i < k);
  }

  /** No bucket passed over is larger than a picked one. */
  lemma {:induction false} PickedAreLargest(b: Bundle, size: nat, buckets: seq<Bucket>, i: nat, j: nat)
    requires b.requireDifferentPhoneModels && DistinctKeys(buckets) && Choose(b, size, buckets).Some?
    requires i < |buckets| && j < |buckets|
    requires PickedKey(Choose(b, size, buckets).value, buckets[i].key)
    requires !PickedKey(Choose(b, size, buckets).value, buckets[j].key)
    ensures |buckets[i].units| >= |buckets[j].units|
  {
    if buckets[j].units != [] {
      var ranked := Ranked(NonEmpty(buckets));
      var picks := Choose(b, size, buckets).value;
      ChosenFollowRanking(b, size, buckets);
      RankedDescending(NonEmpty(buckets));
      NonEmptyKeeps(buckets, j);
      assert buckets[j] in multiset(NonEmpty(buckets));
      assert buckets[j] in multiset(ranked);
      var q :| 0 <= q < |ranked| && ranked[q] == buckets[j];
      var p :| 0 <= p < |picks| && picks[p].key == buckets[i].key;
      assert ranked[p] in multiset(NonEmpty(buckets));
      KeyDeterminesBucket(buckets, i, ranked[p]);
      forall k | 0 <= k < size ensures ranked[k] != buckets[j] {
        assert picks[k].key == ranked[k].key;
      }
      assert p < q;
    }
  }

  lemma {:induction false} NonEmptyKeeps(buckets: seq<Bucket>, j: nat)
    requires j < |buckets| && buckets[j].units != []
    ensures buckets[j] in NonEmpty(buckets)
  {
    if j > 0 {
      assert buckets[1..][j - 1] == buckets[j];
      NonEmptyKeeps(buckets[1..], j - 1);
    }
  }

  ghost function UnpickedShare(m: int, picks: seq<Pick>): Bucket -> int {
    (x: Bucket) => Capped(m)(x) - Picked(picks)(x)
  }

  ghost function ScaledPick(c: int, picks: seq<Pick>): Bucket -> int {
    (x: Bucket) => c * Picked(picks)(x)
  }

  /** `rest` is `buckets` after the picks: one unit less in each picked bucket. */
  ghost predicate Shortened(buckets: seq<Bucket>, rest: seq<Bucket>, picks: seq<Pick>) {
    && |rest| == |buckets|
    && forall j :: 0 <= j < |buckets| ==> |rest[j].units| == |buckets[j].units| - Picked(picks)(buckets[j])
  }

  /** If every bucket that can serve all `m` groups was picked, each pick costs exactly one unit of capacity. */
  lemma {:induction false} CapacityWhenAllLargePicked(buckets: seq<Bucket>, rest: seq<Bucket>, picks: seq<Pick>,
                                                      m: nat, left: nat, size: nat)
    requires m == left + 1 && Shortened(buckets, rest, picks) && SumBy(buckets, Picked(picks)) == size
    requires forall j :: 0 <= j < |buckets| && |buckets[j].units| >= m ==> PickedKey(picks, buckets[j].key)
    ensures Capacity(rest, left) >= Capacity(buckets, m) - size
  {
    forall i | 0 <= i < |buckets|
      ensures Capped(left)(rest[i]) >= UnpickedShare(m, picks)(buckets[i])
    {
      assert |rest[i].units| == |buckets[i].units| - Picked(picks)(buckets[i]);
    }
    SumPointwiseAtLeast(rest, buckets, Capped(left), UnpickedShare(m, picks));
    SumAdd(buckets, UnpickedShare(m, picks), Picked(picks), Capped(m));
  }

  /** If all picked buckets could serve `m` groups, they alone can serve the other `left`. */
  lemma {:induction false} CapacityWhenPickedAreLarge(buckets: seq<Bucket>, rest: seq<Bucket>, picks: seq<Pick>,
                                                      m: nat, left: nat, size: nat)
    requires m == left + 1 && Shortened(buckets, rest, picks) && SumBy(buckets, Picked(picks)) == size
    requires forall j :: 0 <= j < |buckets| && PickedKey(picks, buckets[j].key) ==> |buckets[j].units| >= m
    ensures Capacity(rest, left) >= size * left
  {
    forall i | 0 <= i < |buckets|
      ensures Capped(left)(rest[i]) >= ScaledPick(left, picks)(buckets[i])
    {
      assert |rest[i].units| == |buckets[i].units| - Picked(picks)(buckets[i]);
    }
    SumPointwiseAtLeast(rest, buckets, Capped(left), ScaledPick(left, picks));
    SumScaled(buckets, left, Picked(picks), ScaledPick(left, picks));
  }

  lemma {:induction false} RoundShortens(b: Bundle, size: nat, buckets: seq<Bucket>)
    requires b.requireDifferentPhoneModels && DistinctKeys(buckets) && size > 0
    requires Choose(b, size, buckets).Some?
    ensures var picks := Choose(b, size, buckets).value;
            && picks != []
            && Shortened(buckets, AfterRound(b, size, buckets, picks), picks)
            && SumBy(buckets, Picked(picks)) == size
  {
    var picks := Choose(b, size, buckets).value;
    ChosenAreHeads(b, size, buckets);
    DropPicksSplits(buckets, picks);
    PickedCount(buckets, picks);
    forall j | 0 <= j < |buckets|
      ensures |DropPicks(buckets, picks)[j].units| == |buckets[j].units| - Picked(picks)(buckets[j])
    {
      DropPicksShortens(buckets, picks, j);
    }
  }

  /** Serving the largest buckets first leaves room for all the remaining groups. */
  lemma {:induction false} RoundKeepsCapacity(b: Bundle, size: nat, buckets: seq<Bucket>, m: nat, left: nat)
    requires b.requireDifferentPhoneModels && DistinctKeys(buckets) && size > 0 && m == left + 1
    requires Choose(b, size, buckets).Some?
    requires Capacity(buckets, m) >= size * m
    ensures Choose(b, size, buckets).value != []
    ensures Capacity(AfterRound(b, size, buckets, Choose(b, size, buckets).value), left) >= size * left
  {
    OneMoreFactor(size, m, left);
    var picks := Choose(b, size, buckets).value;
    RoundShortens(b, size, buckets);
    var rest := AfterRound(b, size, buckets, picks);
    if j :| 0 <= j < |buckets| && !PickedKey(picks, buckets[j].key) && |buckets[j].units| >= m {
      forall i | 0 <= i < |buckets| && PickedKey(picks, buckets[i].key) ensures |buckets[i].units| >= m {
        PickedAreLargest(b, size, buckets, i, j);
      }
      CapacityWhenPickedAreLarge(buckets, rest, picks, m, left, size);
    } else {
      CapacityWhenAllLargePicked(buckets, rest, picks, m, left, size);
    }
  }

  // ------------------------------------------------------------ the number of groups is maximal

  /** No complete group of these units would cost more than its units do. */
  ghost predicate NeverNegative(b: Bundle, size: nat, pool: multiset<Unit>) {
    forall g: seq<Unit> :: CompleteGroup(b, size, g) && multiset(g) <= pool ==> Discount(b, g) >= 0
  }

  lemma {:induction false} CapacityAllowsRound(b: Bundle, size: nat, buckets: seq<Bucket>, m: nat)
    requires b.requireDifferentPhoneModels && m > 0 && Capacity(buckets, m) >= size * m
    ensures Choose(b, size, buckets).Some?
  {
    CapacityNeedsBuckets(buckets, m);
    Cancel(size, |NonEmpty(buckets)|, m);
    assert size * m == m * size;
  }

  /** The rounds never meet a group that would cost more than its units, so only missing models end them. */
  ghost predicate Affordable(b: Bundle, size: nat, buckets: seq<Bucket>)
    requires WellBucketed(b, buckets) && size > 0
    decreases |AllUnits(buckets)|
  {
    match Choose(b, size, buckets)
    case None => true
    case Some(picks) =>
      RoundSplits(b, size, buckets);
      Discount(b, PickedUnits(picks)) >= 0 && Affordable(b, size, AfterRound(b, size, buckets, picks))
  }

  /** That is so whenever no complete group of the units loses money. */
  lemma {:induction false} NeverNegativeIsAffordable(b: Bundle, size: nat, buckets: seq<Bucket>)
    requires size > 0 && WellBucketed(b, buckets) && Keyed(b, buckets)
    requires NeverNegative(b, size, multiset(AllUnits(buckets)))
    ensures Affordable(b, size, buckets)
    decreases |AllUnits(buckets)|
  {
    var choice := Choose(b, size, buckets);
    if choice.Some? {
      RoundSplits(b, size, buckets);
      PickedGroupComplete(b, size, buckets);
      AfterRoundKeyed(b, size, buckets, choice.value);
      assert multiset(PickedUnits(choice.value)) <= multiset(AllUnits(buckets));
      NeverNegativeIsAffordable(b, size, AfterRound(b, size, buckets, choice.value));
    }
  }

  lemma {:induction false} RoundIsTaken(b: Bundle, size: nat, buckets: seq<Bucket>, formedAny: bool)
    requires b.isRepeatable && size > 0 && WellBucketed(b, buckets) && Affordable(b, size, buckets)
    requires Choose(b, size, buckets).Some?
    ensures var picks := Choose(b, size, buckets).value;
            && NextGroup(b, size, buckets, formedAny) == Some(picks)
            && picks != []
            && WellBucketed(b, AfterRound(b, size, buckets, picks))
            && Affordable(b, size, AfterRound(b, size, buckets, picks))
  {
    RoundSplits(b, size, buckets);
  }

  /** Capacity beyond what `m` groups need. */
  function Spare(size: nat, buckets: seq<Bucket>, m: int): int {
    Capacity(buckets, m) - size * m
  }

  lemma {:induction false} RoundLeavesRoom(b: Bundle, size: nat, buckets: seq<Bucket>, formedAny: bool, m: nat, left: nat)
    returns (rest: seq<Bucket>)
    requires b.isRepeatable && b.requireDifferentPhoneModels && size > 0 && m == left + 1
    requires WellBucketed(b, buckets) && Affordable(b, size, buckets)
    requires Spare(size, buckets, m) >= 0
    ensures WellBucketed(b, rest) && Affordable(b, size, rest)
    ensures Spare(size, rest, left) >= 0
    ensures |FormGroups(b, size, buckets, formedAny)| == 1 + |FormGroups(b, size, rest, true)|
  {
    CapacityAllowsRound(b, size, buckets, m);
    RoundIsTaken(b, size, buckets, formedAny);
    NextGroupShrinks(b, size, buckets, formedAny);
    var picks := Choose(b, size, buckets).value;
    RoundKeepsCapacity(b, size, buckets, m, left);
    rest := AfterRound(b, size, buckets, picks);
  }

  lemma {:induction false} EnoughCapacityEnoughGroups(b: Bundle, size: nat, buckets: seq<Bucket>, formedAny: bool, m: nat)
    requires b.isRepeatable && b.requireDifferentPhoneModels && size > 0
    requires WellBucketed(b, buckets) && Affordable(b, size, buckets)
    requires Spare(size, buckets, m) >= 0
    ensures |FormGroups(b, size, buckets, formedAny)| >= m
    decreases m
  {
    if m > 0 {
      var left := m - 1;
      var rest := RoundLeavesRoom(b, size, buckets, formedAny, m, left);
      EnoughCapacityEnoughGroups(b, size, rest, true, left);
    }
  }

  lemma {:induction false} FewerGroupsStillDisjoint(b: Bundle, size: nat, units: seq<Unit>, groups: seq<seq<Unit>>, m: nat)
    requires Grouping(b, size, units, groups) && m <= |groups|
    ensures Grouping(b, size, units, groups[..m])
  {
    assert groups == groups[..m] + groups[m..];
    FlattenConcat(groups[..m], groups[m..]);
  }

  /** A repeatable different-models bundle forms `m` groups exactly when the buckets, each capped
      at one unit a group, hold `size * m` units. */
  lemma {:induction false} GroupCountByCapacity(b: Bundle, units: seq<Unit>, m: nat)
    requires SizeOf(b) >= 2 && b.isRepeatable && b.requireDifferentPhoneModels
    requires Affordable(b, SizeOf(b), Buckets(b, units))
    ensures |Groups(b, units)| >= m <==> Capacity(Buckets(b, units), m) >= SizeOf(b) * m
  {
    var buckets := Buckets(b, units);
    BucketsHoldTheUnits(b, units);
    if Capacity(buckets, m) >= SizeOf(b) * m {
      EnoughCapacityEnoughGroups(b, SizeOf(b), buckets, false, m);
    }
    if |Groups(b, units)| >= m {
      FormedGroupsAreDisjoint(b, SizeOf(b), buckets, false);
      FewerGroupsStillDisjoint(b, SizeOf(b), AllUnits(buckets), Groups(b, units), m);
      GroupingNeedsCapacity(b, SizeOf(b), buckets, Groups(b, units)[..m]);
    }
  }

  /** While the rounds stay affordable, no way of forming disjoint groups of different models yields more
      groups than the greedy one. */
  lemma {:induction false} MostAffordableGroups(b: Bundle, units: seq<Unit>, others: seq<seq<Unit>>)
    requires SizeOf(b) >= 2 && b.isRepeatable && b.requireDifferentPhoneModels
    requires Affordable(b, SizeOf(b), Buckets(b, units))
    requires Grouping(b, SizeOf(b), units, others)
    ensures |others| <= |Groups(b, units)|
  {
    BucketsHoldTheUnits(b, units);
    GroupingNeedsCapacity(b, SizeOf(b), Buckets(b, units), others);
    GroupCountByCapacity(b, units, |others|);
  }

  /** When no candidate group loses money, no way of forming disjoint groups of different models yields more
      groups than the greedy one. */
  lemma {:induction false} MostGroupsOfDifferentModels(b: Bundle, units: seq<Unit>, others: seq<seq<Unit>>)
    requires SizeOf(b) >= 2 && b.isRepeatable && b.requireDifferentPhoneModels
    requires NeverNegative(b, SizeOf(b), multiset(units))
    requires Grouping(b, SizeOf(b), units, others)
    ensures Grouping(b, SizeOf(b), units, Groups(b, units))
    ensures |others| <= |Groups(b, units)|
  {
    BucketsHoldTheUnits(b, units);
    GroupsAreDisjoint(b, units);
    NeverNegativeIsAffordable(b, SizeOf(b), Buckets(b, units));
    MostAffordableGroups(b, units, others);
  }

  // ------------------------------------------------------------ any models: dearest first

  ghost predicate Descending(units: seq<Unit>) {
    forall i, j :: 0 <= i < j < |units| ==> units[i].price >= units[j].price
  }

  lemma {:induction false} InsertKeepsDescending(u: Unit, sorted: seq<Unit>)
    requires Descending(sorted)
    ensures Descending(InsertByPrice(u, sorted))
  {
    if sorted != [] && u.price < sorted[0].price {
      var rest := sorted[1..];
      assert forall i :: 0 <= i < |rest| ==> rest[i] == sorted[i + 1];
      InsertKeepsDescending(u, rest);
      InsertPermutes(u, rest);
      var inner := InsertByPrice(u, rest);
      var r := InsertByPrice(u, sorted);
      assert forall i :: 0 < i < |r| ==> r[i] == inner[i - 1];
      forall y | y in inner ensures sorted[0].price >= y.price {
        assert y in multiset(inner);
        if y != u {
          assert y in multiset(rest);
          var i :| 0 <= i < |rest| && rest[i] == y;
          assert sorted[i + 1] == y;
        }
      }
    }
  }

  lemma {:induction false} SortDescends(units: seq<Unit>)
    ensures Descending(DearestFirst(units))
  {
    if units != [] {
      SortDescends(units[1..]);
      InsertKeepsDescending(units[0], DearestFirst(units[1..]));
    }
  }

  lemma {:induction false} OneBucketForAll(b: Bundle, units: seq<Unit>)
    requires !b.requireDifferentPhoneModels && units != []
    ensures Bucketed(b, units) == [Bucket("__all__", units)]
  {
    var n := |units| - 1;
    assert units == units[..n] + [units[n]];
    if n > 0 {
      OneBucketForAll(b, units[..n]);
    } else {
      assert units[..n] == [];
    }
  }

  lemma {:induction false} SortedBucketForAll(b: Bundle, units: seq<Unit>)
    requires !b.requireDifferentPhoneModels && units != []
    ensures Buckets(b, units) == [Bucket("__all__", DearestFirst(units))]
  {
    OneBucketForAll(b, units);
  }

  function Above(t: int): Unit -> int { (u: Unit) => u.price - t }

  function ExcessOver(t: int): Unit -> int { (u: Unit) => if u.price > t then u.price - t else 0 }

  lemma {:induction false} SumAbove(units: seq<Unit>, t: int)
    ensures SumBy(units, Above(t)) == Subtotal(units) - t * |units|
  {
    if units != [] {
      SumAbove(units[1..], t);
    }
  }

  lemma {:induction false} IncludedIsNoLonger<T>(a: seq<T>, b: seq<T>)
    requires multiset(a) <= multiset(b)
    ensures |a| <= |b|
  {
    assert multiset(b) == multiset(a) + (multiset(b) - multiset(a));
    assert |multiset(b)| == |multiset(a)| + |multiset(b) - multiset(a)|;
  }

  lemma {:induction false} ExcessInFront(sorted: seq<Unit>, n: nat)
    requires Descending(sorted) && 0 < n <= |sorted|
    ensures var t := sorted[n - 1].price; SumBy(sorted, ExcessOver(t)) == SumBy(sorted[..n], Above(t))
  {
    var t := sorted[n - 1].price;
    SumSplit(sorted, n, ExcessOver(t));
    forall u | u in sorted[n..] ensures ExcessOver(t)(u) == 0 {
      var i :| 0 <= i < |sorted[n..]| && sorted[n..][i] == u;
      assert sorted[n + i] == u;
    }
    SumZero(sorted[n..], ExcessOver(t));
    forall u | u in sorted[..n] ensures Above(t)(u) == ExcessOver(t)(u) {
      var i :| 0 <= i < n && sorted[i] == u;
    }
    SumEqual(sorted[..n], Above(t), ExcessOver(t));
  }

  /** No `n` of the units are worth more than the `n` dearest. */
  lemma {:induction false} DearestAreWorthMost(chosen: seq<Unit>, sorted: seq<Unit>)
    requires Descending(sorted) && multiset(chosen) <= multiset(sorted)
    ensures |chosen| <= |sorted|
    ensures Subtotal(chosen) <= Subtotal(sorted[..|chosen|])
  {
    IncludedIsNoLonger(chosen, sorted);
    var n := |chosen|;
    if n > 0 {
      var t := sorted[n - 1].price;
      SumAbove(chosen, t);
      SumAbove(sorted[..n], t);
      SumMonotone(chosen, Above(t), ExcessOver(t));
      SumIncluded(chosen, sorted, ExcessOver(t));
      ExcessInFront(sorted, n);
    }
  }

  lemma {:induction false} LaterSliceIsCheaper(sorted: seq<Unit>, start: nat, size: nat)
    requires Descending(sorted) && start + size <= |sorted|
    ensures Subtotal(sorted[start..start + size]) <= Subtotal(sorted[..size])
  {
    forall i | 0 <= i < size ensures PriceOf(sorted[..size][i]) >= PriceOf(sorted[start..start + size][i]) {
      assert sorted[..size][i] == sorted[i] && sorted[start..start + size][i] == sorted[start + i];
    }
    SumPointwiseAtLeast(sorted[..size], sorted[start..start + size], PriceOf, PriceOf);
  }

  lemma {:induction false} SlicesNeverGrow(sorted: seq<Unit>, size: nat, n: nat)
    requires Descending(sorted) && n * size <= |sorted|
    requires n > 0 ==> size <= |sorted|
    ensures n > 0 ==> Subtotal(sorted[..n * size]) <= n * Subtotal(sorted[..size])
    decreases n
  {
    if n > 1 {
      var before := (n - 1) * size;
      assert n * size == before + size;
      SlicesNeverGrow(sorted, size, n - 1);
      LaterSliceIsCheaper(sorted, before, size);
      SumSplit(sorted[..n * size], before, PriceOf);
      assert sorted[..n * size][..before] == sorted[..before];
      assert sorted[..n * size][before..] == sorted[before..before + size];
    }
  }

  function DiscountFor(b: Bundle): seq<Unit> -> int { (g: seq<Unit>) => Discount(b, g) }

  function TotalDiscount(b: Bundle, groups: seq<seq<Unit>>): int { SumBy(groups, DiscountFor(b)) }

  ghost predicate NoSurcharges(units: seq<Unit>) {
    forall u :: u in units ==> u.surcharge == 0
  }

  /** With a single bucket the next group is its first `size` units, if they are worth it. */
  lemma {:induction false} NextFromBucket(b: Bundle, size: nat, bucket: Bucket, formedAny: bool)
    requires !b.requireDifferentPhoneModels && 0 < size <= |bucket.units|
    requires b.isRepeatable || !formedAny
    ensures var group := bucket.units[..size];
            var rest := Bucket(bucket.key, bucket.units[size..]);
            FormGroups(b, size, [bucket], formedAny)
            == if Discount(b, group) < 0 then [] else [group] + FormGroups(b, size, [rest], true)
  {
    var group := bucket.units[..size];
    var rest := Bucket(bucket.key, bucket.units[size..]);
    assert NonEmpty([bucket]) == [bucket];
    SumOne(bucket, UnitsIn);
    var picks := PicksFrom(bucket.key, group);
    assert Choose(b, size, [bucket]) == Some(picks);
    assert PickedUnits(picks) == group;
    assert AfterRound(b, size, [bucket], picks) == [rest];
  }

  lemma {:induction false} PlainDiscount(b: Bundle, group: seq<Unit>)
    requires NoSurcharges(group)
    ensures Discount(b, group) == Subtotal(group) - b.fixedTotal
  {
    SumZero(group, SurchargeOf);
  }

  lemma {:induction false} FirstGroupLosesAllLose(b: Bundle, size: nat, units: seq<Unit>, n: nat)
    requires Descending(units) && 0 < size && 0 < n && n * size <= |units| && size <= |units|
    requires Subtotal(units[..size]) < b.fixedTotal
    ensures Subtotal(units[..n * size]) - n * b.fixedTotal <= 0
  {
    SlicesNeverGrow(units, size, n);
    assert n * Subtotal(units[..size]) <= n * b.fixedTotal;
  }

  lemma {:induction false} PrefixSplits(units: seq<Unit>, size: nat, n: nat)
    requires 0 < n && n * size <= |units| && size <= |units|
    ensures (n - 1) * size <= |units[size..]|
    ensures Subtotal(units[..n * size]) == Subtotal(units[..size]) + Subtotal(units[size..][..(n - 1) * size])
  {
    OneMoreTimes(n, size);
    var prefix := units[..n * size];
    SumSplit(prefix, size, PriceOf);
    assert prefix[..size] == units[..size];
    assert prefix[size..] == units[size..][..(n - 1) * size];
  }

  lemma {:induction false} FirstGroupSaves(b: Bundle, size: nat, bucket: Bucket, formedAny: bool) returns (rest: Bucket)
    requires !b.requireDifferentPhoneModels && 0 < size <= |bucket.units|
    requires NoSurcharges(bucket.units) && (b.isRepeatable || !formedAny)
    ensures rest.units == bucket.units[size..]
    ensures var first := Subtotal(bucket.units[..size]) - b.fixedTotal;
            TotalDiscount(b, FormGroups(b, size, [bucket], formedAny))
            == if first < 0 then 0 else first + TotalDiscount(b, FormGroups(b, size, [rest], true))
  {
    rest := Bucket(bucket.key, bucket.units[size..]);
    NextFromBucket(b, size, bucket, formedAny);
    PlainDiscount(b, bucket.units[..size]);
    var later := FormGroups(b, size, [rest], true);
    assert ([bucket.units[..size]] + later)[1..] == later;
  }

  /** The best `n` groups, cut from the dearest end, save no more than the greedy grouping. */
  lemma {:induction false} PrefixGroupsSaveNoMore(b: Bundle, size: nat, bucket: Bucket, formedAny: bool, n: nat)
    requires !b.requireDifferentPhoneModels && size > 0
    requires Descending(bucket.units) && NoSurcharges(bucket.units)
    requires n * size <= |bucket.units|
    requires b.isRepeatable || n <= if formedAny then 0 else 1
    ensures Subtotal(bucket.units[..n * size]) - n * b.fixedTotal
         <= TotalDiscount(b, FormGroups(b, size, [bucket], formedAny))
    decreases n
  {
    if n == 0 {
      GroupsNeverNegative(b, size, [bucket], formedAny);
      SumNonNegative(FormGroups(b, size, [bucket], formedAny), DiscountFor(b));
    } else {
      OneMoreTimes(n, size);
      OneMoreTimes(n, b.fixedTotal);
      var rest := FirstGroupSaves(b, size, bucket, formedAny);
      if Subtotal(bucket.units[..size]) < b.fixedTotal {
        FirstGroupLosesAllLose(b, size, bucket.units, n);
      } else {
        PrefixSplits(bucket.units, size, n);
        PrefixGroupsSaveNoMore(b, size, rest, true, n - 1);
      }
    }
  }

  lemma {:induction false} GroupsNeverNegative(b: Bundle, size: nat, buckets: seq<Bucket>, formedAny: bool)
    requires WellBucketed(b, buckets) && size > 0
    ensures forall g :: g in FormGroups(b, size, buckets, formedAny) ==> Discount(b, g) >= 0
    decreases |AllUnits(buckets)|
  {
    var next := NextGroup(b, size, buckets, formedAny);
    if next.Some? {
      NextGroupShrinks(b, size, buckets, formedAny);
      GroupsNeverNegative(b, size, AfterRound(b, size, buckets, next.value), true);
    }
  }

  lemma {:induction false} GroupingSaves(b: Bundle, size: nat, groups: seq<seq<Unit>>)
    requires forall g :: g in groups ==> |g| == size
    requires NoSurcharges(Flatten(groups))
    ensures |Flatten(groups)| == |groups| * size
    ensures TotalDiscount(b, groups) == Subtotal(Flatten(groups)) - |groups| * b.fixedTotal
  {
    if groups != [] {
      var rest := Flatten(groups[1..]);
      assert Flatten(groups) == groups[0] + rest;
      assert forall u :: u in groups[0] ==> u in Flatten(groups);
      assert forall u :: u in rest ==> u in Flatten(groups);
      GroupingSaves(b, size, groups[1..]);
      PlainDiscount(b, groups[0]);
      SumConcat(groups[0], rest, PriceOf);
      OneMoreTimes(|groups|, size);
      OneMoreTimes(|groups|, b.fixedTotal);
      assert groups[0] in groups;
    }
  }

  /** For one any-models bundle without surcharges, no choice of disjoint groups (at most one of
      them when the bundle is not repeatable) saves more than the dearest-first grouping. */
  lemma {:induction false} DearestFirstSavesMost(b: Bundle, units: seq<Unit>, others: seq<seq<Unit>>)
    requires SizeOf(b) >= 2 && !b.requireDifferentPhoneModels && NoSurcharges(units)
    requires Grouping(b, SizeOf(b), units, others)
    requires !b.isRepeatable ==> |others| <= 1
    ensures Grouping(b, SizeOf(b), units, Groups(b, units))
    ensures TotalDiscount(b, others) <= TotalDiscount(b, Groups(b, units))
  {
    var flat := Flatten(others);
    forall u | u in flat ensures u.surcharge == 0 {
      assert u in multiset(flat) && u in multiset(units);
    }
    GroupingSaves(b, SizeOf(b), others);
    GroupsAreDisjoint(b, units);
    if units == [] {
      assert |multiset(flat)| <= |multiset(units)|;
      assert flat == [];
      NoUnitsNoGroups(b);
    } else {
      var sorted := DearestFirst(units);
      SortDescends(units);
      SortPermutes(units);
      SortedBucketForAll(b, units);
      DearestAreWorthMost(flat, sorted);
      assert forall u :: u in sorted ==> u in multiset(sorted) && u in multiset(units);
      PrefixGroupsSaveNoMore(b, SizeOf(b), Bucket("__all__", sorted), false, |others|);
    }
  }
}

/** What the grouping guarantees for every cart and every list of bundles: no unit is claimed
    twice, every instance is complete, and its discount is exact and bounded unit by unit. */
module BundleGrouping {
  import opened Sums
  import opened DiscountAllocation
  import opened BundlePricing

  /** Each unit lies in the bucket of its own key. */
  ghost predicate Keyed(b: Bundle, buckets: seq<Bucket>) {
    forall i, u :: 0 <= i < |buckets| && u in buckets[i].units ==> KeyOf(b, u) == buckets[i].key
  }

  /** Pairwise different bucket keys, hence pairwise different phone models, where required. */
  ghost predicate ModelsDiffer(b: Bundle, group: seq<Unit>) {
    b.requireDifferentPhoneModels ==>
      forall i, j :: 0 <= i < j < |group| ==> KeyOf(b, group[i]) != KeyOf(b, group[j])
  }

  ghost predicate CompleteGroup(b: Bundle, size: nat, group: seq<Unit>) {
    |group| == size && ModelsDiffer(b, group)
  }

  /** Disjoint complete groups of the given physical units (equal units are interchangeable). */
  ghost predicate Grouping(b: Bundle, size: nat, units: seq<Unit>, groups: seq<seq<Unit>>) {
    && (forall g :: g in groups ==> CompleteGroup(b, size, g))
    && multiset(Flatten(groups)) <= multiset(units)
  }

  lemma {:induction false} InAllUnits(buckets: seq<Bucket>, i: nat, u: Unit)
    requires i < |buckets| && u in buckets[i].units
    ensures u in AllUnits(buckets)
  {
    if i > 0 {
      InAllUnits(buckets[1..], i - 1, u);
    }
  }

  // ------------------------------------------------------------ buckets keep their keys

  lemma {:induction false} DropFrontKeyed(b: Bundle, buckets: seq<Bucket>, key: string, n: nat)
    requires Keyed(b, buckets)
    ensures Keyed(b, DropFront(buckets, key, n))
  {
    if buckets != [] {
      var dropped := DropFront(buckets, key, n);
      if buckets[0].key == key {
        assert forall i :: 0 < i < |dropped| ==> dropped[i] == buckets[i];
        forall u | u in dropped[0].units ensures u in buckets[0].units {
        }
      } else {
        var rest := buckets[1..];
        assert forall i :: 0 <= i < |rest| ==> rest[i] == buckets[i + 1];
        DropFrontKeyed(b, rest, key, n);
        assert dropped[0] == buckets[0];
        assert forall i :: 0 < i < |dropped| ==> dropped[i] == DropFront(rest, key, n)[i - 1];
      }
    }
  }

  lemma {:induction false} DropPicksKeyed(b: Bundle, buckets: seq<Bucket>, picks: seq<Pick>)
    requires Keyed(b, buckets)
    ensures Keyed(b, DropPicks(buckets, picks))
    decreases |picks|
  {
    if picks != [] {
      DropFrontKeyed(b, buckets, picks[0].key, 1);
      DropPicksKeyed(b, DropFront(buckets, picks[0].key, 1), picks[1..]);
    }
  }

  lemma {:induction false} AfterRoundKeyed(b: Bundle, size: nat, buckets: seq<Bucket>, picks: seq<Pick>)
    requires Keyed(b, buckets) && picks != []
    ensures Keyed(b, AfterRound(b, size, buckets, picks))
  {
    if b.requireDifferentPhoneModels {
      DropPicksKeyed(b, buckets, picks);
    } else {
      DropFrontKeyed(b, buckets, picks[0].key, size);
    }
  }

  lemma {:induction false} AddUnitKeyed(b: Bundle, buckets: seq<Bucket>, u: Unit)
    requires Keyed(b, buckets)
    ensures Keyed(b, AddUnit(buckets, KeyOf(b, u), u))
  {
    var key := KeyOf(b, u);
    var grown := AddUnit(buckets, key, u);
    if buckets != [] {
      if buckets[0].key == key {
        assert forall i :: 0 < i < |grown| ==> grown[i] == buckets[i];
      } else {
        var rest := buckets[1..];
        assert forall i :: 0 <= i < |rest| ==> rest[i] == buckets[i + 1];
        AddUnitKeyed(b, rest, u);
        assert grown[0] == buckets[0];
        assert forall i :: 0 < i < |grown| ==> grown[i] == AddUnit(rest, key, u)[i - 1];
      }
    }
  }

  lemma {:induction false} BucketedKeyed(b: Bundle, units: seq<Unit>)
    ensures Keyed(b, Bucketed(b, units))
  {
    if units != [] {
      var n := |units| - 1;
      BucketedKeyed(b, units[..n]);
      AddUnitKeyed(b, Bucketed(b, units[..n]), units[n]);
    }
  }

  lemma {:induction false} InsertPermutes(u: Unit, sorted: seq<Unit>)
    ensures multiset(InsertByPrice(u, sorted)) == multiset(sorted) + multiset{u}
  {
    if sorted != [] && u.price < sorted[0].price {
      InsertPermutes(u, sorted[1..]);
      assert sorted == [sorted[0]] + sorted[1..];
    }
  }

  /** Sorting keeps exactly the same units. */
  lemma {:induction false} SortPermutes(units: seq<Unit>)
    ensures multiset(DearestFirst(units)) == multiset(units)
  {
    if units != [] {
      SortPermutes(units[1..]);
      InsertPermutes(units[0], DearestFirst(units[1..]));
      assert units == [units[0]] + units[1..];
    }
  }

  lemma {:induction false} SortEachPermutes(buckets: seq<Bucket>)
    ensures multiset(AllUnits(SortEach(buckets))) == multiset(AllUnits(buckets))
  {
    if buckets != [] {
      SortPermutes(buckets[0].units);
      SortEachPermutes(buckets[1..]);
      assert SortEach(buckets)[1..] == SortEach(buckets[1..]);
    }
  }

  /** Bucketing and sorting neither lose nor duplicate a unit. */
  lemma {:induction false} BucketsHoldTheUnits(b: Bundle, units: seq<Unit>)
    ensures Keyed(b, Buckets(b, units))
    ensures multiset(AllUnits(Buckets(b, units))) == multiset(units)
  {
    var raw := Bucketed(b, units);
    BucketedKeys(b, units);
    BucketedKeyed(b, units);
    SortEachPermutes(raw);
    forall i, u | 0 <= i < |raw| && u in SortEach(raw)[i].units ensures KeyOf(b, u) == raw[i].key {
      SortPermutes(raw[i].units);
      assert u in multiset(raw[i].units);
    }
  }

  // ------------------------------------------------------------ groups are complete and disjoint

  lemma {:induction false} PickedGroupComplete(b: Bundle, size: nat, buckets: seq<Bucket>)
    requires WellBucketed(b, buckets) && Keyed(b, buckets) && size > 0
    requires Choose(b, size, buckets).Some?
    ensures CompleteGroup(b, size, PickedUnits(Choose(b, size, buckets).value))
  {
    RoundSplits(b, size, buckets);
    if b.requireDifferentPhoneModels {
      ChosenAreHeads(b, size, buckets);
      var picks := Choose(b, size, buckets).value;
      forall i | 0 <= i < |picks| ensures KeyOf(b, picks[i].unit) == picks[i].key {
        assert HasHead(buckets, picks[i]);
        var j :| 0 <= j < |buckets| && buckets[j].key == picks[i].key && buckets[j].units != []
              && buckets[j].units[0] == picks[i].unit;
        assert picks[i].unit in buckets[j].units;
      }
    }
  }

  lemma {:induction false} FormedGroupsAreDisjoint(b: Bundle, size: nat, buckets: seq<Bucket>, formedAny: bool)
    requires WellBucketed(b, buckets) && Keyed(b, buckets) && size > 0
    ensures Grouping(b, size, AllUnits(buckets), FormGroups(b, size, buckets, formedAny))
    ensures forall g :: g in FormGroups(b, size, buckets, formedAny) ==> Discount(b, g) >= 0
    ensures !b.isRepeatable ==> |FormGroups(b, size, buckets, formedAny)| <= if formedAny then 0 else 1
    decreases |AllUnits(buckets)|
  {
    var next := NextGroup(b, size, buckets, formedAny);
    if next.Some? {
      NextGroupShrinks(b, size, buckets, formedAny);
      var rest := AfterRound(b, size, buckets, next.value);
      PickedGroupComplete(b, size, buckets);
      AfterRoundKeyed(b, size, buckets, next.value);
      FormedGroupsAreDisjoint(b, size, rest, true);
      var groups := FormGroups(b, size, buckets, formedAny);
      assert groups[1..] == FormGroups(b, size, rest, true);
      assert groups[0] == PickedUnits(next.value);
      assert Flatten(groups) == groups[0] + Flatten(groups[1..]);
    }
  }

  /** The groups of one bundle are disjoint complete groups of the units it was offered,
      none of them costs more than its units, and a non-repeatable bundle forms at most one. */
  lemma {:induction false} GroupsAreDisjoint(b: Bundle, units: seq<Unit>)
    requires SizeOf(b) >= 2
    ensures Grouping(b, SizeOf(b), units, Groups(b, units))
    ensures forall g :: g in Groups(b, units) ==> Discount(b, g) >= 0
    ensures !b.isRepeatable ==> |Groups(b, units)| <= 1
  {
    BucketsHoldTheUnits(b, units);
    FormedGroupsAreDisjoint(b, SizeOf(b), Buckets(b, units), false);
  }

  // ------------------------------------------------------------ claims per line

  ghost predicate DistinctIndices(lines: seq<Line>) {
    forall i, j :: 0 <= i < j < |lines| ==> lines[i].lineIndex != lines[j].lineIndex
  }

  function OnLine(index: nat): Unit -> int {
    (u: Unit) => if u.lineIndex == index then 1 else 0
  }

  function NonNegativePart(n: int): int { if n > 0 then n else 0 }

  lemma {:induction false} CopiesSum<T>(x: T, n: int, f: T -> int)
    ensures SumBy(Copies(x, n), f) == f(x) * NonNegativePart(n)
    decreases n
  {
    if n > 0 {
      CopiesSum(x, n - 1, f);
      SumSnoc(Copies(x, n - 1), x, f);
    }
  }

  lemma {:induction false} EligibleAreLines(lines: seq<Line>, b: Bundle)
    ensures forall l :: l in Eligible(lines, b) ==> l in lines && MayFill(l, b)
    ensures DistinctIndices(lines) ==> DistinctIndices(Eligible(lines, b))
  {
    if lines != [] {
      EligibleAreLines(lines[1..], b);
      var rest := Eligible(lines[1..], b);
      if DistinctIndices(lines) {
        forall i | 0 <= i < |rest| ensures rest[i].lineIndex != lines[0].lineIndex {
          assert rest[i] in rest;
          var j :| 0 <= j < |lines[1..]| && lines[1..][j] == rest[i];
          assert lines[j + 1] == rest[i];
        }
      }
    }
  }

  /** A line contributes no more units than it has left. */
  lemma {:induction false} UnitsLeftPerLine(eligible: seq<Line>, rem: Remaining, b: Bundle, index: nat)
    requires DistinctIndices(eligible)
    ensures SumBy(UnitsLeft(eligible, rem, b), OnLine(index)) <= NonNegativePart(Left(rem, index))
    ensures (forall l :: l in eligible ==> l.lineIndex != index) ==>
              SumBy(UnitsLeft(eligible, rem, b), OnLine(index)) == 0
  {
    if eligible != [] {
      var first := eligible[0];
      var rest := eligible[1..];
      assert forall i :: 0 <= i < |rest| ==> rest[i] == eligible[i + 1];
      UnitsLeftPerLine(rest, rem, b, index);
      CopiesSum(UnitFor(first, b), Left(rem, first.lineIndex), OnLine(index));
      SumConcat(Copies(UnitFor(first, b), Left(rem, first.lineIndex)), UnitsLeft(rest, rem, b), OnLine(index));
      assert first in eligible;
      assert forall l :: l in rest ==> l in eligible;
    }
  }

  lemma {:induction false} ClaimCounts(rem: Remaining, units: seq<Unit>, index: nat)
    ensures Left(Claim(rem, units), index) == Left(rem, index) - SumBy(units, OnLine(index))
    decreases |units|
  {
    if units != [] {
      ClaimCounts(rem[units[0].lineIndex := Left(rem, units[0].lineIndex) - 1], units[1..], index);
    }
  }

  function AllocationOn(index: nat): UnitAllocation -> int {
    (a: UnitAllocation) => if a.lineIndex == index then 1 else 0
  }

  /** How many units of a line an instance uses. */
  function UsesOf(index: nat): Instance -> int {
    (i: Instance) => SumBy(i.unitAllocations, AllocationOn(index))
  }

  lemma {:induction false} InstancesUseTheirUnits(b: Bundle, groups: seq<seq<Unit>>, index: nat)
    ensures SumBy(MakeInstances(b, groups), UsesOf(index)) == SumBy(Flatten(groups), OnLine(index))
  {
    if groups != [] {
      InstancesUseTheirUnits(b, groups[1..], index);
      SumConcat(groups[0], Flatten(groups[1..]), OnLine(index));
      SumPointwise(groups[0], Allocated(groups[0], Discount(b, groups[0])), OnLine(index), AllocationOn(index));
      assert MakeInstances(b, groups)[1..] == MakeInstances(b, groups[1..]);
    }
  }

  lemma {:induction false} BundleClaims(lines: seq<Line>, rem: Remaining, b: Bundle, couponIsApplied: bool, index: nat)
    requires DistinctIndices(lines) && Left(rem, index) >= 0
    ensures 0 <= SumBy(Flatten(BundleGroups(lines, rem, b, couponIsApplied)), OnLine(index)) <= Left(rem, index)
  {
    var groups := BundleGroups(lines, rem, b, couponIsApplied);
    SumNonNegative(Flatten(groups), OnLine(index));
    if !Skipped(b, couponIsApplied) {
      var units := UnitsLeft(Eligible(lines, b), rem, b);
      GroupsAreDisjoint(b, units);
      SumIncluded(Flatten(groups), units, OnLine(index));
      EligibleAreLines(lines, b);
      UnitsLeftPerLine(Eligible(lines, b), rem, b, index);
    }
  }

  lemma {:induction false} ClaimsFrom(lines: seq<Line>, bundles: seq<Bundle>, rem: Remaining, couponIsApplied: bool, index: nat)
    requires DistinctIndices(lines) && Left(rem, index) >= 0
    ensures SumBy(InstancesFrom(lines, bundles, rem, couponIsApplied), UsesOf(index)) <= Left(rem, index)
    decreases |bundles|
  {
    if bundles != [] {
      var groups := BundleGroups(lines, rem, bundles[0], couponIsApplied);
      var after := Claim(rem, Flatten(groups));
      BundleClaims(lines, rem, bundles[0], couponIsApplied, index);
      ClaimCounts(rem, Flatten(groups), index);
      InstancesUseTheirUnits(bundles[0], groups, index);
      ClaimsFrom(lines, bundles[1..], after, couponIsApplied, index);
      SumConcat(MakeInstances(bundles[0], groups), InstancesFrom(lines, bundles[1..], after, couponIsApplied), UsesOf(index));
    }
  }

  lemma {:induction false} QuantityOf(lines: seq<Line>, i: nat)
    requires DistinctIndices(lines) && i < |lines|
    ensures Left(Quantities(lines), lines[i].lineIndex) == lines[i].quantity
  {
    var n := |lines| - 1;
    if i < n {
      assert lines[..n][i] == lines[i];
      QuantityOf(lines[..n], i);
    }
  }

  /** Across every bundle and every instance, a line is claimed at most as often as it was bought. */
  lemma {:induction false} NoUnitClaimedTwice(lines: seq<Line>, bundles: seq<Bundle>, couponIsApplied: bool, i: nat)
    requires DistinctIndices(lines) && i < |lines|
    ensures SumBy(Instances(lines, bundles, couponIsApplied), UsesOf(lines[i].lineIndex)) <= lines[i].quantity
  {
    QuantityOf(lines, i);
    ClaimsFrom(lines, bundles, Quantities(lines), couponIsApplied, lines[i].lineIndex);
  }

  // ------------------------------------------------------------ every instance is sound

  ghost predicate HasIndex(lines: seq<Line>, index: nat) {
    exists i :: 0 <= i < |lines| && lines[i].lineIndex == index
  }

  ghost function LineAt(lines: seq<Line>, index: nat): (line: Line)
    requires HasIndex(lines, index)
    ensures line in lines && line.lineIndex == index
  {
    var i :| 0 <= i < |lines| && lines[i].lineIndex == index;
    lines[i]
  }

  lemma {:induction false} LineAtUnique(lines: seq<Line>, line: Line)
    requires DistinctIndices(lines) && line in lines
    ensures HasIndex(lines, line.lineIndex) && LineAt(lines, line.lineIndex) == line
  {
    var i :| 0 <= i < |lines| && lines[i] == line;
    var other := LineAt(lines, line.lineIndex);
    var j :| 0 <= j < |lines| && lines[j] == other;
    assert !(i < j) && !(j < i);
  }

  lemma {:induction false} UnitsComeFromLines(eligible: seq<Line>, rem: Remaining, b: Bundle)
    ensures forall u :: u in UnitsLeft(eligible, rem, b) ==> exists l :: l in eligible && u == UnitFor(l, b)
  {
    if eligible != [] {
      UnitsComeFromLines(eligible[1..], rem, b);
      CopiesAreCopies(UnitFor(eligible[0], b), Left(rem, eligible[0].lineIndex));
      forall u | u in UnitsLeft(eligible, rem, b) ensures exists l :: l in eligible && u == UnitFor(l, b) {
        if u in UnitsLeft(eligible[1..], rem, b) {
          var l :| l in eligible[1..] && u == UnitFor(l, b);
          assert l in eligible;
        } else {
          assert eligible[0] in eligible;
        }
      }
    }
  }

  lemma {:induction false} CopiesAreCopies<T>(x: T, n: int)
    ensures forall y :: y in Copies(x, n) ==> y == x
    decreases n
  {
    if n > 0 {
      CopiesAreCopies(x, n - 1);
    }
  }

  /** A group whose units are pieces of cart lines the bundle may use. */
  ghost predicate FromCart(lines: seq<Line>, b: Bundle, group: seq<Unit>) {
    forall i :: 0 <= i < |group| ==>
      && HasIndex(lines, group[i].lineIndex)
      && MayFill(LineAt(lines, group[i].lineIndex), b)
      && group[i] == UnitFor(LineAt(lines, group[i].lineIndex), b)
  }

  ghost predicate SoundGroup(lines: seq<Line>, b: Bundle, group: seq<Unit>) {
    && SizeOf(b) >= 2
    && CompleteGroup(b, SizeOf(b), group)
    && FromCart(lines, b, group)
    && Discount(b, group) >= 0
  }

  lemma {:induction false} InFlatten<T>(ss: seq<seq<T>>, s: seq<T>, x: T)
    requires s in ss && x in s
    ensures x in Flatten(ss)
  {
    if ss[0] != s {
      InFlatten(ss[1..], s, x);
    }
  }

  lemma {:induction false} GroupFromCart(lines: seq<Line>, rem: Remaining, b: Bundle, groups: seq<seq<Unit>>, g: seq<Unit>)
    requires DistinctIndices(lines) && g in groups
    requires multiset(Flatten(groups)) <= multiset(UnitsLeft(Eligible(lines, b), rem, b))
    ensures FromCart(lines, b, g)
  {
    var eligible := Eligible(lines, b);
    var units := UnitsLeft(eligible, rem, b);
    EligibleAreLines(lines, b);
    UnitsComeFromLines(eligible, rem, b);
    forall i | 0 <= i < |g|
      ensures HasIndex(lines, g[i].lineIndex)
      ensures MayFill(LineAt(lines, g[i].lineIndex), b)
      ensures g[i] == UnitFor(LineAt(lines, g[i].lineIndex), b)
    {
      InFlatten(groups, g, g[i]);
      assert g[i] in multiset(Flatten(groups));
      var u := g[i];
      assert u in multiset(units);
      assert u in units;
      var l :| l in eligible && g[i] == UnitFor(l, b);
      LineAtUnique(lines, l);
    }
  }

  lemma {:induction false} BundleGroupsSound(lines: seq<Line>, rem: Remaining, b: Bundle, couponIsApplied: bool)
    requires DistinctIndices(lines)
    ensures forall g :: g in BundleGroups(lines, rem, b, couponIsApplied) ==> SoundGroup(lines, b, g)
  {
    if !Skipped(b, couponIsApplied) {
      var units := UnitsLeft(Eligible(lines, b), rem, b);
      GroupsAreDisjoint(b, units);
      forall g | g in Groups(b, units) ensures SoundGroup(lines, b, g) {
        GroupFromCart(lines, rem, b, Groups(b, units), g);
      }
    }
  }

  function DiscountOf(a: UnitAllocation): int { a.discount }

  ghost function PriceAt(lines: seq<Line>): UnitAllocation -> int {
    (a: UnitAllocation) => if HasIndex(lines, a.lineIndex) then LineAt(lines, a.lineIndex).unitPrice else 0
  }

  ghost function SurchargeAt(lines: seq<Line>, b: Bundle): UnitAllocation -> int {
    (a: UnitAllocation) => if HasIndex(lines, a.lineIndex) then UnitFor(LineAt(lines, a.lineIndex), b).surcharge else 0
  }

  /** A complete instance of `b` over cart lines: the right number of units, of different models
      where required, each discounted by at most its own price, and the discounts adding up to
      normal price minus applied price. */
  ghost predicate SoundInstance(lines: seq<Line>, b: Bundle, inst: Instance) {
    && inst.bundleId == b.id
    && |inst.unitAllocations| == SizeOf(b) >= 2
    && (forall k :: 0 <= k < |inst.unitAllocations| ==>
          var a := inst.unitAllocations[k];
          && HasIndex(lines, a.lineIndex)
          && MayFill(LineAt(lines, a.lineIndex), b)
          && 0 <= a.discount <= LineAt(lines, a.lineIndex).unitPrice)
    && (b.requireDifferentPhoneModels ==>
          forall j, k :: 0 <= j < k < |inst.unitAllocations| ==>
            LineAt(lines, inst.unitAllocations[j].lineIndex).phoneModelId
            != LineAt(lines, inst.unitAllocations[k].lineIndex).phoneModelId)
    && SumBy(inst.unitAllocations, DiscountOf) == inst.discountAmount
    && inst.discountAmount == inst.normalSubtotal - inst.fixedTotalApplied >= 0
    && inst.normalSubtotal == SumBy(inst.unitAllocations, PriceAt(lines))
    && inst.fixedTotalApplied == b.fixedTotal + SumBy(inst.unitAllocations, SurchargeAt(lines, b))
  }

  lemma {:induction false} PricesTotal(units: seq<Unit>)
    ensures Total(Prices(units)) == Subtotal(units) >= 0
  {
    SumPointwise(Prices(units), units, Itself, PriceOf);
    SumNonNegative(units, PriceOf);
  }

  lemma {:induction false} AllocatedSharesExact(b: Bundle, units: seq<Unit>)
    requires Discount(b, units) >= 0
    ensures SumBy(Allocated(units, Discount(b, units)), DiscountOf) == Discount(b, units)
    ensures forall i :: 0 <= i < |units| ==> 0 <= Allocated(units, Discount(b, units))[i].discount <= units[i].price
  {
    var shares := Allocate(Prices(units), Discount(b, units));
    AllocateIsExact(Prices(units), Discount(b, units));
    PricesTotal(units);
    SumNonNegative(units, SurchargeOf);
    SumPointwise(Allocated(units, Discount(b, units)), shares, DiscountOf, Itself);
  }

  lemma {:induction false} SoundGroupMakesSoundInstance(lines: seq<Line>, b: Bundle, group: seq<Unit>)
    requires SoundGroup(lines, b, group)
    ensures SoundInstance(lines, b, MakeInstance(b, group))
  {
    AllocatedSharesExact(b, group);
    var allocations := Allocated(group, Discount(b, group));
    assert forall k :: 0 <= k < |group| ==> allocations[k].lineIndex == group[k].lineIndex;
    SumPointwise(allocations, group, PriceAt(lines), PriceOf);
    SumPointwise(allocations, group, SurchargeAt(lines, b), SurchargeOf);
    forall j, k | 0 <= j < k < |group| && b.requireDifferentPhoneModels
      ensures LineAt(lines, group[j].lineIndex).phoneModelId != LineAt(lines, group[k].lineIndex).phoneModelId
    {
      assert KeyOf(b, group[j]) != KeyOf(b, group[k]);
    }
  }

  lemma {:induction false} MakeInstancesSound(lines: seq<Line>, b: Bundle, groups: seq<seq<Unit>>)
    requires forall g :: g in groups ==> SoundGroup(lines, b, g)
    ensures forall inst :: inst in MakeInstances(b, groups) ==> SoundInstance(lines, b, inst)
  {
    if groups != [] {
      MakeInstancesSound(lines, b, groups[1..]);
      SoundGroupMakesSoundInstance(lines, b, groups[0]);
    }
  }

  ghost predicate SoundFor(lines: seq<Line>, bundles: seq<Bundle>, inst: Instance) {
    exists b :: b in bundles && SoundInstance(lines, b, inst)
  }

  lemma {:induction false} InstancesFromSound(lines: seq<Line>, bundles: seq<Bundle>, rem: Remaining, couponIsApplied: bool)
    requires DistinctIndices(lines)
    ensures forall inst :: inst in InstancesFrom(lines, bundles, rem, couponIsApplied) ==> SoundFor(lines, bundles, inst)
    decreases |bundles|
  {
    if bundles != [] {
      var groups := BundleGroups(lines, rem, bundles[0], couponIsApplied);
      var after := Claim(rem, Flatten(groups));
      BundleGroupsSound(lines, rem, bundles[0], couponIsApplied);
      MakeInstancesSound(lines, bundles[0], groups);
      InstancesFromSound(lines, bundles[1..], after, couponIsApplied);
      forall inst | inst in InstancesFrom(lines, bundles, rem, couponIsApplied)
        ensures SoundFor(lines, bundles, inst)
      {
        if inst in MakeInstances(bundles[0], groups) {
          assert bundles[0] in bundles;
        } else {
          assert inst in InstancesFrom(lines, bundles[1..], after, couponIsApplied);
          assert SoundFor(lines, bundles[1..], inst);
          var b :| b in bundles[1..] && SoundInstance(lines, b, inst);
          assert b in bundles;
        }
      }
    }
  }

  /** Every instance the computation returns is complete, exact and bounded unit by unit. */
  lemma {:induction false} EveryInstanceIsSound(lines: seq<Line>, bundles: seq<Bundle>, couponIsApplied: bool)
    requires DistinctIndices(lines)
    ensures forall inst :: inst in Instances(lines, bundles, couponIsApplied) ==> SoundFor(lines, bundles, inst)
  {
    InstancesFromSound(lines, bundles, Quantities(lines), couponIsApplied);
  }
}

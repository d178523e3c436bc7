/** What the storefront says about the next group of an offer, and why the saving it promises is
    really granted (src/modules/promotions/bundles/bundle-pricing.util.ts). */
module BundleProgress {
  import opened Options
  import opened Sums
  import opened DiscountAllocation
  import opened BundlePricing
  import opened BundleGrouping
  import opened BundleOptimality

  datatype Progress = Progress(
    bundleSize: int,
    fixedTotal: nat,
    currency: string,
    requireDifferentPhoneModels: bool,
    isRepeatable: bool,
    allowCouponStacking: bool,
    eligibleUnits: int,
    groupsApplied: int,
    unitsNeeded: Option<int>,
    blockedByCoupon: bool,
    savingsIfCompleted: Option<int>)

  function WorstSurcharge(b: Bundle): nat { ValueOr(b.maxSurcharge, 0) }

  function GuaranteedMinSavings(b: Bundle): int {
    if b.minUnitPrice.None? then 0
    else
      var worst := b.fixedTotal + SizeOf(b) * WorstSurcharge(b);
      var saving := SizeOf(b) * b.minUnitPrice.value - worst;
      if saving > 0 then saving else 0
  }

  function QuantityIn(l: Line): int { l.quantity }

  /** Eligible units no applied instance uses. */
  function FreeUnits(eligible: seq<Line>, instances: seq<Instance>, b: Bundle): seq<Unit> {
    if eligible == [] then []
    else
      var used := SumBy(instances, UsesOf(eligible[0].lineIndex));
      Copies(UnitFor(eligible[0], b), eligible[0].quantity - used) + FreeUnits(eligible[1..], instances, b)
  }

  datatype ModelPrice = ModelPrice(key: string, price: int)

  function ModelKey(u: Unit): string { ValueOr(u.phoneModelId, NO_PHONE_MODEL) }

  /** `Map.set` of the lower of the known and the new price. */
  function NoteModelPrice(known: seq<ModelPrice>, key: string, price: int): seq<ModelPrice> {
    if known == [] then [ModelPrice(key, price)]
    else if known[0].key == key then
      if price < known[0].price then [ModelPrice(key, price)] + known[1..] else known
    else [known[0]] + NoteModelPrice(known[1..], key, price)
  }

  function CheapestPerModel(free: seq<Unit>): seq<ModelPrice> {
    if free == [] then []
    else
      var last := free[|free| - 1];
      NoteModelPrice(CheapestPerModel(free[..|free| - 1]), ModelKey(last), last.price)
  }

  function ModelPriceOf(m: ModelPrice): int { m.price }

  function AppliedGroups(instances: seq<Instance>, id: string): int {
    if instances == [] then 0
    else (if instances[0].bundleId == id then 1 else 0) + AppliedGroups(instances[1..], id)
  }

  /** Units still missing for the next group. */
  function UnitsNeeded(b: Bundle, groupsApplied: int, free: seq<Unit>): Option<int> {
    if !b.isRepeatable && groupsApplied > 0 then None
    else
      var have := if b.requireDifferentPhoneModels then |CheapestPerModel(free)| else |free|;
      if have >= SizeOf(b) then None else Some(SizeOf(b) - have)
  }

  /** Real price of the units already in the cart that would join the next group. */
  function LeftoverPrice(b: Bundle, groupsApplied: int, free: seq<Unit>): int {
    if !b.isRepeatable && groupsApplied > 0 then 0
    else if b.requireDifferentPhoneModels then SumBy(CheapestPerModel(free), ModelPriceOf)
    else Subtotal(free)
  }

  function SavingsIfCompleted(b: Bundle, needed: Option<int>, leftover: int, blocked: bool): Option<int> {
    if needed.None? || blocked || b.minUnitPrice.None? then None
    else
      var saving := leftover + needed.value * b.minUnitPrice.value
                    - (b.fixedTotal + SizeOf(b) * WorstSurcharge(b));
      if saving > 0 then Some(saving) else None
  }

  /** One bundle's offer, or nothing when the cart holds no eligible unit for it. */
  function ProgressFor(lines: seq<Line>, b: Bundle, instances: seq<Instance>, couponIsApplied: bool): Option<Progress> {
    var eligible := Eligible(lines, b);
    var eligibleUnits := SumBy(eligible, QuantityIn);
    if SizeOf(b) < 2 || eligibleUnits == 0 then None
    else
      var blocked := couponIsApplied && !b.allowCouponStacking;
      var applied := AppliedGroups(instances, b.id);
      var free := FreeUnits(eligible, instances, b);
      var needed := UnitsNeeded(b, applied, free);
      Some(Progress(SizeOf(b), b.fixedTotal, b.currency, b.requireDifferentPhoneModels, b.isRepeatable,
                    b.allowCouponStacking, eligibleUnits, if blocked then 0 else applied, needed, blocked,
                    SavingsIfCompleted(b, needed, LeftoverPrice(b, applied, free), blocked)))
  }

  /** More groups applied, then fewer units needed, then the lower price per unit. */
  predicate Better(x: Progress, y: Progress) {
    || x.groupsApplied > y.groupsApplied
    || (x.groupsApplied == y.groupsApplied && FewerNeeded(x.unitsNeeded, y.unitsNeeded))
    || (x.groupsApplied == y.groupsApplied && x.unitsNeeded == y.unitsNeeded
        && x.fixedTotal * y.bundleSize < y.fixedTotal * x.bundleSize)
  }

  predicate FewerNeeded(x: Option<int>, y: Option<int>) {
    x.Some? && (y.None? || x.value < y.value)
  }

  /** The first candidate no other beats: the head of the stable sort. */
  function BestOf(best: Progress, candidates: seq<Progress>): Progress
    decreases |candidates|
  {
    if candidates == [] then best
    else BestOf(if Better(candidates[0], best) then candidates[0] else best, candidates[1..])
  }

  function Candidates(lines: seq<Line>, bundles: seq<Bundle>, instances: seq<Instance>, couponIsApplied: bool): seq<Progress> {
    if bundles == [] then []
    else
      AsSeq(ProgressFor(lines, bundles[0], instances, couponIsApplied))
      + Candidates(lines, bundles[1..], instances, couponIsApplied)
  }

  function BundleProgressOf(lines: seq<Line>, bundles: seq<Bundle>, instances: seq<Instance>, couponIsApplied: bool): Option<Progress> {
    var candidates := Candidates(lines, bundles, instances, couponIsApplied);
    if candidates == [] then None else Some(BestOf(candidates[0], candidates[1..]))
  }

  // ------------------------------------------------------------ the computation

  lemma {:induction false} FreeUnitsConcat(x: seq<Line>, y: seq<Line>, instances: seq<Instance>, b: Bundle)
    ensures FreeUnits(x + y, instances, b) == FreeUnits(x, instances, b) + FreeUnits(y, instances, b)
  {
    if x == [] {
      assert x + y == y;
    } else {
      assert (x + y)[1..] == x[1..] + y;
      FreeUnitsConcat(x[1..], y, instances, b);
    }
  }

  method CollectFree(eligible: seq<Line>, instances: seq<Instance>, b: Bundle) returns (free: seq<Unit>)
    ensures free == FreeUnits(eligible, instances, b)
  {
    free := [];
    for i := 0 to |eligible|
      invariant free == FreeUnits(eligible[..i], instances, b)
    {
      var line := eligible[i];
      var left := line.quantity - SumBy(instances, UsesOf(line.lineIndex));
      ghost var before := free;
      var j := 0;
      while j < left
        invariant 0 <= j && (j <= left || (left < 0 && j == 0))
        invariant free == before + Copies(UnitFor(line, b), j)
      {
        free := free + [UnitFor(line, b)];
        j := j + 1;
      }
      assert Copies(UnitFor(line, b), j) == Copies(UnitFor(line, b), left);
      assert eligible[..i + 1] == eligible[..i] + [line];
      FreeUnitsConcat(eligible[..i], [line], instances, b);
      assert FreeUnits([line], instances, b) == Copies(UnitFor(line, b), left);
    }
    assert eligible[..|eligible|] == eligible;
  }

  method CollectCheapest(free: seq<Unit>) returns (cheapest: seq<ModelPrice>)
    ensures cheapest == CheapestPerModel(free)
  {
    cheapest := [];
    for i := 0 to |free|
      invariant cheapest == CheapestPerModel(free[..i])
    {
      assert free[..i + 1][..i] == free[..i];
      cheapest := NoteModelPrice(cheapest, ModelKey(free[i]), free[i].price);
    }
    assert free[..|free|] == free;
  }

  function AsSeq<T>(o: Option<T>): seq<T> { if o.Some? then [o.value] else [] }

  lemma {:induction false} CandidatesUnfold(lines: seq<Line>, bundles: seq<Bundle>, k: nat, instances: seq<Instance>,
                                            couponIsApplied: bool, done: seq<Progress>)
    requires k < |bundles|
    ensures done + Candidates(lines, bundles[k..], instances, couponIsApplied)
         == (done + AsSeq(ProgressFor(lines, bundles[k], instances, couponIsApplied)))
            + Candidates(lines, bundles[k + 1..], instances, couponIsApplied)
  {
    assert bundles[k..][0] == bundles[k] && bundles[k..][1..] == bundles[k + 1..];
  }

  method CollectCandidates(lines: seq<Line>, bundles: seq<Bundle>, instances: seq<Instance>, couponIsApplied: bool)
    returns (candidates: seq<Progress>)
    ensures candidates == Candidates(lines, bundles, instances, couponIsApplied)
  {
    candidates := [];
    assert bundles[0..] == bundles;
    for k := 0 to |bundles|
      invariant candidates + Candidates(lines, bundles[k..], instances, couponIsApplied)
             == Candidates(lines, bundles, instances, couponIsApplied)
    {
      CandidatesUnfold(lines, bundles, k, instances, couponIsApplied, candidates);
      var p := OfferOf(lines, bundles[k], instances, couponIsApplied);
      candidates := candidates + AsSeq(p);
    }
  }

  method OfferOf(lines: seq<Line>, b: Bundle, instances: seq<Instance>, couponIsApplied: bool) returns (p: Option<Progress>)
    ensures p == ProgressFor(lines, b, instances, couponIsApplied)
  {
    if SizeOf(b) < 2 {
      return None;
    }
    var eligible := Eligible(lines, b);
    var eligibleUnits := SumBy(eligible, QuantityIn);
    if eligibleUnits == 0 {
      return None;
    }
    var blocked := couponIsApplied && !b.allowCouponStacking;
    var applied := AppliedGroups(instances, b.id);
    var free := CollectFree(eligible, instances, b);
    var unitsNeeded: Option<int>;
    var leftover := 0;
    if !b.isRepeatable && applied > 0 {
      unitsNeeded := None;
    } else if b.requireDifferentPhoneModels {
      var cheapest := CollectCheapest(free);
      unitsNeeded := if |cheapest| >= SizeOf(b) then None else Some(SizeOf(b) - |cheapest|);
      leftover := SumBy(cheapest, ModelPriceOf);
    } else {
      unitsNeeded := if |free| >= SizeOf(b) then None else Some(SizeOf(b) - |free|);
      leftover := Subtotal(free);
    }
    p := Some(Progress(SizeOf(b), b.fixedTotal, b.currency, b.requireDifferentPhoneModels, b.isRepeatable,
                       b.allowCouponStacking, eligibleUnits, if blocked then 0 else applied, unitsNeeded, blocked,
                       SavingsIfCompleted(b, unitsNeeded, leftover, blocked)));
  }

  method ComputeBundleProgress(lines: seq<Line>, bundles: seq<Bundle>, instances: seq<Instance>, couponIsApplied: bool)
    returns (result: Option<Progress>)
    ensures result == BundleProgressOf(lines, bundles, instances, couponIsApplied)
  {
    if bundles == [] || lines == [] {
      NoLinesNoCandidates(bundles, instances, couponIsApplied);
      return None;
    }
    var candidates := CollectCandidates(lines, bundles, instances, couponIsApplied);
    if candidates == [] {
      return None;
    }
    var best := candidates[0];
    assert candidates[1..] == candidates[1..][0..];
    for i := 1 to |candidates|
      invariant BestOf(best, candidates[i..]) == BestOf(candidates[0], candidates[1..])
    {
      assert candidates[i..][0] == candidates[i] && candidates[i..][1..] == candidates[i + 1..];
      if Better(candidates[i], best) {
        best := candidates[i];
      }
    }
    result := Some(best);
  }

  lemma {:induction false} NoLinesNoCandidates(bundles: seq<Bundle>, instances: seq<Instance>, couponIsApplied: bool)
    ensures Candidates([], bundles, instances, couponIsApplied) == []
  {
    if bundles != [] {
      NoLinesNoCandidates(bundles[1..], instances, couponIsApplied);
    }
  }

  // ------------------------------------------------------------ the guaranteed minimum

  lemma {:induction false} AtLeastEach(units: seq<Unit>, least: nat)
    requires forall u :: u in units ==> u.price >= least
    ensures Subtotal(units) >= |units| * least
  {
    if units != [] {
      AtLeastEach(units[1..], least);
      OneMoreTimes(|units|, least);
    }
  }

  lemma {:induction false} AtMostEach(units: seq<Unit>, most: nat)
    requires forall u :: u in units ==> u.surcharge <= most
    ensures SumBy(units, SurchargeOf) <= |units| * most
  {
    if units != [] {
      AtMostEach(units[1..], most);
      OneMoreTimes(|units|, most);
    }
  }

  /** A positive guaranteed minimum is saved by every complete group of units within the bounds. */
  lemma {:induction false} GuaranteedMinimumIsSaved(b: Bundle, group: seq<Unit>)
    requires SizeOf(b) >= 2 && |group| == SizeOf(b)
    requires b.minUnitPrice.Some?
    requires forall u :: u in group ==> u.price >= b.minUnitPrice.value && u.surcharge <= WorstSurcharge(b)
    requires GuaranteedMinSavings(b) > 0
    ensures Discount(b, group) >= GuaranteedMinSavings(b)
  {
    AtLeastEach(group, b.minUnitPrice.value);
    AtMostEach(group, WorstSurcharge(b));
  }

  // ------------------------------------------------------------ what is free is what was left

  lemma {:induction false} ClaimOne(eligible: seq<Line>, rem: Remaining, b: Bundle, u: Unit, f: Unit -> int)
    requires DistinctIndices(eligible) && Left(rem, u.lineIndex) >= 1
    ensures var after := rem[u.lineIndex := Left(rem, u.lineIndex) - 1];
      && ((exists l :: l in eligible && u == UnitFor(l, b)) ==>
           SumBy(UnitsLeft(eligible, after, b), f) == SumBy(UnitsLeft(eligible, rem, b), f) - f(u))
      && ((forall l :: l in eligible ==> l.lineIndex != u.lineIndex) ==>
           SumBy(UnitsLeft(eligible, after, b), f) == SumBy(UnitsLeft(eligible, rem, b), f))
  {
    var after := rem[u.lineIndex := Left(rem, u.lineIndex) - 1];
    if eligible != [] {
      var first, rest := eligible[0], eligible[1..];
      assert forall i :: 0 <= i < |rest| ==> rest[i] == eligible[i + 1];
      assert first in eligible && forall l :: l in rest ==> l in eligible;
      ClaimOne(rest, rem, b, u, f);
      var unit := UnitFor(first, b);
      SumConcat(Copies(unit, Left(rem, first.lineIndex)), UnitsLeft(rest, rem, b), f);
      SumConcat(Copies(unit, Left(after, first.lineIndex)), UnitsLeft(rest, after, b), f);
      if first.lineIndex == u.lineIndex {
        SumSnoc(Copies(unit, Left(rem, first.lineIndex) - 1), unit, f);
        forall l | l in rest ensures l.lineIndex != u.lineIndex {
          var i :| 0 <= i < |rest| && rest[i] == l;
          assert eligible[i + 1] == l;
        }
      }
    }
  }

  /** Claiming units that are there takes exactly them out of what is left. */
  lemma {:induction false} ClaimTakesOut(eligible: seq<Line>, rem: Remaining, b: Bundle, units: seq<Unit>, f: Unit -> int)
    requires DistinctIndices(eligible)
    requires forall u :: u in units ==> exists l :: l in eligible && u == UnitFor(l, b)
    requires forall index: nat :: SumBy(units, OnLine(index)) <= Left(rem, index)
    ensures SumBy(UnitsLeft(eligible, Claim(rem, units), b), f)
         == SumBy(UnitsLeft(eligible, rem, b), f) - SumBy(units, f)
    decreases |units|
  {
    if units != [] {
      var u := units[0];
      var after := rem[u.lineIndex := Left(rem, u.lineIndex) - 1];
      assert u in units;
      LaterClaimsFit(rem, units);
      ClaimOne(eligible, rem, b, u, f);
      forall v | v in units[1..] ensures exists l :: l in eligible && v == UnitFor(l, b) {
        assert v in units;
      }
      ClaimTakesOut(eligible, after, b, units[1..], f);
    }
  }

  lemma {:induction false} LaterClaimsFit(rem: Remaining, units: seq<Unit>)
    requires units != [] && forall index: nat :: SumBy(units, OnLine(index)) <= Left(rem, index)
    ensures Left(rem, units[0].lineIndex) >= 1
    ensures var after := rem[units[0].lineIndex := Left(rem, units[0].lineIndex) - 1];
            forall index: nat :: SumBy(units[1..], OnLine(index)) <= Left(after, index)
  {
    var u := units[0];
    assert SumBy(units, OnLine(u.lineIndex)) == 1 + SumBy(units[1..], OnLine(u.lineIndex));
    SumNonNegative(units[1..], OnLine(u.lineIndex));
    var after := rem[u.lineIndex := Left(rem, u.lineIndex) - 1];
    forall index: nat ensures SumBy(units[1..], OnLine(index)) <= Left(after, index) {
      assert SumBy(units, OnLine(index)) <= Left(rem, index);
      assert SumBy(units, OnLine(index)) == OnLine(index)(u) + SumBy(units[1..], OnLine(index));
    }
  }

  lemma {:induction false} FreeIsWhatIsLeft(eligible: seq<Line>, instances: seq<Instance>, b: Bundle, rem: Remaining)
    requires forall l :: l in eligible ==> Left(rem, l.lineIndex) == l.quantity - SumBy(instances, UsesOf(l.lineIndex))
    ensures FreeUnits(eligible, instances, b) == UnitsLeft(eligible, rem, b)
  {
    if eligible != [] {
      assert eligible[0] in eligible;
      FreeIsWhatIsLeft(eligible[1..], instances, b, rem);
    }
  }

  /** Units of the cart that `b` may use, before any bundle claimed one. */
  function CartUnits(lines: seq<Line>, b: Bundle): seq<Unit> {
    UnitsLeft(Eligible(lines, b), Quantities(lines), b)
  }

  lemma {:induction false} SingleBundleInstances(lines: seq<Line>, b: Bundle, couponIsApplied: bool)
    requires SizeOf(b) >= 2 && !Skipped(b, couponIsApplied)
    ensures Instances(lines, [b], couponIsApplied) == MakeInstances(b, Groups(b, CartUnits(lines, b)))
  {
    var rem, groups := Quantities(lines), Groups(b, CartUnits(lines, b));
    InstancesUnfold(lines, [b], 0, rem, couponIsApplied, []);
    assert [b][0..] == [b] && [b][1..] == [];
    assert InstancesFrom(lines, [], Claim(rem, Flatten(groups)), couponIsApplied) == [];
  }

  lemma {:induction false} QuantitiesOfEligible(lines: seq<Line>, b: Bundle)
    requires DistinctIndices(lines)
    ensures forall l :: l in Eligible(lines, b) ==> Left(Quantities(lines), l.lineIndex) == l.quantity
  {
    EligibleAreLines(lines, b);
    forall l | l in Eligible(lines, b) ensures Left(Quantities(lines), l.lineIndex) == l.quantity {
      var i :| 0 <= i < |lines| && lines[i] == l;
      QuantityOf(lines, i);
    }
  }

  /** Under a single bundle, the free units are the cart's units minus the grouped ones. */
  lemma {:induction false} FreeUnitsMeasure(lines: seq<Line>, b: Bundle, couponIsApplied: bool, f: Unit -> int)
    requires DistinctIndices(lines) && !Skipped(b, couponIsApplied)
    ensures var units := CartUnits(lines, b);
            SumBy(FreeUnits(Eligible(lines, b), MakeInstances(b, Groups(b, units)), b), f)
            == SumBy(units, f) - SumBy(Flatten(Groups(b, units)), f)
  {
    var eligible, rem := Eligible(lines, b), Quantities(lines);
    var units := CartUnits(lines, b);
    var flat := Flatten(Groups(b, units));
    var instances := MakeInstances(b, Groups(b, units));
    EligibleAreLines(lines, b);
    QuantitiesOfEligible(lines, b);
    GroupsAreDisjoint(b, units);
    UnitsComeFromLines(eligible, rem, b);
    forall u | u in flat ensures exists l :: l in eligible && u == UnitFor(l, b) {
      assert u in multiset(flat) && u in multiset(units);
      assert u in units;
    }
    forall index: nat ensures SumBy(flat, OnLine(index)) <= Left(rem, index) {
      QuantitiesNonNegative(lines, index);
      BundleClaims(lines, rem, b, couponIsApplied, index);
    }
    ClaimTakesOut(eligible, rem, b, flat, f);
    forall l | l in eligible
      ensures Left(Claim(rem, flat), l.lineIndex) == l.quantity - SumBy(instances, UsesOf(l.lineIndex))
    {
      ClaimCounts(rem, flat, l.lineIndex);
      InstancesUseTheirUnits(b, Groups(b, units), l.lineIndex);
    }
    FreeIsWhatIsLeft(eligible, instances, b, Claim(rem, flat));
  }

  lemma {:induction false} QuantitiesNonNegative(lines: seq<Line>, index: nat)
    ensures Left(Quantities(lines), index) >= 0
  {
    if lines != [] {
      QuantitiesNonNegative(lines[..|lines| - 1], index);
    }
  }

  // ------------------------------------------------------------ an offer that is completed

  function One(): Unit -> int { (u: Unit) => 1 }

  lemma {:induction false} CountIsLength(units: seq<Unit>)
    ensures SumBy(units, One()) == |units|
  {
    SumConstant(units, 1, One());
  }

  /** Either no group can follow, or the next one is the first slice of the bucket. */
  lemma {:induction false} NextSlice(b: Bundle, size: nat, bucket: Bucket, formedAny: bool) returns (taken: bool, rest: Bucket)
    requires !b.requireDifferentPhoneModels && size > 0
    ensures taken ==> size <= |bucket.units| && rest.units == bucket.units[size..]
    ensures taken ==> FormGroups(b, size, [bucket], formedAny) == [bucket.units[..size]] + FormGroups(b, size, [rest], true)
    ensures !taken ==> FormGroups(b, size, [bucket], formedAny) == []
    ensures taken <==> size <= |bucket.units| && (b.isRepeatable || !formedAny) && Discount(b, bucket.units[..size]) >= 0
  {
    taken, rest := false, bucket;
    if |bucket.units| >= size && (b.isRepeatable || !formedAny) {
      NextFromBucket(b, size, bucket, formedAny);
      taken := Discount(b, bucket.units[..size]) >= 0;
      rest := Bucket(bucket.key, bucket.units[size..]);
    } else {
      assert NonEmpty([bucket]) == if bucket.units == [] then [] else [bucket];
      SumOne(bucket, UnitsIn);
    }
  }

  lemma {:induction false} SliceThenPrefix(units: seq<Unit>, size: nat, n: nat)
    requires size + n <= |units|
    ensures units[..size] + units[size..][..n] == units[..size + n]
  {
  }

  /** From a single bucket the groups are consecutive slices of the dearest units. */
  lemma {:induction false} GroupsArePrefix(b: Bundle, size: nat, bucket: Bucket, formedAny: bool)
    requires !b.requireDifferentPhoneModels && size > 0
    ensures var groups := FormGroups(b, size, [bucket], formedAny);
            && |Flatten(groups)| <= |bucket.units|
            && Flatten(groups) == bucket.units[..|Flatten(groups)|]
            && |Flatten(groups)| == |groups| * size
    decreases |bucket.units|
  {
    var taken, rest := NextSlice(b, size, bucket, formedAny);
    if taken {
      GroupsArePrefix(b, size, rest, true);
      var later := FormGroups(b, size, [rest], true);
      FlattenHead(bucket.units[..size], later);
      SliceThenPrefix(bucket.units, size, |Flatten(later)|);
      OneMoreFactor(size, |later| + 1, |later|);
    }
  }

  lemma {:induction false} FlattenHead<T>(head: seq<T>, later: seq<seq<T>>)
    ensures Flatten([head] + later) == head + Flatten(later)
  {
    assert ([head] + later)[1..] == later;
  }

  lemma {:induction false} TotalOfGroups(b: Bundle, groups: seq<seq<Unit>>)
    ensures TotalDiscount(b, groups)
         == Subtotal(Flatten(groups)) - SumBy(Flatten(groups), SurchargeOf) - |groups| * b.fixedTotal
  {
    if groups != [] {
      TotalOfGroups(b, groups[1..]);
      SumConcat(groups[0], Flatten(groups[1..]), PriceOf);
      SumConcat(groups[0], Flatten(groups[1..]), SurchargeOf);
      OneMoreTimes(|groups|, b.fixedTotal);
    }
  }

  lemma {:induction false} SliceAffordable(b: Bundle, size: nat, units: seq<Unit>)
    requires !b.requireDifferentPhoneModels && size <= |units| && NeverNegative(b, size, multiset(units))
    ensures Discount(b, units[..size]) >= 0
    ensures NeverNegative(b, size, multiset(units[size..]))
  {
    assert units == units[..size] + units[size..];
    assert CompleteGroup(b, size, units[..size]);
  }

  /** When no group of these units loses money, all `n * size` of them get grouped. */
  lemma {:induction false} EveryUnitGrouped(b: Bundle, size: nat, bucket: Bucket, formedAny: bool, n: nat)
    requires !b.requireDifferentPhoneModels && size > 0 && |bucket.units| == size * n
    requires b.isRepeatable || n <= if formedAny then 0 else 1
    requires NeverNegative(b, size, multiset(bucket.units))
    ensures |FormGroups(b, size, [bucket], formedAny)| == n
    decreases n
  {
    if n == 0 {
      TooFewUnits(b, size, bucket, formedAny);
    } else {
      var left := n - 1;
      AtLeastOneSlice(size, n, left);
      var rest := FirstSliceTaken(b, size, bucket, formedAny);
      EveryUnitGrouped(b, size, rest, true, left);
    }
  }

  lemma {:induction false} TooFewUnits(b: Bundle, size: nat, bucket: Bucket, formedAny: bool)
    requires !b.requireDifferentPhoneModels && |bucket.units| < size
    ensures FormGroups(b, size, [bucket], formedAny) == []
  {
    var taken, _ := NextSlice(b, size, bucket, formedAny);
  }

  lemma {:induction false} AtLeastOneSlice(size: nat, n: nat, left: nat)
    requires n == left + 1
    ensures size * n == size * left + size && size * left >= 0
  {
  }

  lemma {:induction false} FirstSliceTaken(b: Bundle, size: nat, bucket: Bucket, formedAny: bool) returns (rest: Bucket)
    requires !b.requireDifferentPhoneModels && 0 < size <= |bucket.units| && (b.isRepeatable || !formedAny)
    requires NeverNegative(b, size, multiset(bucket.units))
    ensures |FormGroups(b, size, [bucket], formedAny)| == 1 + |FormGroups(b, size, [rest], true)|
    ensures |rest.units| == |bucket.units| - size && NeverNegative(b, size, multiset(rest.units))
  {
    var taken;
    taken, rest := NextSlice(b, size, bucket, formedAny);
    SliceAffordable(b, size, bucket.units);
    assert taken;
  }

  lemma {:induction false} AsSequence<T>(m: multiset<T>) returns (s: seq<T>)
    ensures multiset(s) == m
    decreases |m|
  {
    if m == multiset{} {
      s := [];
    } else {
      var x :| x in m;
      s := AsSequence(m - multiset{x});
      s := [x] + s;
    }
  }

  /** Splits a sub-collection of `a + c` into a part of `a` and a part of `c`. */
  lemma {:induction false} SplitIncluded<T>(g: seq<T>, a: seq<T>, c: seq<T>) returns (ga: seq<T>, gc: seq<T>)
    requires multiset(g) <= multiset(a) + multiset(c)
    ensures multiset(g) == multiset(ga) + multiset(gc)
    ensures multiset(ga) <= multiset(a) && multiset(gc) <= multiset(c)
  {
    ga := AsSequence(multiset(g) * multiset(a));
    gc := AsSequence(multiset(g) - multiset(a));
  }

  function Below(t: int): Unit -> int { (u: Unit) => if u.price < t then t - u.price else 0 }

  lemma {:induction false} SubtotalWithBelow(units: seq<Unit>, t: int)
    ensures Subtotal(units) >= t * |units| - SumBy(units, Below(t))
    ensures (forall u :: u in units ==> u.price <= t) ==> Subtotal(units) == t * |units| - SumBy(units, Below(t))
  {
    if units != [] {
      SubtotalWithBelow(units[1..], t);
      OneMoreTimes(|units|, t);
    }
  }

  lemma {:induction false} TailIsBelow(sorted: seq<Unit>, n: nat)
    requires Descending(sorted) && n < |sorted|
    ensures var t := sorted[n].price;
            && SumBy(sorted, Below(t)) == SumBy(sorted[n..], Below(t))
            && forall u :: u in sorted[n..] ==> u.price <= t
  {
    var t := sorted[n].price;
    SumSplit(sorted, n, Below(t));
    forall u | u in sorted[..n] ensures Below(t)(u) == 0 {
      var i :| 0 <= i < n && sorted[i] == u;
    }
    SumZero(sorted[..n], Below(t));
    forall u | u in sorted[n..] ensures u.price <= t {
      var i :| 0 <= i < |sorted[n..]| && sorted[n..][i] == u;
      assert sorted[n + i] == u;
    }
  }

  lemma {:induction false} MoreUnitsCostMore(n: int, m: int, t: int, least: int)
    requires n >= m && t >= least
    ensures t * n - t * m >= (n - m) * least
  {
    assert t * n - t * m == (n - m) * t;
  }

  /** Any sub-collection with at least as many units as the tail is worth the tail plus the least price a unit. */
  lemma {:induction false} TailIsCheapest(sorted: seq<Unit>, n: nat, chosen: seq<Unit>, least: nat)
    requires Descending(sorted) && n <= |sorted|
    requires multiset(chosen) <= multiset(sorted) && |chosen| >= |sorted| - n
    requires forall u :: u in sorted ==> u.price >= least
    ensures Subtotal(chosen) >= Subtotal(sorted[n..]) + (|chosen| - (|sorted| - n)) * least
  {
    forall u | u in chosen ensures u in sorted {
      assert u in multiset(chosen);
    }
    if n == |sorted| {
      AtLeastEach(chosen, least);
    } else {
      var t := sorted[n].price;
      TailIsBelow(sorted, n);
      SubtotalWithBelow(chosen, t);
      SubtotalWithBelow(sorted[n..], t);
      SumIncluded(chosen, sorted, Below(t));
      MoreUnitsCostMore(|chosen|, |sorted| - n, t, least);
    }
  }

  /** Every group of `size` units of the completed cart is worth at least what the offer assumed:
      the units already free at their price and every missing one at the least price. */
  lemma {:induction false} CompletedGroupWorth(sorted: seq<Unit>, n: nat, added: seq<Unit>, group: seq<Unit>, least: nat)
    requires Descending(sorted) && n <= |sorted|
    requires multiset(group) <= multiset(sorted) + multiset(added)
    requires |group| == |sorted| - n + |added|
    requires forall u :: u in sorted || u in added ==> u.price >= least
    ensures Subtotal(group) >= Subtotal(sorted[n..]) + |added| * least
  {
    var present, joining := SplitIncluded(group, sorted, added);
    assert |multiset(group)| == |multiset(present)| + |multiset(joining)|;
    IncludedIsNoLonger(joining, added);
    TailIsCheapest(sorted, n, present, least);
    forall u | u in joining ensures u.price >= least {
      assert u in multiset(joining) && u in multiset(added);
    }
    AtLeastEach(joining, least);
    assert multiset(group) == multiset(present + joining);
    SumRearranged(group, present + joining, PriceOf);
    SumConcat(present, joining, PriceOf);
    SharesAddUp(|present|, |sorted| - n, |joining|, |added|, least);
  }

  lemma {:induction false} SharesAddUp(present: int, free: int, joining: int, added: int, least: int)
    requires present + joining == free + added
    ensures (present - free) * least + joining * least == added * least
  {
    assert (present - free) * least + joining * least == (present - free + joining) * least;
  }

  // ------------------------------------------------------------ the promised saving

  ghost predicate WithinBounds(units: seq<Unit>, least: nat, most: nat) {
    forall u :: u in units ==> u.price >= least && u.surcharge <= most
  }

  /** The saving the offer announces, in terms of the units of the cart. */
  ghost predicate Announces(b: Bundle, units: seq<Unit>, needed: nat, saving: int)
    requires SizeOf(b) >= 2
  {
    && b.minUnitPrice.Some?
    && var groups := Groups(b, units);
    && (b.isRepeatable || groups == [])
    && needed == SizeOf(b) - (|units| - |Flatten(groups)|)
    && saving == Subtotal(units) - Subtotal(Flatten(groups)) + needed * b.minUnitPrice.value
                 - (b.fixedTotal + SizeOf(b) * WorstSurcharge(b))
  }

  lemma {:induction false} SortedGroups(b: Bundle, units: seq<Unit>) returns (sorted: seq<Unit>)
    requires SizeOf(b) >= 2 && !b.requireDifferentPhoneModels && units != []
    ensures Descending(sorted) && multiset(sorted) == multiset(units) && |sorted| == |units|
    ensures Groups(b, units) == FormGroups(b, SizeOf(b), [Bucket("__all__", sorted)], false)
  {
    sorted := DearestFirst(units);
    SortDescends(units);
    SortPermutes(units);
    SortedBucketForAll(b, units);
    assert |multiset(sorted)| == |multiset(units)|;
  }

  lemma {:induction false} WithinBoundsRearranged(a: seq<Unit>, c: seq<Unit>, least: nat, most: nat)
    requires multiset(a) <= multiset(c) && WithinBounds(c, least, most)
    ensures WithinBounds(a, least, most)
  {
    forall u | u in a ensures u.price >= least && u.surcharge <= most {
      assert u in multiset(a) && u in multiset(c);
    }
  }

  /** No group of the completed cart loses money. */
  lemma {:induction false} CompletedGroupsAffordable(b: Bundle, sorted: seq<Unit>, n: nat, added: seq<Unit>, saving: int)
    requires b.minUnitPrice.Some? && SizeOf(b) >= 2
    requires Descending(sorted) && n <= |sorted| && |sorted| - n + |added| == SizeOf(b)
    requires WithinBounds(sorted, b.minUnitPrice.value, WorstSurcharge(b))
    requires WithinBounds(added, b.minUnitPrice.value, WorstSurcharge(b))
    requires saving == Subtotal(sorted[n..]) + |added| * b.minUnitPrice.value
                       - (b.fixedTotal + SizeOf(b) * WorstSurcharge(b))
    requires saving >= 0
    ensures NeverNegative(b, SizeOf(b), multiset(sorted) + multiset(added))
  {
    forall g: seq<Unit> | CompleteGroup(b, SizeOf(b), g) && multiset(g) <= multiset(sorted) + multiset(added)
      ensures Discount(b, g) >= 0
    {
      CompletedGroupWorth(sorted, n, added, g, b.minUnitPrice.value);
      forall u | u in g ensures u.surcharge <= WorstSurcharge(b) {
        assert u in multiset(g);
      }
      AtMostEach(g, WorstSurcharge(b));
    }
  }

  lemma {:induction false} PrefixMeasures(sorted: seq<Unit>, units: seq<Unit>, flat: seq<Unit>, n: nat, f: Unit -> int)
    requires multiset(sorted) == multiset(units) && n <= |sorted| && flat == sorted[..n]
    ensures SumBy(sorted[n..], f) == SumBy(units, f) - SumBy(flat, f)
  {
    SumRearranged(sorted, units, f);
    SumSplit(sorted, n, f);
  }

  /** The completed cart holds one more full group's worth of units, and no group of it loses money. */
  lemma {:induction false} CompletedCart(b: Bundle, units: seq<Unit>, added: seq<Unit>, completed: seq<Unit>, saving: int)
    requires SizeOf(b) >= 2 && !b.requireDifferentPhoneModels && units != []
    requires multiset(completed) == multiset(units) + multiset(added)
    requires Announces(b, units, |added|, saving) && saving > 0
    requires WithinBounds(completed, b.minUnitPrice.value, WorstSurcharge(b))
    ensures |completed| == SizeOf(b) * |Groups(b, units)| + SizeOf(b)
    ensures NeverNegative(b, SizeOf(b), multiset(completed))
  {
    var groups := Groups(b, units);
    var sorted := SortedGroups(b, units);
    GroupsArePrefix(b, SizeOf(b), Bucket("__all__", sorted), false);
    var n := |Flatten(groups)|;
    PrefixMeasures(sorted, units, Flatten(groups), n, PriceOf);
    WithinBoundsRearranged(sorted, completed, b.minUnitPrice.value, WorstSurcharge(b));
    WithinBoundsRearranged(added, completed, b.minUnitPrice.value, WorstSurcharge(b));
    CompletedGroupsAffordable(b, sorted, n, added, saving);
    assert |multiset(completed)| == |multiset(units)| + |multiset(added)|;
  }

  lemma {:induction false} GroupsEverything(b: Bundle, units: seq<Unit>, n: nat)
    requires SizeOf(b) >= 2 && !b.requireDifferentPhoneModels && units != []
    requires |units| == SizeOf(b) * n && (b.isRepeatable || n <= 1)
    requires NeverNegative(b, SizeOf(b), multiset(units))
    ensures |Groups(b, units)| == n
    ensures multiset(Flatten(Groups(b, units))) == multiset(units)
  {
    var sorted := SortedGroups(b, units);
    BucketGroupsEverything(b, SizeOf(b), Bucket("__all__", sorted), n);
  }

  lemma {:induction false} BucketGroupsEverything(b: Bundle, size: nat, bucket: Bucket, n: nat)
    requires !b.requireDifferentPhoneModels && size > 0 && |bucket.units| == size * n
    requires b.isRepeatable || n <= 1
    requires NeverNegative(b, size, multiset(bucket.units))
    ensures |FormGroups(b, size, [bucket], false)| == n
    ensures Flatten(FormGroups(b, size, [bucket], false)) == bucket.units
  {
    TimesCommutes(n, size);
    EveryUnitGrouped(b, size, bucket, false, n);
    GroupsArePrefix(b, size, bucket, false);
  }

  lemma {:induction false} TimesCommutes(x: int, y: int)
    ensures x * y == y * x
  {
  }

  /** The completed cart groups every unit, one group more than before. */
  lemma {:induction false} CompletedCartGroupsAll(b: Bundle, units: seq<Unit>, added: seq<Unit>, completed: seq<Unit>, saving: int)
    requires SizeOf(b) >= 2 && !b.requireDifferentPhoneModels && units != []
    requires multiset(completed) == multiset(units) + multiset(added)
    requires Announces(b, units, |added|, saving) && saving > 0
    requires WithinBounds(completed, b.minUnitPrice.value, WorstSurcharge(b))
    ensures |Groups(b, completed)| == |Groups(b, units)| + 1
    ensures multiset(Flatten(Groups(b, completed))) == multiset(completed)
  {
    var m := |Groups(b, units)|;
    var more := m + 1;
    OneMoreFactor(SizeOf(b), more, m);
    CompletedCart(b, units, added, completed, saving);
    assert completed != [] by {
      assert units[0] in multiset(completed);
    }
    GroupsEverything(b, completed, more);
  }

  lemma {:induction false} FreeSurcharges(units: seq<Unit>, added: seq<Unit>, completed: seq<Unit>, flat: seq<Unit>, size: nat, most: nat)
    requires multiset(completed) == multiset(units) + multiset(added)
    requires multiset(flat) <= multiset(units) && |units| - |flat| + |added| == size
    requires forall u :: u in completed ==> u.surcharge <= most
    ensures SumBy(completed, SurchargeOf) <= SumBy(flat, SurchargeOf) + size * most
  {
    var rest := AsSequence(multiset(completed) - multiset(flat));
    assert multiset(completed) == multiset(flat + rest);
    assert |multiset(completed)| == |multiset(flat + rest)|;
    assert |multiset(completed)| == |multiset(units)| + |multiset(added)|;
    SumRearranged(completed, flat + rest, SurchargeOf);
    SumConcat(flat, rest, SurchargeOf);
    forall u | u in rest ensures u.surcharge <= most {
      assert u in multiset(rest) && u in multiset(completed);
    }
    AtMostEach(rest, most);
  }

  /** Adding the missing units saves at least the announced amount more, even though every unit is
      grouped afresh. */
  lemma {:induction false} CompletingSaves(b: Bundle, units: seq<Unit>, added: seq<Unit>, completed: seq<Unit>, saving: int)
    requires SizeOf(b) >= 2 && !b.requireDifferentPhoneModels && units != []
    requires multiset(completed) == multiset(units) + multiset(added)
    requires Announces(b, units, |added|, saving) && saving > 0
    requires WithinBounds(completed, b.minUnitPrice.value, WorstSurcharge(b))
    ensures TotalDiscount(b, Groups(b, completed)) >= TotalDiscount(b, Groups(b, units)) + saving
  {
    var groups, all := Groups(b, units), Groups(b, completed);
    CompletedCartGroupsAll(b, units, added, completed, saving);
    TotalOfGroups(b, groups);
    TotalOfGroups(b, all);
    OneMoreFactor(b.fixedTotal, |all|, |groups|);
    SumRearranged(Flatten(all), completed, PriceOf);
    SumRearranged(Flatten(all), completed, SurchargeOf);
    SumRearranged(completed, units + added, PriceOf);
    SumConcat(units, added, PriceOf);
    WithinBoundsRearranged(added, completed, b.minUnitPrice.value, WorstSurcharge(b));
    AtLeastEach(added, b.minUnitPrice.value);
    GroupsAreDisjoint(b, units);
    FreeSurcharges(units, added, completed, Flatten(groups), SizeOf(b), WorstSurcharge(b));
  }

  lemma {:induction false} AllOfOneBundle(b: Bundle, groups: seq<seq<Unit>>)
    ensures AppliedGroups(MakeInstances(b, groups), b.id) == |groups|
  {
    if groups != [] {
      AllOfOneBundle(b, groups[1..]);
      assert MakeInstances(b, groups)[1..] == MakeInstances(b, groups[1..]);
    }
  }

  function DiscountAmountOf(i: Instance): int { i.discountAmount }

  lemma {:induction false} InstancesSaveTheirGroups(b: Bundle, groups: seq<seq<Unit>>)
    ensures SumBy(MakeInstances(b, groups), DiscountAmountOf) == TotalDiscount(b, groups)
  {
    if groups != [] {
      InstancesSaveTheirGroups(b, groups[1..]);
      assert MakeInstances(b, groups)[1..] == MakeInstances(b, groups[1..]);
    }
  }

  lemma {:induction false} UnitsMatchQuantities(eligible: seq<Line>, rem: Remaining, b: Bundle)
    requires forall l :: l in eligible ==> Left(rem, l.lineIndex) == l.quantity
    ensures |UnitsLeft(eligible, rem, b)| == SumBy(eligible, QuantityIn)
  {
    if eligible != [] {
      assert eligible[0] in eligible;
      UnitsMatchQuantities(eligible[1..], rem, b);
      CopiesSum(UnitFor(eligible[0], b), eligible[0].quantity, One());
      CountIsLength(Copies(UnitFor(eligible[0], b), eligible[0].quantity));
    }
  }

  /** The offer's figures in terms of the cart's units and groups. */
  lemma {:induction false} OfferFigures(lines: seq<Line>, b: Bundle, couponIsApplied: bool)
    requires DistinctIndices(lines) && !Skipped(b, couponIsApplied)
    ensures var instances := Instances(lines, [b], couponIsApplied);
            var units := CartUnits(lines, b);
            var flat := Flatten(Groups(b, units));
            var free := FreeUnits(Eligible(lines, b), instances, b);
            && SumBy(Eligible(lines, b), QuantityIn) == |units|
            && AppliedGroups(instances, b.id) == |Groups(b, units)|
            && |free| == |units| - |flat|
            && Subtotal(free) == Subtotal(units) - Subtotal(flat)
  {
    var units := CartUnits(lines, b);
    QuantitiesOfEligible(lines, b);
    UnitsMatchQuantities(Eligible(lines, b), Quantities(lines), b);
    SingleBundleInstances(lines, b, couponIsApplied);
    AllOfOneBundle(b, Groups(b, units));
    FreeUnitsMeasure(lines, b, couponIsApplied, PriceOf);
    FreeUnitsMeasure(lines, b, couponIsApplied, One());
    CountIsLength(FreeUnits(Eligible(lines, b), Instances(lines, [b], couponIsApplied), b));
    CountIsLength(units);
    CountIsLength(Flatten(Groups(b, units)));
  }

  /** What the storefront announces for a single any-models bundle, read back as facts about its units. */
  lemma {:induction false} AnnouncedSaving(lines: seq<Line>, b: Bundle, couponIsApplied: bool)
    requires DistinctIndices(lines) && !b.requireDifferentPhoneModels
    requires var p := ProgressFor(lines, b, Instances(lines, [b], couponIsApplied), couponIsApplied);
             p.Some? && p.value.savingsIfCompleted.Some?
    ensures var p := ProgressFor(lines, b, Instances(lines, [b], couponIsApplied), couponIsApplied).value;
            && !Skipped(b, couponIsApplied)
            && CartUnits(lines, b) != []
            && p.unitsNeeded.Some? && p.unitsNeeded.value > 0
            && p.savingsIfCompleted.value > 0
            && Announces(b, CartUnits(lines, b), p.unitsNeeded.value, p.savingsIfCompleted.value)
  {
    assert !Skipped(b, couponIsApplied);
    OfferFigures(lines, b, couponIsApplied);
  }

  /** The promise of `savingsIfCompleted`: with one active any-models bundle whose eligible units
      respect the advertised bounds, putting any `unitsNeeded` further eligible units into the cart
      (by whatever change of lines and quantities) raises the bundle discount by at least that much. */
  lemma {:induction false} SavingsIfCompletedIsKept(lines: seq<Line>, completed: seq<Line>, b: Bundle,
                                                    couponIsApplied: bool, added: seq<Unit>)
    requires DistinctIndices(lines) && DistinctIndices(completed) && !b.requireDifferentPhoneModels
    requires var p := ProgressFor(lines, b, Instances(lines, [b], couponIsApplied), couponIsApplied);
             p.Some? && p.value.savingsIfCompleted.Some? && p.value.unitsNeeded == Some(|added|)
    requires multiset(CartUnits(completed, b)) == multiset(CartUnits(lines, b)) + multiset(added)
    requires b.minUnitPrice.Some?
          && WithinBounds(CartUnits(completed, b), b.minUnitPrice.value, WorstSurcharge(b))
    ensures SumBy(Instances(completed, [b], couponIsApplied), DiscountAmountOf)
         >= SumBy(Instances(lines, [b], couponIsApplied), DiscountAmountOf)
            + ProgressFor(lines, b, Instances(lines, [b], couponIsApplied), couponIsApplied).value.savingsIfCompleted.value
  {
    AnnouncedSaving(lines, b, couponIsApplied);
    var saving := ProgressFor(lines, b, Instances(lines, [b], couponIsApplied), couponIsApplied).value.savingsIfCompleted.value;
    var units, more := CartUnits(lines, b), CartUnits(completed, b);
    CompletingSaves(b, units, added, more, saving);
    SingleBundleInstances(lines, b, couponIsApplied);
    SingleBundleInstances(completed, b, couponIsApplied);
    InstancesSaveTheirGroups(b, Groups(b, units));
    InstancesSaveTheirGroups(b, Groups(b, more));
  }

  // ------------------------------------------------------------ the offer shown is the best one

  predicate Shown(p: Progress) { p.bundleSize >= 2 }

  lemma {:induction false} CrossMultiply(a: int, x: int, b: int, y: int, c: int, z: int)
    requires x > 0 && y > 0 && z > 0 && a * y <= b * x && b * z <= c * y
    ensures a * z <= c * x
  {
    assert (a * z) * y == (a * y) * z;
    assert (a * y) * z <= (b * x) * z;
    assert (b * x) * z == (b * z) * x;
    assert (b * z) * x <= (c * y) * x;
    assert (c * y) * x == (c * x) * y;
    Cancel(a * z, c * x, y);
    assert y * (a * z) == (a * z) * y && y * (c * x) == (c * x) * y;
  }

  /** "Not better" is transitive. */
  lemma {:induction false} NotBetterTransitive(x: Progress, y: Progress, z: Progress)
    requires Shown(x) && Shown(y) && Shown(z) && !Better(x, y) && !Better(y, z)
    ensures !Better(x, z)
  {
    if y.fixedTotal * x.bundleSize <= x.fixedTotal * y.bundleSize && z.fixedTotal * y.bundleSize <= y.fixedTotal * z.bundleSize {
      CrossMultiply(z.fixedTotal, z.bundleSize, y.fixedTotal, y.bundleSize, x.fixedTotal, x.bundleSize);
    }
  }

  lemma {:induction false} BestIsUnbeaten(best: Progress, candidates: seq<Progress>)
    requires Shown(best) && forall c :: c in candidates ==> Shown(c)
    ensures var b := BestOf(best, candidates);
      && (b == best || b in candidates) && !Better(best, b)
      && forall c :: c in candidates ==> !Better(c, b)
    decreases |candidates|
  {
    if candidates != [] {
      var next := if Better(candidates[0], best) then candidates[0] else best;
      BestIsUnbeaten(next, candidates[1..]);
      var b := BestOf(best, candidates);
      if next == best {
        NotBetterTransitive(candidates[0], best, b);
      } else {
        BetterIsAsymmetric(candidates[0], best);
        NotBetterTransitive(best, candidates[0], b);
      }
    }
  }

  lemma {:induction false} BetterIsAsymmetric(x: Progress, y: Progress)
    requires Better(x, y)
    ensures !Better(y, x)
  {
  }

  lemma {:induction false} CandidatesAreShown(lines: seq<Line>, bundles: seq<Bundle>, instances: seq<Instance>, couponIsApplied: bool)
    ensures forall c :: c in Candidates(lines, bundles, instances, couponIsApplied) ==> Shown(c)
  {
    if bundles != [] {
      CandidatesAreShown(lines, bundles[1..], instances, couponIsApplied);
    }
  }

  /** The offer shown belongs to one of the bundles and no other candidate beats it: none has more groups
      applied, or as many and fewer units missing, or the same of both and a lower price per unit. */
  lemma {:induction false} ShownOfferIsBest(lines: seq<Line>, bundles: seq<Bundle>, instances: seq<Instance>, couponIsApplied: bool)
    ensures var candidates := Candidates(lines, bundles, instances, couponIsApplied);
            var shown := BundleProgressOf(lines, bundles, instances, couponIsApplied);
      && (shown.None? <==> candidates == [])
      && (shown.Some? ==> shown.value in candidates && forall c :: c in candidates ==> !Better(c, shown.value))
  {
    var candidates := Candidates(lines, bundles, instances, couponIsApplied);
    CandidatesAreShown(lines, bundles, instances, couponIsApplied);
    if candidates != [] {
      BestIsUnbeaten(candidates[0], candidates[1..]);
      assert candidates == [candidates[0]] + candidates[1..];
    }
  }
}

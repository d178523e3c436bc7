/** Which bundles of a list take part in a cart, and in which order: a coupon keeps out those that may not stack
    with it, and each takes its groups from what the ones before left
    (src/modules/promotions/bundles/bundle-pricing.util.ts). */
module BundleStacking {
  import opened Sums
  import opened DiscountAllocation
  import opened BundlePricing
  import opened BundleGrouping
  import opened BundleProgress

  // ------------------------------------------------------------ coupons

  function StackingOnly(bundles: seq<Bundle>): seq<Bundle> {
    if bundles == [] then []
    else (if bundles[0].allowCouponStacking then [bundles[0]] else []) + StackingOnly(bundles[1..])
  }

  lemma {:induction false} StackingBundles(bundles: seq<Bundle>)
    ensures forall b :: b in StackingOnly(bundles) <==> b in bundles && b.allowCouponStacking
  {
    if bundles != [] {
      StackingBundles(bundles[1..]);
      forall b ensures b in StackingOnly(bundles) <==> b in bundles && b.allowCouponStacking {
        assert b in bundles <==> b == bundles[0] || b in bundles[1..];
      }
    }
  }

  lemma {:induction false} NoneStacks(bundles: seq<Bundle>)
    requires forall b :: b in bundles ==> !b.allowCouponStacking
    ensures StackingOnly(bundles) == []
  {
    if bundles != [] {
      NoneStacks(bundles[1..]);
    }
  }

  lemma {:induction false} OthersArePassedOver(lines: seq<Line>, bundles: seq<Bundle>, rem: Remaining)
    ensures InstancesFrom(lines, bundles, rem, true) == InstancesFrom(lines, StackingOnly(bundles), rem, false)
    decreases |bundles|
  {
    if bundles != [] {
      var b, later := bundles[0], StackingOnly(bundles[1..]);
      if b.allowCouponStacking {
        OthersArePassedOver(lines, bundles[1..], Claim(rem, Flatten(BundleGroups(lines, rem, b, true))));
        assert StackingOnly(bundles) == [b] + later && ([b] + later)[1..] == later;
      } else {
        OthersArePassedOver(lines, bundles[1..], rem);
        assert BundleGroups(lines, rem, b, true) == [] && Flatten<Unit>([]) == [] && Claim(rem, []) == rem;
        assert StackingOnly(bundles) == later && MakeInstances(b, []) == [];
      }
    }
  }

  /** With a coupon applied, a cart gets exactly the instances it would get without one if only the bundles that
      stack with coupons existed. */
  lemma {:induction false} CouponLeavesStackingBundles(lines: seq<Line>, bundles: seq<Bundle>)
    ensures Instances(lines, bundles, true) == Instances(lines, StackingOnly(bundles), false)
    ensures forall b :: b in StackingOnly(bundles) <==> b in bundles && b.allowCouponStacking
  {
    OthersArePassedOver(lines, bundles, Quantities(lines));
    StackingBundles(bundles);
  }

  /** So every instance beside a coupon is a sound instance of a bundle that stacks, and there is none when no
      bundle does. */
  lemma {:induction false} BesideCouponOnlyStacking(lines: seq<Line>, bundles: seq<Bundle>)
    requires DistinctIndices(lines)
    ensures forall inst :: inst in Instances(lines, bundles, true) ==>
      exists b :: b in bundles && b.allowCouponStacking && SoundInstance(lines, b, inst)
    ensures (forall b :: b in bundles ==> !b.allowCouponStacking) ==> Instances(lines, bundles, true) == []
  {
    CouponLeavesStackingBundles(lines, bundles);
    EveryInstanceIsSound(lines, StackingOnly(bundles), false);
    forall inst | inst in Instances(lines, bundles, true)
      ensures exists b :: b in bundles && b.allowCouponStacking && SoundInstance(lines, b, inst)
    {
      assert SoundFor(lines, StackingOnly(bundles), inst);
      var b :| b in StackingOnly(bundles) && SoundInstance(lines, b, inst);
    }
    if forall b :: b in bundles ==> !b.allowCouponStacking {
      NoneStacks(bundles);
    }
  }

  /** A bundle on its own gets all its groups, unless a coupon keeps it out. */
  lemma {:induction false} BundleGetsItsGroups(lines: seq<Line>, b: Bundle, couponIsApplied: bool)
    requires SizeOf(b) >= 2
    ensures couponIsApplied && !b.allowCouponStacking ==> Instances(lines, [b], couponIsApplied) == []
    ensures !couponIsApplied || b.allowCouponStacking ==>
      Instances(lines, [b], couponIsApplied) == MakeInstances(b, Groups(b, CartUnits(lines, b)))
  {
    if couponIsApplied && !b.allowCouponStacking {
      OthersArePassedOver(lines, [b], Quantities(lines));
      assert StackingOnly([b]) == [];
    } else {
      SingleBundleInstances(lines, b, couponIsApplied);
    }
  }

  // ------------------------------------------------------------ one bundle after another

  /** The cart without the units these instances use. */
  function RestOfCart(lines: seq<Line>, instances: seq<Instance>): (rest: seq<Line>)
    ensures |rest| == |lines|
    ensures forall i :: 0 <= i < |lines| ==>
      var left := lines[i].quantity - SumBy(instances, UsesOf(lines[i].lineIndex));
      rest[i] == lines[i].(quantity := if left > 0 then left else 0)
  {
    seq(|lines|, i requires 0 <= i < |lines| =>
      var left := lines[i].quantity - SumBy(instances, UsesOf(lines[i].lineIndex));
      lines[i].(quantity := if left > 0 then left else 0))
  }

  /** The same lines but for their quantities, and as much left of each. */
  ghost predicate SameLeft(lines: seq<Line>, rem: Remaining, others: seq<Line>, left: Remaining) {
    && |lines| == |others|
    && (forall i :: 0 <= i < |lines| ==> others[i] == lines[i].(quantity := others[i].quantity))
    && (forall i :: 0 <= i < |lines| ==> Left(rem, lines[i].lineIndex) == Left(left, lines[i].lineIndex))
  }

  lemma {:induction false} FirstUnitsLeft(lines: seq<Line>, rem: Remaining, b: Bundle)
    requires lines != []
    ensures UnitsLeft(Eligible(lines, b), rem, b)
         == (if MayFill(lines[0], b) then Copies(UnitFor(lines[0], b), Left(rem, lines[0].lineIndex)) else [])
            + UnitsLeft(Eligible(lines[1..], b), rem, b)
  {
    var later := Eligible(lines[1..], b);
    assert ([lines[0]] + later)[1..] == later && [] + later == later;
  }

  lemma {:induction false} SameUnitsLeft(lines: seq<Line>, rem: Remaining, others: seq<Line>, left: Remaining, b: Bundle)
    requires SameLeft(lines, rem, others, left)
    ensures UnitsLeft(Eligible(lines, b), rem, b) == UnitsLeft(Eligible(others, b), left, b)
  {
    if lines != [] {
      assert forall i :: 0 <= i < |lines| - 1 ==> lines[1..][i] == lines[i + 1] && others[1..][i] == others[i + 1];
      SameUnitsLeft(lines[1..], rem, others[1..], left, b);
      assert MayFill(lines[0], b) == MayFill(others[0], b) && UnitFor(lines[0], b) == UnitFor(others[0], b);
      FirstUnitsLeft(lines, rem, b);
      FirstUnitsLeft(others, left, b);
    }
  }

  lemma {:induction false} SameClaims(lines: seq<Line>, rem: Remaining, others: seq<Line>, left: Remaining, units: seq<Unit>)
    requires SameLeft(lines, rem, others, left)
    ensures SameLeft(lines, Claim(rem, units), others, Claim(left, units))
  {
    forall i | 0 <= i < |lines| ensures Left(Claim(rem, units), lines[i].lineIndex) == Left(Claim(left, units), lines[i].lineIndex) {
      ClaimCounts(rem, units, lines[i].lineIndex);
      ClaimCounts(left, units, lines[i].lineIndex);
    }
  }

  lemma {:induction false} SameInstances(lines: seq<Line>, rem: Remaining, others: seq<Line>, left: Remaining, bundles: seq<Bundle>,
                                         couponIsApplied: bool)
    requires SameLeft(lines, rem, others, left)
    ensures InstancesFrom(lines, bundles, rem, couponIsApplied) == InstancesFrom(others, bundles, left, couponIsApplied)
    decreases |bundles|
  {
    if bundles != [] {
      SameUnitsLeft(lines, rem, others, left, bundles[0]);
      var flat := Flatten(BundleGroups(lines, rem, bundles[0], couponIsApplied));
      SameClaims(lines, rem, others, left, flat);
      SameInstances(lines, Claim(rem, flat), others, Claim(left, flat), bundles[1..], couponIsApplied);
    }
  }

  lemma {:induction false} RestIsWhatIsLeft(lines: seq<Line>, b: Bundle, couponIsApplied: bool)
    requires DistinctIndices(lines)
    ensures var groups := BundleGroups(lines, Quantities(lines), b, couponIsApplied);
            var rest := RestOfCart(lines, MakeInstances(b, groups));
      SameLeft(lines, Claim(Quantities(lines), Flatten(groups)), rest, Quantities(rest))
  {
    var rem, groups := Quantities(lines), BundleGroups(lines, Quantities(lines), b, couponIsApplied);
    var rest := RestOfCart(lines, MakeInstances(b, groups));
    forall i | 0 <= i < |lines| ensures Left(Claim(rem, Flatten(groups)), lines[i].lineIndex) == Left(Quantities(rest), lines[i].lineIndex) {
      QuantityOf(lines, i);
      QuantityOf(rest, i);
      BundleClaims(lines, rem, b, couponIsApplied, lines[i].lineIndex);
      ClaimCounts(rem, Flatten(groups), lines[i].lineIndex);
      InstancesUseTheirUnits(b, groups, lines[i].lineIndex);
    }
  }

  lemma {:induction false} FirstInstances(lines: seq<Line>, b: Bundle, couponIsApplied: bool)
    ensures Instances(lines, [b], couponIsApplied) == MakeInstances(b, BundleGroups(lines, Quantities(lines), b, couponIsApplied))
  {
    var groups := BundleGroups(lines, Quantities(lines), b, couponIsApplied);
    assert [b][1..] == [];
    assert InstancesFrom(lines, [], Claim(Quantities(lines), Flatten(groups)), couponIsApplied) == [];
  }

  /** The bundles are served in the order of their list: the first as if it were alone, the others from the cart
      without the units it used. */
  lemma {:induction false} BundlesAreServedInOrder(lines: seq<Line>, bundles: seq<Bundle>, couponIsApplied: bool)
    requires DistinctIndices(lines)
    ensures bundles == [] ==> Instances(lines, bundles, couponIsApplied) == []
    ensures bundles != [] ==>
      var own := Instances(lines, [bundles[0]], couponIsApplied);
      Instances(lines, bundles, couponIsApplied) == own + Instances(RestOfCart(lines, own), bundles[1..], couponIsApplied)
  {
    if bundles != [] {
      var b := bundles[0];
      var groups := BundleGroups(lines, Quantities(lines), b, couponIsApplied);
      var rest := RestOfCart(lines, MakeInstances(b, groups));
      FirstInstances(lines, b, couponIsApplied);
      RestIsWhatIsLeft(lines, b, couponIsApplied);
      SameInstances(lines, Claim(Quantities(lines), Flatten(groups)), rest, Quantities(rest), bundles[1..], couponIsApplied);
    }
  }

  // ------------------------------------------------------------ the shares of an instance's units

  ghost function UnitPrices(lines: seq<Line>, inst: Instance): (prices: seq<int>)
    ensures |prices| == |inst.unitAllocations|
  {
    seq(|inst.unitAllocations|, k requires 0 <= k < |inst.unitAllocations| => PriceAt(lines)(inst.unitAllocations[k]))
  }

  function UnitDiscounts(inst: Instance): (discounts: seq<int>)
    ensures |discounts| == |inst.unitAllocations|
  {
    seq(|inst.unitAllocations|, k requires 0 <= k < |inst.unitAllocations| => inst.unitAllocations[k].discount)
  }

  /** An instance's discount is split over its units in proportion to their prices. */
  ghost predicate SharedByPrice(lines: seq<Line>, inst: Instance) {
    inst.discountAmount > 0 ==>
      Total(UnitPrices(lines, inst)) > 0 && Proportional(UnitPrices(lines, inst), inst.discountAmount, UnitDiscounts(inst))
  }

  lemma {:induction false} GroupPrices(lines: seq<Line>, b: Bundle, group: seq<Unit>)
    requires SoundGroup(lines, b, group)
    ensures UnitPrices(lines, MakeInstance(b, group)) == Prices(group)
  {
    var inst := MakeInstance(b, group);
    forall k | 0 <= k < |group| ensures PriceAt(lines)(inst.unitAllocations[k]) == group[k].price {
      assert inst.unitAllocations[k].lineIndex == group[k].lineIndex;
    }
  }

  lemma {:induction false} GroupDiscounts(b: Bundle, group: seq<Unit>)
    ensures UnitDiscounts(MakeInstance(b, group)) == Allocate(Prices(group), Discount(b, group))
  {
  }

  lemma {:induction false} GroupIsSharedByPrice(lines: seq<Line>, b: Bundle, group: seq<Unit>)
    requires SoundGroup(lines, b, group)
    ensures SharedByPrice(lines, MakeInstance(b, group))
  {
    GroupPrices(lines, b, group);
    GroupDiscounts(b, group);
    PricesTotal(group);
    SumNonNegative(group, SurchargeOf);
    if Discount(b, group) > 0 {
      AllocateIsProportional(Prices(group), Discount(b, group));
    }
  }

  lemma {:induction false} GroupsAreSharedByPrice(lines: seq<Line>, b: Bundle, groups: seq<seq<Unit>>)
    requires forall g :: g in groups ==> SoundGroup(lines, b, g)
    ensures forall inst :: inst in MakeInstances(b, groups) ==> SharedByPrice(lines, inst)
  {
    if groups != [] {
      GroupsAreSharedByPrice(lines, b, groups[1..]);
      GroupIsSharedByPrice(lines, b, groups[0]);
    }
  }

  lemma {:induction false} InstancesFromShared(lines: seq<Line>, bundles: seq<Bundle>, rem: Remaining, couponIsApplied: bool)
    requires DistinctIndices(lines)
    ensures forall inst :: inst in InstancesFrom(lines, bundles, rem, couponIsApplied) ==> SharedByPrice(lines, inst)
    decreases |bundles|
  {
    if bundles != [] {
      var groups := BundleGroups(lines, rem, bundles[0], couponIsApplied);
      BundleGroupsSound(lines, rem, bundles[0], couponIsApplied);
      GroupsAreSharedByPrice(lines, bundles[0], groups);
      InstancesFromShared(lines, bundles[1..], Claim(rem, Flatten(groups)), couponIsApplied);
    }
  }

  /** Every unit of an instance gets its proportional part of the discount, rounded down, or one of the few units
      the rounding leaves over besides. */
  lemma {:induction false} UnitsShareByPrice(lines: seq<Line>, bundles: seq<Bundle>, couponIsApplied: bool)
    requires DistinctIndices(lines)
    ensures forall inst :: inst in Instances(lines, bundles, couponIsApplied) ==> SharedByPrice(lines, inst)
  {
    InstancesFromShared(lines, bundles, Quantities(lines), couponIsApplied);
  }
}

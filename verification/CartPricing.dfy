/** Pricing of a cart: availability, bundles first, then the coupon on what bundles left
    (src/modules/cart/cart-pricing.service.ts, src/modules/orders/checkout.service.ts). */
module CartPricing {
  import opened Options
  import opened Sums
  import opened BundlePricing
  import opened BundleGrouping
  import opened BundleProgress

  datatype StockLevel = StockLevel(id: string, onHand: int, reserved: int)

  datatype Variant = Variant(
    id: string,
    productId: string,
    price: nat,
    customizationPrice: nat,
    isPersonalizable: bool,
    isActive: bool,
    productPublished: bool,
    isUnlimitedStock: bool,
    stockItem: Option<StockLevel>,
    currency: string,
    phoneModelId: Option<string>,
    phoneBrandId: Option<string>,
    caseTypeId: Option<string>,
    collectionIds: seq<string>)

  datatype CartItem = CartItem(id: string, variant: Variant, quantity: nat, hasCustomDesign: bool)

  datatype CouponKind = Fixed | Percentage

  datatype Coupon = Coupon(
    id: string,
    kind: CouponKind,
    value: nat,
    isActive: bool,
    startsAt: Option<int>,
    expiresAt: Option<int>,
    minSpend: Option<int>,
    usageLimit: Option<int>,
    usageCount: int)

  datatype Cart = Cart(id: string, currency: string, items: seq<CartItem>, coupon: Option<Coupon>)

  datatype CouponProblem = Inactive | NotStarted | Expired | BelowMinimumSpend | UsageLimitReached

  datatype Unavailable = NotSold | OutOfStock | DesignMissing

  datatype ItemView = ItemView(
    unitPrice: int,
    quantity: nat,
    lineSubtotal: int,
    unavailableReason: Option<Unavailable>,
    bundleDiscount: int)

  datatype CartView = CartView(
    items: seq<ItemView>,
    subtotal: int,
    discountTotal: int,
    bundleDiscountTotal: int,
    bundleProgress: Option<Progress>,
    total: int,
    couponWarning: Option<CouponProblem>)

  function EffectiveUnitPrice(v: Variant): nat {
    v.price + if v.isPersonalizable then v.customizationPrice else 0
  }

  function UnavailableReason(item: CartItem): Option<Unavailable> {
    var v := item.variant;
    var hasStock := if v.stockItem.Some? then v.stockItem.value.onHand - v.stockItem.value.reserved > 0
                    else v.isUnlimitedStock;
    if !v.productPublished || !v.isActive then Some(NotSold)
    else if !hasStock then Some(OutOfStock)
    else if v.isPersonalizable && !item.hasCustomDesign then Some(DesignMissing)
    else None
  }

  predicate IsAvailable(item: CartItem) { UnavailableReason(item).None? }

  function SourceLine(item: CartItem, lineIndex: nat): Line {
    var v := item.variant;
    Line(lineIndex, v.id, v.phoneModelId, EffectiveUnitPrice(v), item.quantity, v.currency,
         Some(v.productId), v.caseTypeId, v.phoneBrandId, v.collectionIds)
  }

  /** The available items as pricing lines; each keeps its position in the whole cart. */
  function SourceLines(items: seq<CartItem>): seq<Line> {
    if items == [] then []
    else
      var n := |items| - 1;
      SourceLines(items[..n]) + if IsAvailable(items[n]) then [SourceLine(items[n], n)] else []
  }

  function ComputeDiscount(coupon: Coupon, subtotal: int): int {
    if subtotal <= 0 then 0
    else Min(if coupon.kind == Fixed then coupon.value else subtotal * coupon.value / 100, subtotal)
  }

  function FindCouponProblem(coupon: Coupon, subtotal: int, now: int): Option<CouponProblem> {
    if !coupon.isActive then Some(Inactive)
    else if coupon.startsAt.Some? && coupon.startsAt.value > now then Some(NotStarted)
    else if coupon.expiresAt.Some? && coupon.expiresAt.value < now then Some(Expired)
    else if coupon.minSpend.Some? && subtotal < coupon.minSpend.value then Some(BelowMinimumSpend)
    else if coupon.usageLimit.Some? && coupon.usageCount >= coupon.usageLimit.value then Some(UsageLimitReached)
    else None
  }

  function LineSubtotal(item: CartItem): int { EffectiveUnitPrice(item.variant) * item.quantity }

  function AvailableSubtotal(item: CartItem): int { if IsAvailable(item) then LineSubtotal(item) else 0 }

  function SubtotalOf(items: seq<CartItem>): int { SumBy(items, AvailableSubtotal) }

  function CouponWarning(cart: Cart, now: int): Option<CouponProblem> {
    if cart.coupon.None? then None else FindCouponProblem(cart.coupon.value, SubtotalOf(cart.items), now)
  }

  predicate CouponIsApplied(cart: Cart, now: int) {
    cart.coupon.Some? && CouponWarning(cart, now).None?
  }

  function CartInstances(cart: Cart, bundles: seq<Bundle>, now: int): seq<Instance> {
    Instances(SourceLines(cart.items), bundles, CouponIsApplied(cart, now))
  }

  /** The measure `f`, restricted to the allocations of one line. */
  function OnlyLine(f: UnitAllocation -> int, index: nat): UnitAllocation -> int {
    (a: UnitAllocation) => if a.lineIndex == index then f(a) else 0
  }

  function ShareOn(index: nat): UnitAllocation -> int { OnlyLine(DiscountOf, index) }

  lemma {:induction false} ShareOfOne(a: UnitAllocation, index: nat)
    ensures ShareOn(index)(a) == if a.lineIndex == index then a.discount else 0
  {
    assert DiscountOf(a) == a.discount;
  }

  /** Bundle discount an instance gives to one cart line. */
  function InstanceShareOn(index: nat): Instance -> int {
    (i: Instance) => SumBy(i.unitAllocations, ShareOn(index))
  }

  function BundleShare(instances: seq<Instance>, index: nat): int { SumBy(instances, InstanceShareOn(index)) }

  function ItemViews(items: seq<CartItem>, instances: seq<Instance>): (views: seq<ItemView>)
    ensures |views| == |items|
  {
    seq(|items|, i requires 0 <= i < |items| =>
      ItemView(EffectiveUnitPrice(items[i].variant), items[i].quantity, LineSubtotal(items[i]),
               UnavailableReason(items[i]), BundleShare(instances, i)))
  }

  function ViewOf(cart: Cart, bundles: seq<Bundle>, now: int): CartView {
    var instances := CartInstances(cart, bundles, now);
    var subtotal := SubtotalOf(cart.items);
    var bundleDiscountTotal := SumBy(instances, DiscountAmountOf);
    var discountTotal := if CouponIsApplied(cart, now)
                         then ComputeDiscount(cart.coupon.value, subtotal - bundleDiscountTotal) else 0;
    CartView(ItemViews(cart.items, instances), subtotal, discountTotal, bundleDiscountTotal,
             BundleProgressOf(SourceLines(cart.items), bundles, instances, CouponIsApplied(cart, now)),
             subtotal - discountTotal - bundleDiscountTotal, CouponWarning(cart, now))
  }

  // ------------------------------------------------------------ the computation

  function MapValue(m: map<nat, int>, k: nat): int { if k in m then m[k] else 0 }

  method BundleTotals(instances: seq<Instance>) returns (byLine: map<nat, int>, total: int)
    ensures total == SumBy(instances, DiscountAmountOf)
    ensures forall index: nat :: MapValue(byLine, index) == BundleShare(instances, index)
  {
    byLine, total := map[], 0;
    for k := 0 to |instances|
      invariant total == SumBy(instances[..k], DiscountAmountOf)
      invariant forall index: nat :: MapValue(byLine, index) == BundleShare(instances[..k], index)
    {
      assert instances[..k + 1] == instances[..k] + [instances[k]];
      SumSnoc(instances[..k], instances[k], DiscountAmountOf);
      total := total + instances[k].discountAmount;
      ghost var before := byLine;
      byLine := AddAllocations(byLine, instances[k].unitAllocations);
      forall index: nat ensures MapValue(byLine, index) == BundleShare(instances[..k + 1], index) {
        assert MapValue(before, index) == BundleShare(instances[..k], index);
        SumSnoc(instances[..k], instances[k], InstanceShareOn(index));
      }
    }
    assert instances[..|instances|] == instances;
  }

  method AddAllocations(before: map<nat, int>, allocations: seq<UnitAllocation>) returns (byLine: map<nat, int>)
    ensures forall index: nat :: MapValue(byLine, index) == MapValue(before, index) + SumBy(allocations, ShareOn(index))
  {
    byLine := before;
    for j := 0 to |allocations|
      invariant forall index: nat :: MapValue(byLine, index) == MapValue(before, index) + SumBy(allocations[..j], ShareOn(index))
    {
      var a := allocations[j];
      ghost var previous := byLine;
      byLine := byLine[a.lineIndex := MapValue(byLine, a.lineIndex) + a.discount];
      assert allocations[..j + 1] == allocations[..j] + [a];
      forall index: nat
        ensures MapValue(byLine, index) == MapValue(before, index) + SumBy(allocations[..j + 1], ShareOn(index))
      {
        assert MapValue(previous, index) == MapValue(before, index) + SumBy(allocations[..j], ShareOn(index));
        SumSnoc(allocations[..j], a, ShareOn(index));
        ShareOfOne(a, index);
      }
    }
    assert allocations[..|allocations|] == allocations;
  }

  method BuildItems(items: seq<CartItem>, byLine: map<nat, int>, ghost instances: seq<Instance>) returns (views: seq<ItemView>)
    requires forall index: nat :: MapValue(byLine, index) == BundleShare(instances, index)
    ensures views == ItemViews(items, instances)
  {
    views := [];
    for i := 0 to |items|
      invariant |views| == i
      invariant forall j :: 0 <= j < i ==> views[j] == ItemViews(items, instances)[j]
    {
      var item := items[i];
      views := views + [ItemView(EffectiveUnitPrice(item.variant), item.quantity, LineSubtotal(item),
                                 UnavailableReason(item), MapValue(byLine, i))];
    }
  }

  /** The cart view: bundles are computed before the coupon's amount, with the coupon's validity
      already known. */
  method BuildView(cart: Cart, bundles: seq<Bundle>, now: int) returns (view: CartView)
    ensures view == ViewOf(cart, bundles, now)
  {
    var subtotal := SubtotalOf(cart.items);
    var couponWarning := None;
    if cart.coupon.Some? {
      couponWarning := FindCouponProblem(cart.coupon.value, subtotal, now);
    }
    assert couponWarning == CouponWarning(cart, now);
    var couponIsApplied := cart.coupon.Some? && couponWarning.None?;
    var lines := SourceLines(cart.items);
    var instances := ComputeBundleInstances(lines, bundles, couponIsApplied);
    assert couponIsApplied == CouponIsApplied(cart, now) && instances == CartInstances(cart, bundles, now);
    var progress := ComputeBundleProgress(lines, bundles, instances, couponIsApplied);
    var byLine, bundleDiscountTotal := BundleTotals(instances);
    var items := BuildItems(cart.items, byLine, instances);
    var eligibleForCoupon := subtotal - bundleDiscountTotal;
    var discountTotal := if couponIsApplied then ComputeDiscount(cart.coupon.value, eligibleForCoupon) else 0;
    view := CartView(items, subtotal, discountTotal, bundleDiscountTotal, progress,
                     subtotal - discountTotal - bundleDiscountTotal, couponWarning);
  }

  // ------------------------------------------------------------ the lines of a cart

  lemma {:induction false} SourceLinesIndexed(items: seq<CartItem>)
    ensures DistinctIndices(SourceLines(items))
    ensures forall l :: l in SourceLines(items) ==>
      l.lineIndex < |items| && IsAvailable(items[l.lineIndex]) && l == SourceLine(items[l.lineIndex], l.lineIndex)
  {
    if items != [] {
      var n := |items| - 1;
      SourceLinesIndexed(items[..n]);
      var before := SourceLines(items[..n]);
      forall l | l in before
        ensures l.lineIndex < n && IsAvailable(items[l.lineIndex]) && l == SourceLine(items[l.lineIndex], l.lineIndex)
      {
        assert items[..n][l.lineIndex] == items[l.lineIndex];
      }
      var all := SourceLines(items);
      forall i, j | 0 <= i < j < |all| ensures all[i].lineIndex != all[j].lineIndex {
        assert all[i] == before[i] && before[i] in before;
      }
    }
  }

  lemma {:induction false} AvailableLinePresent(items: seq<CartItem>, i: nat)
    requires i < |items| && IsAvailable(items[i])
    ensures SourceLine(items[i], i) in SourceLines(items)
  {
    var n := |items| - 1;
    if i < n {
      assert items[..n][i] == items[i];
      AvailableLinePresent(items[..n], i);
    }
  }

  /** Every discounted unit belongs to an available line and is discounted by at most its price. */
  ghost predicate PricedAgainst(items: seq<CartItem>, inst: Instance) {
    && (forall k :: 0 <= k < |inst.unitAllocations| ==>
          var a := inst.unitAllocations[k];
          a.lineIndex < |items| && IsAvailable(items[a.lineIndex])
          && 0 <= a.discount <= EffectiveUnitPrice(items[a.lineIndex].variant))
    && SumBy(inst.unitAllocations, DiscountOf) == inst.discountAmount
    && SumBy(inst.unitAllocations, UnitPriceOn(items)) == inst.normalSubtotal
  }

  function UnitPriceOn(items: seq<CartItem>): UnitAllocation -> int {
    (a: UnitAllocation) => if a.lineIndex < |items| then EffectiveUnitPrice(items[a.lineIndex].variant) else 0
  }

  lemma {:induction false} CartInstancesPriced(cart: Cart, bundles: seq<Bundle>, now: int)
    ensures forall inst :: inst in CartInstances(cart, bundles, now) ==> PricedAgainst(cart.items, inst)
  {
    var lines := SourceLines(cart.items);
    SourceLinesIndexed(cart.items);
    EveryInstanceIsSound(lines, bundles, CouponIsApplied(cart, now));
    forall inst | inst in CartInstances(cart, bundles, now) ensures PricedAgainst(cart.items, inst) {
      assert SoundFor(lines, bundles, inst);
      var b :| b in bundles && SoundInstance(lines, b, inst);
      forall k | 0 <= k < |inst.unitAllocations|
        ensures var a := inst.unitAllocations[k];
          a.lineIndex < |cart.items| && IsAvailable(cart.items[a.lineIndex])
          && 0 <= a.discount <= EffectiveUnitPrice(cart.items[a.lineIndex].variant)
      {
        var line := LineAt(lines, inst.unitAllocations[k].lineIndex);
      }
      forall a | a in inst.unitAllocations ensures UnitPriceOn(cart.items)(a) == PriceAt(lines)(a) {
        var k :| 0 <= k < |inst.unitAllocations| && inst.unitAllocations[k] == a;
      }
      SumEqual(inst.unitAllocations, UnitPriceOn(cart.items), PriceAt(lines));
    }
  }

  /** No cart line is used by bundles more often than its quantity. */
  lemma {:induction false} CartUsesWithinQuantity(cart: Cart, bundles: seq<Bundle>, now: int, i: nat)
    requires i < |cart.items|
    ensures 0 <= SumBy(CartInstances(cart, bundles, now), UsesOf(i)) <= cart.items[i].quantity
  {
    var lines := SourceLines(cart.items);
    var instances := CartInstances(cart, bundles, now);
    SourceLinesIndexed(cart.items);
    forall inst | inst in instances ensures UsesOf(i)(inst) >= 0 {
      SumNonNegative(inst.unitAllocations, AllocationOn(i));
    }
    SumNonNegative(instances, UsesOf(i));
    if IsAvailable(cart.items[i]) {
      AvailableLinePresent(cart.items, i);
      var k :| 0 <= k < |lines| && lines[k] == SourceLine(cart.items[i], i);
      NoUnitClaimedTwice(lines, bundles, CouponIsApplied(cart, now), k);
    } else {
      CartInstancesPriced(cart, bundles, now);
      forall inst | inst in instances ensures UsesOf(i)(inst) == 0 {
        assert PricedAgainst(cart.items, inst);
        forall a | a in inst.unitAllocations ensures AllocationOn(i)(a) == 0 {
          var m :| 0 <= m < |inst.unitAllocations| && inst.unitAllocations[m] == a;
        }
        SumZero(inst.unitAllocations, AllocationOn(i));
      }
      SumZero(instances, UsesOf(i));
    }
  }

  // ------------------------------------------------------------ discount per line

  function PriceTimes(price: int, f: UnitAllocation -> int): UnitAllocation -> int {
    (a: UnitAllocation) => price * f(a)
  }

  lemma {:induction false} ShareWithinPrice(items: seq<CartItem>, inst: Instance, i: nat)
    requires PricedAgainst(items, inst) && i < |items|
    ensures 0 <= InstanceShareOn(i)(inst) <= EffectiveUnitPrice(items[i].variant) * UsesOf(i)(inst)
  {
    var price := EffectiveUnitPrice(items[i].variant);
    forall a | a in inst.unitAllocations ensures 0 <= ShareOn(i)(a) <= PriceTimes(price, AllocationOn(i))(a) {
      var m :| 0 <= m < |inst.unitAllocations| && inst.unitAllocations[m] == a;
      ShareOfOne(a, i);
      if a.lineIndex == i {
        assert price * 1 == price;
      }
    }
    SumNonNegative(inst.unitAllocations, ShareOn(i));
    SumMonotone(inst.unitAllocations, ShareOn(i), PriceTimes(price, AllocationOn(i)));
    SumScaled(inst.unitAllocations, price, AllocationOn(i), PriceTimes(price, AllocationOn(i)));
  }

  function PriceTimesUses(price: int, index: nat): Instance -> int {
    (inst: Instance) => price * UsesOf(index)(inst)
  }

  /** A line's bundle discount is worth at most the units of it that bundles use. */
  lemma {:induction false} SharesWithinPrice(items: seq<CartItem>, instances: seq<Instance>, i: nat)
    requires i < |items| && forall inst :: inst in instances ==> PricedAgainst(items, inst)
    ensures 0 <= BundleShare(instances, i) <= EffectiveUnitPrice(items[i].variant) * SumBy(instances, UsesOf(i))
  {
    var price := EffectiveUnitPrice(items[i].variant);
    forall inst | inst in instances
      ensures 0 <= InstanceShareOn(i)(inst) <= PriceTimesUses(price, i)(inst)
    {
      ShareWithinPrice(items, inst, i);
    }
    SumNonNegative(instances, InstanceShareOn(i));
    SumMonotone(instances, InstanceShareOn(i), PriceTimesUses(price, i));
    SumScaled(instances, price, UsesOf(i), PriceTimesUses(price, i));
  }

  /** `0, 1, .., n - 1`. */
  function Positions(n: nat): (s: seq<nat>)
    ensures |s| == n && forall i :: 0 <= i < n ==> s[i] == i
  {
    seq(n, i requires 0 <= i < n => i)
  }

  function ShareAt(instances: seq<Instance>): nat -> int { (i: nat) => BundleShare(instances, i) }

  function MeasureAt(allocations: seq<UnitAllocation>, f: UnitAllocation -> int): nat -> int {
    (i: nat) => SumBy(allocations, OnlyLine(f, i))
  }

  function SingleAt(a: UnitAllocation, f: UnitAllocation -> int): nat -> int { (i: nat) => OnlyLine(f, i)(a) }

  lemma {:induction false} SingleMeasure(n: nat, a: UnitAllocation, f: UnitAllocation -> int)
    ensures SumBy(Positions(n), SingleAt(a, f)) == if a.lineIndex < n then f(a) else 0
  {
    if n > 0 {
      var last: nat := n - 1;
      SingleMeasure(last, a, f);
      assert Positions(n) == Positions(last) + [last];
      SumSnoc<nat>(Positions(last), last, SingleAt(a, f));
      assert SumBy(Positions(n), SingleAt(a, f)) == SumBy(Positions(last), SingleAt(a, f)) + SingleAt(a, f)(last);
      assert SingleAt(a, f)(last) == OnlyLine(f, last)(a);
    }
  }

  /** Summing a measure line by line counts every allocation once. */
  lemma {:induction false} LineMeasuresAddUp(n: nat, allocations: seq<UnitAllocation>, f: UnitAllocation -> int)
    requires forall k :: 0 <= k < |allocations| ==> allocations[k].lineIndex < n
    ensures SumBy(Positions(n), MeasureAt(allocations, f)) == SumBy(allocations, f)
  {
    if allocations == [] {
      SumZero(Positions(n), MeasureAt(allocations, f));
    } else {
      assert forall k :: 0 <= k < |allocations[1..]| ==> allocations[1..][k] == allocations[k + 1];
      LineMeasuresAddUp(n, allocations[1..], f);
      SingleMeasure(n, allocations[0], f);
      SumAdd(Positions(n), SingleAt(allocations[0], f), MeasureAt(allocations[1..], f), MeasureAt(allocations, f));
    }
  }

  /** The lines' shares are the instances' discounts: nothing is lost between the two views. */
  lemma {:induction false} LineSharesAddUp(items: seq<CartItem>, instances: seq<Instance>)
    requires forall inst :: inst in instances ==> PricedAgainst(items, inst)
    ensures SumBy(Positions(|items|), ShareAt(instances)) == SumBy(instances, DiscountAmountOf)
  {
    var positions := Positions(|items|);
    if instances == [] {
      SumZero(positions, ShareAt(instances));
    } else {
      assert instances[0] in instances;
      LineSharesAddUp(items, instances[1..]);
      LineMeasuresAddUp(|items|, instances[0].unitAllocations, DiscountOf);
      SumAdd(positions, MeasureAt(instances[0].unitAllocations, DiscountOf), ShareAt(instances[1..]), ShareAt(instances));
    }
  }

  // ------------------------------------------------------------ what a cart view guarantees

  function SubtotalAt(items: seq<CartItem>): nat -> int {
    (i: nat) => if i < |items| then AvailableSubtotal(items[i]) else 0
  }

  lemma {:induction false} SubtotalByPosition(items: seq<CartItem>)
    ensures SumBy(Positions(|items|), SubtotalAt(items)) == SubtotalOf(items)
  {
    SumPointwise(Positions(|items|), items, SubtotalAt(items), AvailableSubtotal);
  }

  lemma {:induction false} LineShareWithinSubtotal(cart: Cart, bundles: seq<Bundle>, now: int, i: nat)
    requires i < |cart.items|
    ensures 0 <= BundleShare(CartInstances(cart, bundles, now), i) <= AvailableSubtotal(cart.items[i])
  {
    var instances := CartInstances(cart, bundles, now);
    var price := EffectiveUnitPrice(cart.items[i].variant);
    var uses := SumBy(instances, UsesOf(i));
    CartInstancesPriced(cart, bundles, now);
    SharesWithinPrice(cart.items, instances, i);
    CartUsesWithinQuantity(cart, bundles, now, i);
    if IsAvailable(cart.items[i]) {
      ProductMonotone(price, uses, cart.items[i].quantity);
    } else {
      UnavailableShareIsZero(cart.items, instances, i);
    }
  }

  lemma {:induction false} ProductMonotone(c: nat, a: int, b: int)
    requires a <= b
    ensures c * a <= c * b
  {
  }

  lemma {:induction false} UnavailableShareIsZero(items: seq<CartItem>, instances: seq<Instance>, i: nat)
    requires i < |items| && !IsAvailable(items[i])
    requires forall inst :: inst in instances ==> PricedAgainst(items, inst)
    ensures BundleShare(instances, i) == 0
  {
    forall inst | inst in instances ensures InstanceShareOn(i)(inst) == 0 {
      assert PricedAgainst(items, inst);
      forall a | a in inst.unitAllocations ensures ShareOn(i)(a) == 0 {
        var m :| 0 <= m < |inst.unitAllocations| && inst.unitAllocations[m] == a;
      }
      SumZero(inst.unitAllocations, ShareOn(i));
    }
    SumZero(instances, InstanceShareOn(i));
  }

  lemma {:induction false} ComputeDiscountBounds(coupon: Coupon, subtotal: int)
    ensures 0 <= ComputeDiscount(coupon, subtotal)
    ensures subtotal >= 0 ==> ComputeDiscount(coupon, subtotal) <= subtotal
  {
    if subtotal > 0 {
      assert subtotal * coupon.value >= 0;
    }
  }

  /** A percentage is rounded down, by less than one minor unit. */
  lemma {:induction false} PercentageRoundsDown(coupon: Coupon, subtotal: nat)
    requires coupon.kind == Percentage && coupon.value <= 100
    ensures subtotal * coupon.value - 99 <= 100 * ComputeDiscount(coupon, subtotal) <= subtotal * coupon.value
  {
    if subtotal > 0 {
      var product := subtotal * coupon.value;
      assert product == 100 * (product / 100) + product % 100;
      assert product <= subtotal * 100;
    }
  }

  lemma {:induction false} BundleTotalBounds(cart: Cart, bundles: seq<Bundle>, now: int)
    ensures var instances := CartInstances(cart, bundles, now);
      && SumBy(Positions(|cart.items|), ShareAt(instances)) == SumBy(instances, DiscountAmountOf)
      && 0 <= SumBy(instances, DiscountAmountOf) <= SubtotalOf(cart.items)
  {
    var instances := CartInstances(cart, bundles, now);
    var positions := Positions(|cart.items|);
    CartInstancesPriced(cart, bundles, now);
    LineSharesAddUp(cart.items, instances);
    SubtotalByPosition(cart.items);
    forall i: nat | i in positions
      ensures 0 <= ShareAt(instances)(i) <= SubtotalAt(cart.items)(i)
    {
      LineShareWithinSubtotal(cart, bundles, now, i);
    }
    SumNonNegative(positions, ShareAt(instances));
    SumMonotone(positions, ShareAt(instances), SubtotalAt(cart.items));
  }

  lemma {:induction false} CouponOnlyReducesTheRest(cart: Cart, bundles: seq<Bundle>, now: int)
    ensures var view := ViewOf(cart, bundles, now); 0 <= view.discountTotal <= view.subtotal - view.bundleDiscountTotal
  {
    BundleTotalBounds(cart, bundles, now);
    if CouponIsApplied(cart, now) {
      var eligible := SubtotalOf(cart.items) - SumBy(CartInstances(cart, bundles, now), DiscountAmountOf);
      ComputeDiscountBounds(cart.coupon.value, eligible);
      assert ViewOf(cart, bundles, now).discountTotal == ComputeDiscount(cart.coupon.value, eligible);
    }
  }

  /** For every cart, list of bundles and time: each line's bundle discount lies between zero and
      the line's own subtotal, the line discounts add up to the bundle total, the coupon only
      reduces what bundles left, and nothing ends up negative. */
  lemma {:induction false} CartViewIsConsistent(cart: Cart, bundles: seq<Bundle>, now: int)
    ensures var view := ViewOf(cart, bundles, now);
      && (forall i :: 0 <= i < |cart.items| ==>
            0 <= view.items[i].bundleDiscount <= AvailableSubtotal(cart.items[i]))
      && SumBy(Positions(|cart.items|), ShareAt(CartInstances(cart, bundles, now))) == view.bundleDiscountTotal
      && 0 <= view.bundleDiscountTotal <= view.subtotal
      && 0 <= view.discountTotal <= view.subtotal - view.bundleDiscountTotal
      && view.total == view.subtotal - view.bundleDiscountTotal - view.discountTotal
      && view.total >= 0
  {
    BundleTotalBounds(cart, bundles, now);
    forall i: nat | i < |cart.items|
      ensures 0 <= ViewOf(cart, bundles, now).items[i].bundleDiscount <= AvailableSubtotal(cart.items[i])
    {
      LineShareWithinSubtotal(cart, bundles, now, i);
    }
    CouponOnlyReducesTheRest(cart, bundles, now);
  }
}

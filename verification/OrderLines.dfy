/** From a priced cart to the persisted order: each cart line is split by the bundle instances that
    use it, and every amount is carried over exactly (src/modules/orders/orders.service.ts). */
module OrderLines {
  import opened Options
  import opened Sums
  import opened DiscountAllocation
  import opened BundlePricing
  import opened BundleGrouping
  import opened BundleProgress
  import opened CartPricing
  import Stockroom

  datatype ShippingRate = ShippingRate(price: nat, freeShippingThreshold: Option<int>)

  function ComputeShippingPrice(rate: ShippingRate, basisAmount: int): nat {
    if rate.freeShippingThreshold.Some? && basisAmount >= rate.freeShippingThreshold.value then 0 else rate.price
  }

  datatype Quote = Quote(
    subtotal: int,
    discountTotal: int,
    bundleDiscountTotal: int,
    shippingTotal: int,
    total: int,
    issues: seq<(string, Unavailable)>)

  function Issues(items: seq<CartItem>): seq<(string, Unavailable)> {
    if items == [] then []
    else
      (match UnavailableReason(items[0])
       case None => []
       case Some(reason) => [(items[0].id, reason)])
      + Issues(items[1..])
  }

  /** The read-only checkout preview. */
  function QuoteOf(cart: Cart, bundles: seq<Bundle>, now: int, rate: ShippingRate): Quote {
    var view := ViewOf(cart, bundles, now);
    var shipping := ComputeShippingPrice(rate, view.total);
    Quote(view.subtotal, view.discountTotal, view.bundleDiscountTotal, shipping, view.total + shipping, Issues(cart.items))
  }

  // ------------------------------------------------------------ splitting lines into drafts

  datatype Draft = Draft(itemIndex: nat, quantity: int, instance: Option<nat>, bundleDiscount: int)

  /** How an instance uses one cart line. */
  datatype Usage = Usage(instanceIndex: nat, quantity: int, discount: int)

  function UsageFrom(instanceIndex: nat, allocations: seq<UnitAllocation>, i: nat): seq<Usage> {
    var quantity := SumBy(allocations, AllocationOn(i));
    if quantity > 0 then [Usage(instanceIndex, quantity, SumBy(allocations, ShareOn(i)))] else []
  }

  /** All uses of line `i`, in instance order. */
  function Usages(instances: seq<Instance>, i: nat): seq<Usage> {
    if instances == [] then []
    else
      var n := |instances| - 1;
      Usages(instances[..n], i) + UsageFrom(n, instances[n].unitAllocations, i)
  }

  function QuantityUsed(u: Usage): int { u.quantity }

  function DraftsFor(i: nat, usages: seq<Usage>): seq<Draft> {
    if usages == [] then []
    else
      var n := |usages| - 1;
      DraftsFor(i, usages[..n]) + [Draft(i, usages[n].quantity, Some(usages[n].instanceIndex), usages[n].discount)]
  }

  function RestDraft(i: nat, remaining: int): seq<Draft> {
    if remaining > 0 then [Draft(i, remaining, None, 0)] else []
  }

  function LineDrafts(i: nat, quantity: int, usages: seq<Usage>): seq<Draft> {
    DraftsFor(i, usages) + RestDraft(i, quantity - SumBy(usages, QuantityUsed))
  }

  function Drafts(items: seq<CartItem>, instances: seq<Instance>): seq<Draft> {
    if items == [] then []
    else
      var n := |items| - 1;
      Drafts(items[..n], instances) + LineDrafts(n, items[n].quantity, Usages(instances, n))
  }

  // ------------------------------------------------------------ the order

  datatype OrderItem = OrderItem(
    itemIndex: nat,
    unitPrice: int,
    quantity: int,
    lineSubtotal: int,
    lineDiscount: int,
    bundleInstance: Option<nat>,
    bundleDiscount: int,
    lineTotal: int)

  datatype PlacedOrder = PlacedOrder(
    items: seq<OrderItem>,
    instances: seq<Instance>,
    subtotal: int,
    discountTotal: int,
    bundleDiscountTotal: int,
    shippingTotal: int,
    total: int,
    couponId: Option<string>,
    stockLines: seq<Stockroom.StockLine>)

  datatype CheckoutError = EmptyCart | ItemsUnavailable | PriceChanged(total: int) | CouponNotApplicable(problem: CouponProblem)

  datatype Placement = Placed(order: PlacedOrder) | Refused(error: CheckoutError)

  function DraftSubtotal(items: seq<CartItem>, d: Draft): int {
    if d.itemIndex < |items| then EffectiveUnitPrice(items[d.itemIndex].variant) * d.quantity else 0
  }

  function EligibleForCoupon(items: seq<CartItem>, drafts: seq<Draft>): (amounts: seq<int>)
    ensures |amounts| == |drafts|
    ensures forall j :: 0 <= j < |drafts| ==> amounts[j] == DraftSubtotal(items, drafts[j]) - drafts[j].bundleDiscount
  {
    seq(|drafts|, j requires 0 <= j < |drafts| => DraftSubtotal(items, drafts[j]) - drafts[j].bundleDiscount)
  }

  function MakeItem(items: seq<CartItem>, d: Draft, lineDiscount: int): OrderItem {
    var lineSubtotal := DraftSubtotal(items, d);
    OrderItem(d.itemIndex, if d.itemIndex < |items| then EffectiveUnitPrice(items[d.itemIndex].variant) else 0,
              d.quantity, lineSubtotal, lineDiscount, d.instance, d.bundleDiscount,
              lineSubtotal - lineDiscount - d.bundleDiscount)
  }

  function MakeItems(items: seq<CartItem>, drafts: seq<Draft>, shares: seq<int>): (made: seq<OrderItem>)
    requires |shares| == |drafts|
    ensures |made| == |drafts|
    ensures forall j :: 0 <= j < |drafts| ==> made[j] == MakeItem(items, drafts[j], shares[j])
  {
    seq(|drafts|, j requires 0 <= j < |drafts| => MakeItem(items, drafts[j], shares[j]))
  }

  function StockLines(items: seq<CartItem>): seq<Stockroom.StockLine> {
    if items == [] then []
    else
      (if items[0].variant.stockItem.Some? then [Stockroom.StockLine(items[0].variant.stockItem.value.id, items[0].quantity)] else [])
      + StockLines(items[1..])
  }

  predicate AllAvailable(items: seq<CartItem>) { forall i :: 0 <= i < |items| ==> IsAvailable(items[i]) }

  /** Lines of the cart for order creation: every item, at its own position. */
  function AllLines(items: seq<CartItem>): seq<Line> {
    seq(|items|, i requires 0 <= i < |items| => SourceLine(items[i], i))
  }

  /** The pricing part of order creation. `now` is the clock when the cart is priced, `later` the clock
      when the coupon is validated again. */
  function PlaceOrder(cart: Cart, bundles: seq<Bundle>, now: int, later: int, rate: ShippingRate, expectedTotal: int): Placement {
    var priced := ViewOf(cart, bundles, now);
    if cart.items == [] then Refused(EmptyCart)
    else if !AllAvailable(cart.items) then Refused(ItemsUnavailable)
    else
      var shipping := ComputeShippingPrice(rate, priced.total);
      var total := priced.total + shipping;
      if total != expectedTotal then Refused(PriceChanged(total))
      else if cart.coupon.Some? && FindCouponProblem(cart.coupon.value, priced.subtotal, later).Some? then
        Refused(CouponNotApplicable(FindCouponProblem(cart.coupon.value, priced.subtotal, later).value))
      else
        var instances := Instances(AllLines(cart.items), bundles, CouponIsApplied(cart, now));
        var drafts := Drafts(cart.items, instances);
        var shares := Allocate(EligibleForCoupon(cart.items, drafts), priced.discountTotal);
        Placed(PlacedOrder(MakeItems(cart.items, drafts, shares), instances, priced.subtotal, priced.discountTotal,
                           priced.bundleDiscountTotal, shipping, total,
                           if cart.coupon.Some? then Some(cart.coupon.value.id) else None, StockLines(cart.items)))
  }

  // ------------------------------------------------------------ the computation

  /** Counts one more discounted unit for an instance: extend its entry, or append one. */
  function NoteUse(usages: seq<Usage>, instanceIndex: nat, discount: int): seq<Usage> {
    if usages == [] then [Usage(instanceIndex, 1, discount)]
    else if usages[0].instanceIndex == instanceIndex then
      [Usage(instanceIndex, usages[0].quantity + 1, usages[0].discount + discount)] + usages[1..]
    else [usages[0]] + NoteUse(usages[1..], instanceIndex, discount)
  }

  function UsagesAt(byLine: map<nat, seq<Usage>>, i: nat): seq<Usage> { if i in byLine then byLine[i] else [] }

  lemma {:induction false} NoteUseAtEnd(earlier: seq<Usage>, current: seq<Usage>, k: nat, discount: int)
    requires forall u :: u in earlier ==> u.instanceIndex != k
    ensures NoteUse(earlier + current, k, discount) == earlier + NoteUse(current, k, discount)
  {
    if earlier == [] {
      assert earlier + current == current;
      assert earlier + NoteUse(current, k, discount) == NoteUse(current, k, discount);
    } else {
      assert (earlier + current)[1..] == earlier[1..] + current;
      NoteUseAtEnd(earlier[1..], current, k, discount);
    }
  }

  lemma {:induction false} UsagesAreEarlier(instances: seq<Instance>, i: nat)
    ensures forall u :: u in Usages(instances, i) ==> u.instanceIndex < |instances|
  {
    if instances != [] {
      UsagesAreEarlier(instances[..|instances| - 1], i);
    }
  }

  lemma {:induction false} NoUseNoMeasure(allocations: seq<UnitAllocation>, f: UnitAllocation -> int, i: nat)
    ensures SumBy(allocations, AllocationOn(i)) >= 0
    ensures SumBy(allocations, AllocationOn(i)) == 0 ==> SumBy(allocations, OnlyLine(f, i)) == 0
  {
    if allocations != [] {
      NoUseNoMeasure(allocations[1..], f, i);
    }
  }

  lemma {:induction false} UseExtendsEntry(k: nat, done: seq<UnitAllocation>, a: UnitAllocation, i: nat)
    ensures UsageFrom(k, done + [a], i)
         == if a.lineIndex == i then NoteUse(UsageFrom(k, done, i), k, a.discount) else UsageFrom(k, done, i)
  {
    SumSnoc(done, a, AllocationOn(i));
    SumSnoc(done, a, ShareOn(i));
    ShareOfOne(a, i);
    NoUseNoMeasure(done, DiscountOf, i);
  }

  /** One more allocation extends exactly the current instance's entry of its line. */
  lemma {:induction false} UseExtendsUsages(instances: seq<Instance>, k: nat, done: seq<UnitAllocation>, a: UnitAllocation, i: nat)
    requires k < |instances|
    ensures Usages(instances[..k], i) + UsageFrom(k, done + [a], i)
         == if a.lineIndex == i then NoteUse(Usages(instances[..k], i) + UsageFrom(k, done, i), k, a.discount)
            else Usages(instances[..k], i) + UsageFrom(k, done, i)
  {
    UseExtendsEntry(k, done, a, i);
    UsagesAreEarlier(instances[..k], i);
    NoteUseAtEnd(Usages(instances[..k], i), UsageFrom(k, done, i), k, a.discount);
  }

  method CountUses(instances: seq<Instance>) returns (byLine: map<nat, seq<Usage>>)
    ensures forall i: nat :: UsagesAt(byLine, i) == Usages(instances, i)
  {
    byLine := map[];
    for k := 0 to |instances|
      invariant forall i: nat :: UsagesAt(byLine, i) == Usages(instances[..k], i)
    {
      byLine := CountUsesOf(instances, k, byLine);
      assert instances[..k + 1][..k] == instances[..k];
    }
    assert instances[..|instances|] == instances;
  }

  method CountUsesOf(instances: seq<Instance>, k: nat, before: map<nat, seq<Usage>>) returns (byLine: map<nat, seq<Usage>>)
    requires k < |instances|
    requires forall i: nat :: UsagesAt(before, i) == Usages(instances[..k], i)
    ensures forall i: nat :: UsagesAt(byLine, i) == Usages(instances[..k], i) + UsageFrom(k, instances[k].unitAllocations, i)
  {
    byLine := before;
    var allocations := instances[k].unitAllocations;
    for j := 0 to |allocations|
      invariant forall i: nat :: UsagesAt(byLine, i) == Usages(instances[..k], i) + UsageFrom(k, allocations[..j], i)
    {
      var a := allocations[j];
      assert allocations[..j + 1] == allocations[..j] + [a];
      forall i: nat
        ensures UsagesAt(byLine[a.lineIndex := NoteUse(UsagesAt(byLine, a.lineIndex), k, a.discount)], i)
             == Usages(instances[..k], i) + UsageFrom(k, allocations[..j + 1], i)
      {
        assert UsagesAt(byLine, i) == Usages(instances[..k], i) + UsageFrom(k, allocations[..j], i);
        UseExtendsUsages(instances, k, allocations[..j], a, i);
      }
      byLine := byLine[a.lineIndex := NoteUse(UsagesAt(byLine, a.lineIndex), k, a.discount)];
    }
    assert allocations[..|allocations|] == allocations;
  }

  method SplitLine(i: nat, quantity: int, usages: seq<Usage>) returns (drafts: seq<Draft>)
    ensures drafts == LineDrafts(i, quantity, usages)
  {
    drafts := [];
    var usedQuantity := 0;
    for k := 0 to |usages|
      invariant drafts == DraftsFor(i, usages[..k])
      invariant usedQuantity == SumBy(usages[..k], QuantityUsed)
    {
      var usage := usages[k];
      assert usages[..k + 1][..k] == usages[..k];
      assert usages[..k + 1] == usages[..k] + [usage];
      SumSnoc(usages[..k], usage, QuantityUsed);
      drafts := drafts + [Draft(i, usage.quantity, Some(usage.instanceIndex), usage.discount)];
      usedQuantity := usedQuantity + usage.quantity;
    }
    assert usages[..|usages|] == usages;
    var remaining := quantity - usedQuantity;
    if remaining > 0 {
      drafts := drafts + [Draft(i, remaining, None, 0)];
    }
  }

  method SplitLines(items: seq<CartItem>, instances: seq<Instance>) returns (drafts: seq<Draft>)
    ensures drafts == Drafts(items, instances)
  {
    var byLine := CountUses(instances);
    drafts := [];
    for i := 0 to |items|
      invariant drafts == Drafts(items[..i], instances)
    {
      assert UsagesAt(byLine, i) == Usages(instances, i);
      var own := SplitLine(i, items[i].quantity, UsagesAt(byLine, i));
      assert items[..i + 1][..i] == items[..i];
      drafts := drafts + own;
    }
    assert items[..|items|] == items;
  }

  method CreateOrderItems(items: seq<CartItem>, drafts: seq<Draft>, discountTotal: int) returns (made: seq<OrderItem>)
    ensures made == MakeItems(items, drafts, Allocate(EligibleForCoupon(items, drafts), discountTotal))
  {
    var shares := AllocateDiscount(EligibleForCoupon(items, drafts), discountTotal);
    made := [];
    for j := 0 to |drafts|
      invariant made == MakeItems(items, drafts, shares)[..j]
    {
      made := made + [MakeItem(items, drafts[j], shares[j])];
    }
  }

  method CreateOrder(cart: Cart, bundles: seq<Bundle>, now: int, later: int, rate: ShippingRate, expectedTotal: int)
    returns (result: Placement)
    ensures result == PlaceOrder(cart, bundles, now, later, rate, expectedTotal)
  {
    var priced := BuildView(cart, bundles, now);
    if cart.items == [] {
      return Refused(EmptyCart);
    }
    if !AllAvailable(cart.items) {
      return Refused(ItemsUnavailable);
    }
    var shippingTotal := ComputeShippingPrice(rate, priced.total);
    var computedTotal := priced.total + shippingTotal;
    if computedTotal != expectedTotal {
      return Refused(PriceChanged(computedTotal));
    }
    if cart.coupon.Some? {
      var problem := FindCouponProblem(cart.coupon.value, priced.subtotal, later);
      if problem.Some? {
        return Refused(CouponNotApplicable(problem.value));
      }
    }
    var couponIsApplied := cart.coupon.Some? && priced.couponWarning.None?;
    var instances := ComputeBundleInstances(AllLines(cart.items), bundles, couponIsApplied);
    var drafts := SplitLines(cart.items, instances);
    var items := CreateOrderItems(cart.items, drafts, priced.discountTotal);
    result := Placed(PlacedOrder(items, instances, priced.subtotal, priced.discountTotal, priced.bundleDiscountTotal,
                                 shippingTotal, computedTotal,
                                 if cart.coupon.Some? then Some(cart.coupon.value.id) else None, StockLines(cart.items)));
  }

  // ------------------------------------------------------------ measuring drafts

  lemma {:induction false} AllLinesAreSourceLines(items: seq<CartItem>)
    requires AllAvailable(items)
    ensures SourceLines(items) == AllLines(items)
  {
    if items != [] {
      var n := |items| - 1;
      AllLinesAreSourceLines(items[..n]);
      assert AllLines(items) == AllLines(items[..n]) + [SourceLine(items[n], n)];
    }
  }

  function UsageDraft(i: nat, k: nat, allocations: seq<UnitAllocation>): Draft {
    Draft(i, SumBy(allocations, AllocationOn(i)), Some(k), SumBy(allocations, ShareOn(i)))
  }

  /** A measure on drafts that sees only what instance `k` contributed, worth `f` per allocation. */
  ghost predicate Measures(m: Draft -> int, f: UnitAllocation -> int, instances: seq<Instance>, k: nat, i: nat)
    requires k < |instances|
  {
    && (forall j :: 0 <= j < |instances| ==>
          m(UsageDraft(i, j, instances[j].unitAllocations))
          == if j == k then SumBy(instances[k].unitAllocations, OnlyLine(f, i)) else 0)
    && (forall q :: m(Draft(i, q, None, 0)) == 0)
  }

  lemma {:induction false} DraftsForConcat(i: nat, a: seq<Usage>, x: Usage)
    ensures DraftsFor(i, a + [x]) == DraftsFor(i, a) + [Draft(i, x.quantity, Some(x.instanceIndex), x.discount)]
  {
    assert (a + [x])[..|a|] == a;
  }

  lemma {:induction false} LineMeasure(instances: seq<Instance>, i: nat, k: nat, m: Draft -> int, f: UnitAllocation -> int, n: nat)
    requires k < |instances| && n <= |instances| && Measures(m, f, instances, k, i)
    ensures SumBy(DraftsFor(i, Usages(instances[..n], i)), m)
         == if k < n then SumBy(instances[k].unitAllocations, OnlyLine(f, i)) else 0
  {
    if n > 0 {
      var last: nat := n - 1;
      LineMeasure(instances, i, k, m, f, last);
      assert instances[..n][..last] == instances[..last];
      var allocations := instances[last].unitAllocations;
      NoUseNoMeasure(allocations, f, i);
      var before := Usages(instances[..last], i);
      if SumBy(allocations, AllocationOn(i)) > 0 {
        var use := Usage(last, SumBy(allocations, AllocationOn(i)), SumBy(allocations, ShareOn(i)));
        assert Usages(instances[..n], i) == before + [use];
        DraftsForConcat(i, before, use);
        SumSnoc(DraftsFor(i, before), UsageDraft(i, last, allocations), m);
        assert m(UsageDraft(i, last, instances[last].unitAllocations))
            == if last == k then SumBy(instances[k].unitAllocations, OnlyLine(f, i)) else 0;
      } else {
        assert Usages(instances[..n], i) == before + [] == before;
      }
    }
  }

  lemma {:induction false} RestMeasuresNothing(i: nat, remaining: int, m: Draft -> int)
    requires forall q :: m(Draft(i, q, None, 0)) == 0
    ensures SumBy(RestDraft(i, remaining), m) == 0
  {
  }

  lemma {:induction false} LineDraftsMeasure(instances: seq<Instance>, i: nat, quantity: int, k: nat, m: Draft -> int, f: UnitAllocation -> int)
    requires k < |instances| && Measures(m, f, instances, k, i)
    ensures SumBy(LineDrafts(i, quantity, Usages(instances, i)), m) == MeasureAt(instances[k].unitAllocations, f)(i)
  {
    var usages := Usages(instances, i);
    assert instances[..|instances|] == instances;
    LineMeasure(instances, i, k, m, f, |instances|);
    RestMeasuresNothing(i, quantity - SumBy(usages, QuantityUsed), m);
    SumConcat(DraftsFor(i, usages), RestDraft(i, quantity - SumBy(usages, QuantityUsed)), m);
  }

  lemma {:induction false} PositionsGrow(n: nat, f: nat -> int)
    ensures SumBy(Positions(n + 1), f) == SumBy(Positions(n), f) + f(n)
  {
    assert Positions(n + 1) == Positions(n) + [n];
    SumSnoc<nat>(Positions(n), n, f);
  }

  lemma {:induction false} NextLineMeasure(items: seq<CartItem>, instances: seq<Instance>, k: nat, m: Draft -> int,
                                           f: UnitAllocation -> int, last: nat)
    requires k < |instances| && |items| == last + 1 && Measures(m, f, instances, k, last)
    ensures SumBy(Drafts(items, instances), m)
         == SumBy(Drafts(items[..last], instances), m) + MeasureAt(instances[k].unitAllocations, f)(last)
  {
    LineDraftsMeasure(instances, last, items[last].quantity, k, m, f);
    SumConcat(Drafts(items[..last], instances), LineDrafts(last, items[last].quantity, Usages(instances, last)), m);
  }

  /** Over the whole order, an instance's drafts carry exactly what its allocations carry. */
  lemma {:induction false} InstanceMeasure(items: seq<CartItem>, instances: seq<Instance>, k: nat, m: Draft -> int,
                                           f: UnitAllocation -> int)
    requires k < |instances|
    requires forall i :: 0 <= i < |items| ==> Measures(m, f, instances, k, i)
    ensures SumBy(Drafts(items, instances), m) == SumBy(Positions(|items|), MeasureAt(instances[k].unitAllocations, f))
  {
    if items != [] {
      var last: nat := |items| - 1;
      InstanceMeasure(items[..last], instances, k, m, f);
      NextLineMeasure(items, instances, k, m, f, last);
      PositionsGrow(last, MeasureAt(instances[k].unitAllocations, f));
    }
  }

  function DiscountOfInstance(k: nat): Draft -> int {
    (d: Draft) => if d.instance == Some(k) then d.bundleDiscount else 0
  }

  function UnitsOfInstance(k: nat): Draft -> int {
    (d: Draft) => if d.instance == Some(k) then d.quantity else 0
  }

  function SubtotalOfInstance(items: seq<CartItem>, k: nat): Draft -> int {
    (d: Draft) => if d.instance == Some(k) then DraftSubtotal(items, d) else 0
  }

  function OneEach(): UnitAllocation -> int { (a: UnitAllocation) => 1 }

  lemma {:induction false} PriceTimesUnits(items: seq<CartItem>, allocations: seq<UnitAllocation>, i: nat)
    requires i < |items|
    ensures SumBy(allocations, OnlyLine(UnitPriceOn(items), i))
         == EffectiveUnitPrice(items[i].variant) * SumBy(allocations, AllocationOn(i))
  {
    var price := EffectiveUnitPrice(items[i].variant);
    forall a | a in allocations ensures OnlyLine(UnitPriceOn(items), i)(a) == price * AllocationOn(i)(a) {
      assert UnitPriceOn(items)(a) == if a.lineIndex < |items| then EffectiveUnitPrice(items[a.lineIndex].variant) else 0;
    }
    SumScaled(allocations, price, AllocationOn(i), OnlyLine(UnitPriceOn(items), i));
  }

  lemma {:induction false} OneEachCounts(allocations: seq<UnitAllocation>, i: nat)
    ensures SumBy(allocations, OnlyLine(OneEach(), i)) == SumBy(allocations, AllocationOn(i))
  {
    forall a | a in allocations ensures OnlyLine(OneEach(), i)(a) == AllocationOn(i)(a) {
      assert OneEach()(a) == 1;
    }
    SumEqual(allocations, OnlyLine(OneEach(), i), AllocationOn(i));
  }

  /** The drafts linked to an instance add up to that instance: its units, its discount and its
      normal subtotal. */
  lemma {:induction false} InstanceIsSplitExactly(items: seq<CartItem>, instances: seq<Instance>, k: nat)
    requires k < |instances| && PricedAgainst(items, instances[k])
    ensures SumBy(Drafts(items, instances), UnitsOfInstance(k)) == |instances[k].unitAllocations|
    ensures SumBy(Drafts(items, instances), DiscountOfInstance(k)) == instances[k].discountAmount
    ensures SumBy(Drafts(items, instances), SubtotalOfInstance(items, k)) == instances[k].normalSubtotal
  {
    var allocations := instances[k].unitAllocations;
    forall i | 0 <= i < |items|
      ensures Measures(UnitsOfInstance(k), OneEach(), instances, k, i)
      ensures Measures(DiscountOfInstance(k), DiscountOf, instances, k, i)
      ensures Measures(SubtotalOfInstance(items, k), UnitPriceOn(items), instances, k, i)
    {
      OneEachCounts(allocations, i);
      PriceTimesUnits(items, allocations, i);
    }
    InstanceMeasure(items, instances, k, UnitsOfInstance(k), OneEach());
    InstanceMeasure(items, instances, k, DiscountOfInstance(k), DiscountOf);
    InstanceMeasure(items, instances, k, SubtotalOfInstance(items, k), UnitPriceOn(items));
    LineMeasuresAddUp(|items|, allocations, OneEach());
    LineMeasuresAddUp(|items|, allocations, DiscountOf);
    LineMeasuresAddUp(|items|, allocations, UnitPriceOn(items));
    SumConstant(allocations, 1, OneEach());
  }

  // ------------------------------------------------------------ quantities and amounts per line

  function DraftQuantity(d: Draft): int { d.quantity }

  function DraftDiscount(d: Draft): int { d.bundleDiscount }

  /** What one more instance adds to the uses of a line, as drafts. */
  lemma {:induction false} UseToDraft(i: nat, k: nat, allocations: seq<UnitAllocation>, before: seq<Usage>)
    ensures SumBy(before + UsageFrom(k, allocations, i), QuantityUsed)
         == SumBy(before, QuantityUsed) + SumBy(allocations, AllocationOn(i))
    ensures DraftsFor(i, before + UsageFrom(k, allocations, i)) == DraftsFor(i, before)
         + if SumBy(allocations, AllocationOn(i)) > 0 then [UsageDraft(i, k, allocations)] else []
  {
    NoUseNoMeasure(allocations, DiscountOf, i);
    if SumBy(allocations, AllocationOn(i)) > 0 {
      var use := Usage(k, SumBy(allocations, AllocationOn(i)), SumBy(allocations, ShareOn(i)));
      SumSnoc(before, use, QuantityUsed);
      DraftsForConcat(i, before, use);
    } else {
      assert before + UsageFrom(k, allocations, i) == before;
    }
  }

  lemma {:induction false} UsedQuantity(instances: seq<Instance>, i: nat)
    ensures SumBy(Usages(instances, i), QuantityUsed) == SumBy(instances, UsesOf(i))
  {
    if instances != [] {
      var n := |instances| - 1;
      UsedQuantity(instances[..n], i);
      UsedOneMore(instances[n], n, Usages(instances[..n], i), i);
      SumSnoc(instances[..n], instances[n], UsesOf(i));
      assert instances == instances[..n] + [instances[n]];
    }
  }

  lemma {:induction false} UsedOneMore(inst: Instance, k: nat, before: seq<Usage>, i: nat)
    ensures SumBy(before + UsageFrom(k, inst.unitAllocations, i), QuantityUsed) == SumBy(before, QuantityUsed) + UsesOf(i)(inst)
  {
    UseToDraft(i, k, inst.unitAllocations, before);
  }

  /** A measure of drafts that a use of line `i` carries over from the instance. */
  ghost predicate CarriesOver(m: Draft -> int, g: Instance -> int, i: nat) {
    forall k: nat, inst: Instance {:trigger m(UsageDraft(i, k, inst.unitAllocations))} ::
      && g(inst) == m(UsageDraft(i, k, inst.unitAllocations))
      && (SumBy(inst.unitAllocations, AllocationOn(i)) == 0 ==> g(inst) == 0)
  }

  lemma {:induction false} UseAddsMeasure(inst: Instance, k: nat, before: seq<Usage>, i: nat, m: Draft -> int, g: Instance -> int)
    requires CarriesOver(m, g, i)
    ensures SumBy(DraftsFor(i, before + UsageFrom(k, inst.unitAllocations, i)), m) == SumBy(DraftsFor(i, before), m) + g(inst)
  {
    var draft := UsageDraft(i, k, inst.unitAllocations);
    UseToDraft(i, k, inst.unitAllocations, before);
    assert g(inst) == m(draft);
    NoUseNoMeasure(inst.unitAllocations, DiscountOf, i);
    SumSnoc(DraftsFor(i, before), draft, m);
    assert DraftsFor(i, before) + [] == DraftsFor(i, before);
  }

  lemma {:induction false} LastInstance(instances: seq<Instance>, i: nat, g: Instance -> int)
    requires instances != []
    ensures var n := |instances| - 1;
      && SumBy(instances, g) == SumBy(instances[..n], g) + g(instances[n])
      && Usages(instances, i) == Usages(instances[..n], i) + UsageFrom(n, instances[n].unitAllocations, i)
  {
    var n := |instances| - 1;
    assert instances == instances[..n] + [instances[n]];
    SumSnoc(instances[..n], instances[n], g);
  }

  lemma {:induction false} UsageDraftsTotal(instances: seq<Instance>, i: nat, m: Draft -> int, g: Instance -> int)
    requires CarriesOver(m, g, i)
    ensures SumBy(DraftsFor(i, Usages(instances, i)), m) == SumBy(instances, g)
  {
    if instances != [] {
      var n := |instances| - 1;
      UsageDraftsTotal(instances[..n], i, m, g);
      UseAddsMeasure(instances[n], n, Usages(instances[..n], i), i, m, g);
      LastInstance(instances, i, g);
    }
  }

  lemma {:induction false} QuantitiesAndSharesCarryOver(i: nat)
    ensures CarriesOver(DraftQuantity, UsesOf(i), i)
    ensures CarriesOver(DraftDiscount, InstanceShareOn(i), i)
  {
    forall inst: Instance
      ensures SumBy(inst.unitAllocations, AllocationOn(i)) == 0 ==> SumBy(inst.unitAllocations, ShareOn(i)) == 0
    {
      NoUseNoMeasure(inst.unitAllocations, DiscountOf, i);
    }
  }

  lemma {:induction false} UsagesTotals(instances: seq<Instance>, i: nat)
    ensures SumBy(Usages(instances, i), QuantityUsed) == SumBy(instances, UsesOf(i))
    ensures SumBy(DraftsFor(i, Usages(instances, i)), DraftQuantity) == SumBy(instances, UsesOf(i))
    ensures SumBy(DraftsFor(i, Usages(instances, i)), DraftDiscount) == BundleShare(instances, i)
  {
    UsedQuantity(instances, i);
    QuantitiesAndSharesCarryOver(i);
    UsageDraftsTotal(instances, i, DraftQuantity, UsesOf(i));
    UsageDraftsTotal(instances, i, DraftDiscount, InstanceShareOn(i));
  }

  /** A draft of line `i`: a positive number of units, worth at least their bundle discount. */
  ghost predicate GoodDraft(items: seq<CartItem>, d: Draft, i: nat)
    requires i < |items|
  {
    d.itemIndex == i && d.quantity > 0
    && 0 <= d.bundleDiscount <= EffectiveUnitPrice(items[i].variant) * d.quantity
  }

  lemma {:induction false} UsageDraftsGood(items: seq<CartItem>, instances: seq<Instance>, i: nat)
    requires i < |items| && forall inst :: inst in instances ==> PricedAgainst(items, inst)
    ensures forall d :: d in DraftsFor(i, Usages(instances, i)) ==> GoodDraft(items, d, i)
  {
    if instances != [] {
      var n := |instances| - 1;
      var allocations := instances[n].unitAllocations;
      UsageDraftsGood(items, instances[..n], i);
      var before := Usages(instances[..n], i);
      if SumBy(allocations, AllocationOn(i)) > 0 {
        var use := Usage(n, SumBy(allocations, AllocationOn(i)), SumBy(allocations, ShareOn(i)));
        DraftsForConcat(i, before, use);
        assert instances[n] in instances;
        ShareWithinPrice(items, instances[n], i);
      } else {
        assert Usages(instances, i) == before;
      }
    }
  }

  lemma {:induction false} LineDraftsTotals(items: seq<CartItem>, instances: seq<Instance>, i: nat)
    requires i < |items| && forall inst :: inst in instances ==> PricedAgainst(items, inst)
    requires SumBy(instances, UsesOf(i)) <= items[i].quantity
    ensures var own := LineDrafts(i, items[i].quantity, Usages(instances, i));
      && SumBy(own, DraftQuantity) == items[i].quantity
      && SumBy(own, DraftDiscount) == BundleShare(instances, i)
      && forall d :: d in own ==> GoodDraft(items, d, i)
  {
    UsagesTotals(instances, i);
    UsageDraftsGood(items, instances, i);
    var usages := Usages(instances, i);
    var remaining := items[i].quantity - SumBy(usages, QuantityUsed);
    SumConcat(DraftsFor(i, usages), RestDraft(i, remaining), DraftQuantity);
    SumConcat(DraftsFor(i, usages), RestDraft(i, remaining), DraftDiscount);
    if remaining > 0 {
      SumOne(Draft(i, remaining, None, 0), DraftQuantity);
      SumOne(Draft(i, remaining, None, 0), DraftDiscount);
    }
  }

  function QuantityOnLine(i: nat): Draft -> int { (d: Draft) => if d.itemIndex == i then d.quantity else 0 }

  function SubtotalIn(items: seq<CartItem>): Draft -> int { (d: Draft) => DraftSubtotal(items, d) }

  lemma {:induction false} OneLineSubtotal(items: seq<CartItem>, own: seq<Draft>, i: nat)
    requires i < |items| && forall d :: d in own ==> d.itemIndex == i
    ensures SumBy(own, SubtotalIn(items)) == EffectiveUnitPrice(items[i].variant) * SumBy(own, DraftQuantity)
    ensures SumBy(own, QuantityOnLine(i)) == SumBy(own, DraftQuantity)
  {
    var price := EffectiveUnitPrice(items[i].variant);
    SumScaled(own, price, DraftQuantity, SubtotalIn(items));
    SumEqual(own, QuantityOnLine(i), DraftQuantity);
  }

  /** Every instance is priced against the cart and no line is used beyond its quantity. */
  ghost predicate Splittable(items: seq<CartItem>, instances: seq<Instance>, n: nat)
    requires n <= |items|
  {
    && (forall inst :: inst in instances ==> PricedAgainst(items, inst))
    && (forall i :: 0 <= i < n ==> SumBy(instances, UsesOf(i)) <= items[i].quantity)
  }

  ghost predicate GoodDrafts(items: seq<CartItem>, drafts: seq<Draft>) {
    forall d :: d in drafts ==> d.itemIndex < |items| && GoodDraft(items, d, d.itemIndex)
  }

  /** The first `n` lines' drafts: every unit, every subtotal and every discount is carried over. */
  lemma {:induction false} DraftsTotals(items: seq<CartItem>, instances: seq<Instance>, n: nat)
    requires n <= |items| && Splittable(items, instances, n)
    ensures var drafts := Drafts(items[..n], instances);
      && GoodDrafts(items, drafts)
      && (forall d :: d in drafts ==> d.itemIndex < n)
      && SumBy(drafts, SubtotalIn(items)) == SumBy(items[..n], LineSubtotal)
      && SumBy(drafts, DraftDiscount) == SumBy(Positions(n), ShareAt(instances))
  {
    if n > 0 {
      var last: nat := n - 1;
      DraftsTotals(items, instances, last);
      assert items[..n][..last] == items[..last] && items[..n] == items[..last] + [items[last]];
      LineDraftsTotals(items, instances, last);
      var own := LineDrafts(last, items[last].quantity, Usages(instances, last));
      OneLineSubtotal(items, own, last);
      var before := Drafts(items[..last], instances);
      SumConcat(before, own, SubtotalIn(items));
      SumConcat(before, own, DraftDiscount);
      SumSnoc(items[..last], items[last], LineSubtotal);
      PositionsGrow(last, ShareAt(instances));
    }
  }

  lemma {:induction false} OtherLinesHoldNothing(drafts: seq<Draft>, i: nat)
    requires forall d :: d in drafts ==> d.itemIndex != i
    ensures SumBy(drafts, QuantityOnLine(i)) == 0
  {
    SumZero(drafts, QuantityOnLine(i));
  }

  lemma {:induction false} OwnDraftsHoldTheLine(items: seq<CartItem>, instances: seq<Instance>, i: nat, line: nat, n: nat)
    requires line < n <= |items| && Splittable(items, instances, n)
    ensures SumBy(LineDrafts(line, items[line].quantity, Usages(instances, line)), QuantityOnLine(i))
         == if line == i then items[i].quantity else 0
  {
    LineDraftsTotals(items, instances, line);
    var own := LineDrafts(line, items[line].quantity, Usages(instances, line));
    if line == i {
      OneLineSubtotal(items, own, i);
    } else {
      OtherLinesHoldNothing(own, i);
    }
  }

  lemma {:induction false} NextLineQuantity(items: seq<CartItem>, instances: seq<Instance>, i: nat, last: nat, n: nat)
    requires n == last + 1 && n <= |items| && Splittable(items, instances, n)
    ensures SumBy(Drafts(items[..n], instances), QuantityOnLine(i))
         == SumBy(Drafts(items[..last], instances), QuantityOnLine(i)) + if last == i then items[i].quantity else 0
  {
    assert items[..n][..last] == items[..last];
    OwnDraftsHoldTheLine(items, instances, i, last, n);
    SumConcat(Drafts(items[..last], instances), LineDrafts(last, items[last].quantity, Usages(instances, last)), QuantityOnLine(i));
  }

  /** The drafts of a line add up to its quantity. */
  lemma {:induction false} LineKeepsItsUnits(items: seq<CartItem>, instances: seq<Instance>, i: nat, n: nat)
    requires i < |items| && n <= |items| && Splittable(items, instances, n)
    ensures SumBy(Drafts(items[..n], instances), QuantityOnLine(i)) == if i < n then items[i].quantity else 0
  {
    if n > 0 {
      var last: nat := n - 1;
      LineKeepsItsUnits(items, instances, i, last);
      NextLineQuantity(items, instances, i, last, n);
    }
  }

  // ------------------------------------------------------------ the order conserves everything

  function ItemQuantityOn(i: nat): OrderItem -> int { (o: OrderItem) => if o.itemIndex == i then o.quantity else 0 }

  function ItemUnitsOf(k: nat): OrderItem -> int { (o: OrderItem) => if o.bundleInstance == Some(k) then o.quantity else 0 }

  function ItemDiscountOf(k: nat): OrderItem -> int { (o: OrderItem) => if o.bundleInstance == Some(k) then o.bundleDiscount else 0 }

  function ItemSubtotalOf(k: nat): OrderItem -> int { (o: OrderItem) => if o.bundleInstance == Some(k) then o.lineSubtotal else 0 }

  function LineTotalOf(o: OrderItem): int { o.lineTotal }

  function LineDiscountOf(o: OrderItem): int { o.lineDiscount }

  /** Each order line is a positive part of a cart line, with non-negative shares and total. */
  ghost predicate SoundItem(cart: Cart, o: OrderItem) {
    && o.itemIndex < |cart.items|
    && o.quantity > 0
    && o.unitPrice == EffectiveUnitPrice(cart.items[o.itemIndex].variant)
    && o.lineSubtotal == o.unitPrice * o.quantity
    && o.lineDiscount >= 0 && o.bundleDiscount >= 0
    && o.lineTotal == o.lineSubtotal - o.lineDiscount - o.bundleDiscount >= 0
  }

  lemma {:induction false} CartIsSplittable(cart: Cart, bundles: seq<Bundle>, now: int)
    requires AllAvailable(cart.items)
    ensures Instances(AllLines(cart.items), bundles, CouponIsApplied(cart, now)) == CartInstances(cart, bundles, now)
    ensures Splittable(cart.items, CartInstances(cart, bundles, now), |cart.items|)
  {
    AllLinesAreSourceLines(cart.items);
    CartInstancesPriced(cart, bundles, now);
    forall i: nat | i < |cart.items|
      ensures SumBy(CartInstances(cart, bundles, now), UsesOf(i)) <= cart.items[i].quantity
    {
      CartUsesWithinQuantity(cart, bundles, now, i);
    }
  }

  ghost predicate ItemsFollowDrafts(items: seq<CartItem>, drafts: seq<Draft>, shares: seq<int>, made: seq<OrderItem>) {
    && |made| == |drafts| == |shares|
    && forall j :: 0 <= j < |drafts| ==> made[j] == MakeItem(items, drafts[j], shares[j])
  }

  lemma {:induction false} EligibleTotal(items: seq<CartItem>, drafts: seq<Draft>)
    ensures Total(EligibleForCoupon(items, drafts)) == SumBy(drafts, SubtotalIn(items)) - SumBy(drafts, DraftDiscount)
  {
    var amounts := EligibleForCoupon(items, drafts);
    if drafts != [] {
      EligibleTotal(items, drafts[1..]);
      assert amounts[1..] == EligibleForCoupon(items, drafts[1..]);
      TotalHead(amounts);
    }
  }

  /** With exact shares of the coupon, the order lines are sound and add up. */
  lemma {:induction false} SharesMakeSoundItems(cart: Cart, drafts: seq<Draft>, discountTotal: int, shares: seq<int>, made: seq<OrderItem>)
    requires GoodDrafts(cart.items, drafts)
    requires ExactAllocation(EligibleForCoupon(cart.items, drafts), discountTotal, shares)
    requires ItemsFollowDrafts(cart.items, drafts, shares, made)
    ensures forall o :: o in made ==> SoundItem(cart, o)
    ensures SumBy(made, LineDiscountOf) == Total(shares)
    ensures SumBy(made, LineTotalOf)
         == SumBy(drafts, SubtotalIn(cart.items)) - SumBy(drafts, DraftDiscount) - Total(shares)
  {
    forall o | o in made ensures SoundItem(cart, o) {
      var j :| 0 <= j < |made| && made[j] == o;
      assert drafts[j] in drafts;
    }
    SumPointwise(made, shares, LineDiscountOf, Itself);
    TotalsOfItems(cart.items, drafts, shares, made);
  }

  lemma {:induction false} TotalsOfItems(items: seq<CartItem>, drafts: seq<Draft>, shares: seq<int>, made: seq<OrderItem>)
    requires ItemsFollowDrafts(items, drafts, shares, made)
    ensures SumBy(made, LineTotalOf) == SumBy(drafts, SubtotalIn(items)) - SumBy(drafts, DraftDiscount) - Total(shares)
  {
    if made != [] {
      TotalHead(shares);
      TotalsOfItems(items, drafts[1..], shares[1..], made[1..]);
    }
  }

  lemma {:induction false} AvailableSubtotals(items: seq<CartItem>)
    requires AllAvailable(items)
    ensures SumBy(items, LineSubtotal) == SubtotalOf(items)
  {
    SumEqual(items, LineSubtotal, AvailableSubtotal);
  }

  lemma {:induction false} EligibleNonNegative(items: seq<CartItem>, drafts: seq<Draft>)
    requires GoodDrafts(items, drafts)
    ensures NonNegative(EligibleForCoupon(items, drafts))
  {
    forall j | 0 <= j < |drafts| ensures EligibleForCoupon(items, drafts)[j] >= 0 {
      assert drafts[j] in drafts;
    }
  }

  /** Money: order lines are never negative, coupon shares add up to the coupon discount, and the
      line totals plus shipping are the order total, which is the quote for the same cart, bundles,
      time and rate. */
  lemma {:induction false} OrderConservesMoney(cart: Cart, bundles: seq<Bundle>, now: int, later: int, rate: ShippingRate, expectedTotal: int)
    requires PlaceOrder(cart, bundles, now, later, rate, expectedTotal).Placed?
    ensures var o := PlaceOrder(cart, bundles, now, later, rate, expectedTotal).order;
      && (forall item :: item in o.items ==> SoundItem(cart, item))
      && SumBy(o.items, LineDiscountOf) == o.discountTotal
      && SumBy(o.items, LineTotalOf) + o.shippingTotal == o.total
      && o.total == expectedTotal == QuoteOf(cart, bundles, now, rate).total
      && o.total >= 0
  {
    var o := PlaceOrder(cart, bundles, now, later, rate, expectedTotal).order;
    var instances := CartInstances(cart, bundles, now);
    var drafts := Drafts(cart.items, instances);
    var view := ViewOf(cart, bundles, now);
    CartIsSplittable(cart, bundles, now);
    CartViewIsConsistent(cart, bundles, now);
    assert cart.items[..|cart.items|] == cart.items;
    DraftsTotals(cart.items, instances, |cart.items|);
    AvailableSubtotals(cart.items);
    EligibleTotal(cart.items, drafts);
    EligibleNonNegative(cart.items, drafts);
    AllocateIsExact(EligibleForCoupon(cart.items, drafts), view.discountTotal);
    SharesMakeSoundItems(cart, drafts, view.discountTotal,
                         Allocate(EligibleForCoupon(cart.items, drafts), view.discountTotal), o.items);
  }

  lemma {:induction false} InstanceOrderLines(items: seq<CartItem>, instances: seq<Instance>, shares: seq<int>, k: nat)
    requires |shares| == |Drafts(items, instances)| && k < |instances| && PricedAgainst(items, instances[k])
    ensures var made := MakeItems(items, Drafts(items, instances), shares);
      && SumBy(made, ItemUnitsOf(k)) == |instances[k].unitAllocations|
      && SumBy(made, ItemDiscountOf(k)) == instances[k].discountAmount
      && SumBy(made, ItemSubtotalOf(k)) == instances[k].normalSubtotal
  {
    var drafts := Drafts(items, instances);
    var made := MakeItems(items, drafts, shares);
    InstanceIsSplitExactly(items, instances, k);
    SumPointwise(made, drafts, ItemUnitsOf(k), UnitsOfInstance(k));
    SumPointwise(made, drafts, ItemDiscountOf(k), DiscountOfInstance(k));
    SumPointwise(made, drafts, ItemSubtotalOf(k), SubtotalOfInstance(items, k));
  }

  lemma {:induction false} CartLineOrderLines(items: seq<CartItem>, instances: seq<Instance>, shares: seq<int>, i: nat)
    requires |shares| == |Drafts(items, instances)| && i < |items| && Splittable(items, instances, |items|)
    ensures SumBy(MakeItems(items, Drafts(items, instances), shares), ItemQuantityOn(i)) == items[i].quantity
  {
    assert items[..|items|] == items;
    LineKeepsItsUnits(items, instances, i, |items|);
    SumPointwise(MakeItems(items, Drafts(items, instances), shares), Drafts(items, instances), ItemQuantityOn(i), QuantityOnLine(i));
  }

  /** Units and bundles: every cart line keeps its quantity, and the order lines linked to a bundle
      instance carry exactly its units, its discount and its normal subtotal. */
  lemma {:induction false} OrderConservesUnits(cart: Cart, bundles: seq<Bundle>, now: int, later: int, rate: ShippingRate, expectedTotal: int)
    requires PlaceOrder(cart, bundles, now, later, rate, expectedTotal).Placed?
    ensures var o := PlaceOrder(cart, bundles, now, later, rate, expectedTotal).order;
      && (forall i: nat :: i < |cart.items| ==> SumBy(o.items, ItemQuantityOn(i)) == cart.items[i].quantity)
      && (forall k: nat :: k < |o.instances| ==>
            && SumBy(o.items, ItemUnitsOf(k)) == |o.instances[k].unitAllocations|
            && SumBy(o.items, ItemDiscountOf(k)) == o.instances[k].discountAmount
            && SumBy(o.items, ItemSubtotalOf(k)) == o.instances[k].normalSubtotal)
      && SumBy(o.instances, DiscountAmountOf) == o.bundleDiscountTotal
  {
    var o := PlaceOrder(cart, bundles, now, later, rate, expectedTotal).order;
    var instances := CartInstances(cart, bundles, now);
    var shares := Allocate(EligibleForCoupon(cart.items, Drafts(cart.items, instances)), ViewOf(cart, bundles, now).discountTotal);
    CartIsSplittable(cart, bundles, now);
    forall i: nat | i < |cart.items| ensures SumBy(o.items, ItemQuantityOn(i)) == cart.items[i].quantity {
      CartLineOrderLines(cart.items, instances, shares, i);
    }
    forall k: nat | k < |o.instances|
      ensures SumBy(o.items, ItemUnitsOf(k)) == |o.instances[k].unitAllocations|
      ensures SumBy(o.items, ItemDiscountOf(k)) == o.instances[k].discountAmount
      ensures SumBy(o.items, ItemSubtotalOf(k)) == o.instances[k].normalSubtotal
    {
      assert instances[k] in instances;
      InstanceOrderLines(cart.items, instances, shares, k);
    }
  }

  // ------------------------------------------------------------ what the order asks of the database

  /** What the database side of a checkout relies on: a total that is not negative, and positive
      quantities on the lines and to reserve. */
  ghost predicate Orderable(o: PlacedOrder) {
    && o.total >= 0
    && (forall i :: 0 <= i < |o.items| ==> o.items[i].quantity > 0)
    && Stockroom.AllPositive(o.stockLines)
  }

  lemma {:induction false} StockLinesPositive(items: seq<CartItem>)
    requires forall i :: 0 <= i < |items| ==> items[i].quantity > 0
    ensures Stockroom.AllPositive(StockLines(items))
  {
    if items != [] {
      StockLinesPositive(items[1..]);
    }
  }

  lemma {:induction false} PlacedOrdersAreOrderable(cart: Cart, bundles: seq<Bundle>, now: int, later: int, rate: ShippingRate, expectedTotal: int)
    requires PlaceOrder(cart, bundles, now, later, rate, expectedTotal).Placed?
    requires forall i :: 0 <= i < |cart.items| ==> cart.items[i].quantity > 0
    ensures Orderable(PlaceOrder(cart, bundles, now, later, rate, expectedTotal).order)
  {
    var o := PlaceOrder(cart, bundles, now, later, rate, expectedTotal).order;
    OrderConservesMoney(cart, bundles, now, later, rate, expectedTotal);
    forall i | 0 <= i < |o.items| ensures o.items[i].quantity > 0 {
      assert o.items[i] in o.items;
    }
    StockLinesPositive(cart.items);
  }

  /** Validating the coupon again, at `later`, does not make it the coupon that priced the order at `now`: an
      order with a coupon was priced with it exactly when the coupon had no problem at `now` either, which is
      when it had already started. Otherwise it carries the coupon but none of its discount. */
  lemma {:induction false} RecordedCouponPriced(cart: Cart, bundles: seq<Bundle>, now: int, later: int, rate: ShippingRate, expectedTotal: int)
    requires PlaceOrder(cart, bundles, now, later, rate, expectedTotal).Placed? && now <= later
    ensures var o := PlaceOrder(cart, bundles, now, later, rate, expectedTotal).order;
      && (o.couponId == if cart.coupon.Some? then Some(cart.coupon.value.id) else None)
      && (o.couponId.Some? ==>
            var coupon := cart.coupon.value;
            && FindCouponProblem(coupon, SubtotalOf(cart.items), later).None?
            && (CouponIsApplied(cart, now) <==> FindCouponProblem(coupon, SubtotalOf(cart.items), now).None?)
            && (CouponIsApplied(cart, now) <==> (coupon.startsAt.Some? ==> coupon.startsAt.value <= now))
            && (!CouponIsApplied(cart, now) ==> SumBy(o.items, LineDiscountOf) == 0))
  {
    OrderConservesMoney(cart, bundles, now, later, rate, expectedTotal);
  }

  /** One item at 100, and a coupon of 10 that starts at 5. */
  function LateCouponCart(): Cart {
    var variant := Variant("v", "p", 100, 0, false, true, true, true, None, "EGP", None, None, None, []);
    Cart("cart", "EGP", [CartItem("item", variant, 1, false)], Some(Coupon("c", Fixed, 10, true, Some(5), None, None, None, 0)))
  }

  /** Priced at 4 and validated at 6, its order costs 100 and yet records the coupon. */
  lemma {:induction false} CouponRecordedUnpriced()
    ensures var placement := PlaceOrder(LateCouponCart(), [], 4, 6, ShippingRate(0, None), 100);
      && placement.Placed? && placement.order.couponId == Some("c")
      && placement.order.total == 100 && placement.order.discountTotal == 0
      && !CouponIsApplied(LateCouponCart(), 4)
  {
    var cart := LateCouponCart();
    assert cart.items == [cart.items[0]] && IsAvailable(cart.items[0]);
    SumOne(cart.items[0], AvailableSubtotal);
    assert SubtotalOf(cart.items) == 100;
    assert CartInstances(cart, [], 4) == [];
  }
}

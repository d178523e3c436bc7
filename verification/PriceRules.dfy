/** The rules of the price, field by field: what may be sold and for how much, when a coupon counts and what it
    takes off, which lines may fill a bundle, and what shipping costs
    (src/modules/cart/cart-pricing.service.ts, src/modules/orders/orders.service.ts). */
module PriceRules {
  import opened Options
  import opened Sums
  import opened DiscountAllocation
  import opened BundlePricing
  import opened BundleGrouping
  import opened BundleProgress
  import opened BundleStacking
  import opened CartPricing
  import opened OrderLines

  // ------------------------------------------------------------ what may be sold, and for how much

  /** Price of one piece; a personalizable variant is charged for its customization. */
  function PieceOf(v: Variant): nat { if v.isPersonalizable then v.price + v.customizationPrice else v.price }

  predicate OnSale(v: Variant) { v.productPublished && v.isActive }

  predicate InStock(v: Variant) { if v.stockItem.Some? then v.stockItem.value.onHand > v.stockItem.value.reserved else v.isUnlimitedStock }

  predicate DesignGiven(item: CartItem) { item.variant.isPersonalizable ==> item.hasCustomDesign }

  predicate Sellable(item: CartItem) { OnSale(item.variant) && InStock(item.variant) && DesignGiven(item) }

  function PayableOf(item: CartItem): int { if Sellable(item) then PieceOf(item.variant) * item.quantity else 0 }

  /** The first thing that keeps an item from being sold. */
  ghost predicate ReasonIs(item: CartItem, reason: Option<Unavailable>) {
    && (reason.None? <==> Sellable(item))
    && (reason == Some(NotSold) <==> !OnSale(item.variant))
    && (reason == Some(OutOfStock) <==> OnSale(item.variant) && !InStock(item.variant))
    && (reason == Some(DesignMissing) <==> OnSale(item.variant) && InStock(item.variant) && !DesignGiven(item))
  }

  lemma {:induction false} ReasonsAreChecked(item: CartItem)
    ensures ReasonIs(item, UnavailableReason(item)) && EffectiveUnitPrice(item.variant) == PieceOf(item.variant)
  {
  }

  /** Every item is shown at its price, with the first reason it cannot be bought, and the subtotal is that of the
      items that can. */
  lemma {:induction false} ViewShowsTheItems(cart: Cart, bundles: seq<Bundle>, now: int)
    ensures var view := ViewOf(cart, bundles, now);
      && |view.items| == |cart.items|
      && (forall i :: 0 <= i < |cart.items| ==>
            && view.items[i].unitPrice == PieceOf(cart.items[i].variant) && view.items[i].quantity == cart.items[i].quantity
            && view.items[i].lineSubtotal == PieceOf(cart.items[i].variant) * cart.items[i].quantity
            && ReasonIs(cart.items[i], view.items[i].unavailableReason))
      && view.subtotal == SumBy(cart.items, PayableOf)
  {
    forall i | 0 <= i < |cart.items| ensures ReasonIs(cart.items[i], UnavailableReason(cart.items[i])) {
      ReasonsAreChecked(cart.items[i]);
    }
    forall item | item in cart.items ensures AvailableSubtotal(item) == PayableOf(item) {
      ReasonsAreChecked(item);
    }
    SumEqual(cart.items, AvailableSubtotal, PayableOf);
  }

  /** A pricing line carries its item's own fields. */
  ghost predicate LineOf(line: Line, item: CartItem, i: nat) {
    var v := item.variant;
    && line.lineIndex == i && line.quantity == item.quantity && line.unitPrice == PieceOf(v) && line.currency == v.currency
    && line.variantId == v.id && line.productId == Some(v.productId) && line.caseTypeId == v.caseTypeId
    && line.phoneModelId == v.phoneModelId && line.phoneBrandId == v.phoneBrandId && line.collectionIds == v.collectionIds
  }

  /** The bundles see one line for each item that can be bought, at its place in the cart, and nothing else. */
  lemma {:induction false} BundlesSeeTheSellable(items: seq<CartItem>)
    ensures DistinctIndices(SourceLines(items))
    ensures forall line :: line in SourceLines(items) ==>
      line.lineIndex < |items| && Sellable(items[line.lineIndex]) && LineOf(line, items[line.lineIndex], line.lineIndex)
    ensures forall i :: 0 <= i < |items| && Sellable(items[i]) ==> exists line :: line in SourceLines(items) && LineOf(line, items[i], i)
  {
    SourceLinesIndexed(items);
    forall line | line in SourceLines(items)
      ensures line.lineIndex < |items| && Sellable(items[line.lineIndex]) && LineOf(line, items[line.lineIndex], line.lineIndex)
    {
      ReasonsAreChecked(items[line.lineIndex]);
    }
    forall i | 0 <= i < |items| && Sellable(items[i]) ensures exists line :: line in SourceLines(items) && LineOf(line, items[i], i) {
      ReasonsAreChecked(items[i]);
      AvailableLinePresent(items, i);
      assert LineOf(SourceLine(items[i], i), items[i], i);
    }
  }

  ghost predicate Explains(item: CartItem, issue: (string, Unavailable)) {
    item.id == issue.0 && !Sellable(item) && ReasonIs(item, Some(issue.1))
  }

  /** The quote lists exactly the items that cannot be bought, each with its reason. */
  lemma {:induction false} IssuesAreTheUnsellable(items: seq<CartItem>)
    ensures Issues(items) == [] <==> forall item :: item in items ==> Sellable(item)
    ensures forall issue :: issue in Issues(items) ==> exists item :: item in items && Explains(item, issue)
    ensures forall item :: item in items && !Sellable(item) ==> exists issue :: issue in Issues(items) && Explains(item, issue)
  {
    forall issue | issue in Issues(items) ensures exists item :: item in items && Explains(item, issue) {
      var item := IssueHasItem(items, issue);
    }
    forall item | item in items && !Sellable(item) ensures exists issue :: issue in Issues(items) && Explains(item, issue) {
      var issue := ItemHasIssue(items, item);
    }
    if Issues(items) != [] {
      var item := IssueHasItem(items, Issues(items)[0]);
    }
  }

  lemma {:induction false} IssueHasItem(items: seq<CartItem>, issue: (string, Unavailable)) returns (item: CartItem)
    requires issue in Issues(items)
    ensures item in items && Explains(item, issue)
  {
    ReasonsAreChecked(items[0]);
    if issue in Issues(items[1..]) {
      item := IssueHasItem(items[1..], issue);
    } else {
      item := items[0];
    }
  }

  lemma {:induction false} ItemHasIssue(items: seq<CartItem>, item: CartItem) returns (issue: (string, Unavailable))
    requires item in items && !Sellable(item)
    ensures issue in Issues(items) && Explains(item, issue)
  {
    ReasonsAreChecked(item);
    if item == items[0] {
      issue := (item.id, UnavailableReason(item).value);
    } else {
      issue := ItemHasIssue(items[1..], item);
    }
  }

  // ------------------------------------------------------------ when a coupon counts

  predicate Started(c: Coupon, now: int) { c.startsAt.Some? ==> c.startsAt.value <= now }

  predicate NotOver(c: Coupon, now: int) { c.expiresAt.Some? ==> now <= c.expiresAt.value }

  predicate EnoughSpent(c: Coupon, subtotal: int) { c.minSpend.Some? ==> c.minSpend.value <= subtotal }

  predicate UsesLeft(c: Coupon) { c.usageLimit.Some? ==> c.usageCount < c.usageLimit.value }

  predicate Counts(c: Coupon, subtotal: int, now: int) {
    c.isActive && Started(c, now) && NotOver(c, now) && EnoughSpent(c, subtotal) && UsesLeft(c)
  }

  /** The first thing that keeps a coupon from counting. */
  ghost predicate ProblemIs(c: Coupon, subtotal: int, now: int, problem: Option<CouponProblem>) {
    && (problem.None? <==> Counts(c, subtotal, now))
    && (problem == Some(Inactive) <==> !c.isActive)
    && (problem == Some(NotStarted) <==> c.isActive && !Started(c, now))
    && (problem == Some(Expired) <==> c.isActive && Started(c, now) && !NotOver(c, now))
    && (problem == Some(BelowMinimumSpend) <==> c.isActive && Started(c, now) && NotOver(c, now) && !EnoughSpent(c, subtotal))
    && (problem == Some(UsageLimitReached) <==>
          c.isActive && Started(c, now) && NotOver(c, now) && EnoughSpent(c, subtotal) && !UsesLeft(c))
  }

  lemma {:induction false} ProblemsAreChecked(c: Coupon, subtotal: int, now: int)
    ensures ProblemIs(c, subtotal, now, FindCouponProblem(c, subtotal, now))
  {
  }

  /** What a coupon that counts takes off what the bundles left: its value, or its percentage of it rounded down,
      and never more than there is. */
  ghost predicate TakesOff(c: Coupon, rest: int, discount: int) {
    && 0 <= discount <= rest
    && (c.kind == Fixed ==> discount == if c.value <= rest then c.value else rest)
    && (c.kind == Percentage && c.value <= 100 ==> rest * c.value - 99 <= 100 * discount <= rest * c.value)
    && (c.kind == Percentage && c.value > 100 ==> discount == rest)
  }

  lemma {:induction false} DiscountIsTakenOff(c: Coupon, rest: nat)
    ensures TakesOff(c, rest, ComputeDiscount(c, rest))
  {
    ComputeDiscountBounds(c, rest);
    if c.kind == Percentage && c.value <= 100 {
      PercentageRoundsDown(c, rest);
    } else if c.kind == Percentage && rest > 0 {
      MoreThanAll(rest, c.value);
    }
  }

  lemma {:induction false} MoreThanAll(rest: nat, percent: nat)
    requires percent > 100
    ensures rest * percent / 100 >= rest
  {
    assert rest * percent >= rest * 100;
  }

  /** The cart's coupon, if it has one that counts, takes off its due; any other takes off nothing. */
  ghost predicate CouponTakesItsDue(coupon: Option<Coupon>, subtotal: int, bundleDiscountTotal: int, now: int, discountTotal: int) {
    if coupon.Some? && Counts(coupon.value, subtotal, now)
    then TakesOff(coupon.value, subtotal - bundleDiscountTotal, discountTotal)
    else discountTotal == 0
  }

  /** The cart's coupon applies exactly when it counts, and the warning says what keeps it from counting. */
  lemma {:induction false} CouponAppliesIfItCounts(cart: Cart, now: int)
    ensures CouponIsApplied(cart, now) <==> cart.coupon.Some? && Counts(cart.coupon.value, SubtotalOf(cart.items), now)
    ensures if cart.coupon.Some? then ProblemIs(cart.coupon.value, SubtotalOf(cart.items), now, CouponWarning(cart, now))
            else CouponWarning(cart, now).None?
  {
    if cart.coupon.Some? {
      ProblemsAreChecked(cart.coupon.value, SubtotalOf(cart.items), now);
    }
  }

  lemma {:induction false} ViewAppliesTheCoupon(cart: Cart, bundles: seq<Bundle>, now: int)
    ensures var view := ViewOf(cart, bundles, now);
      && CouponTakesItsDue(cart.coupon, view.subtotal, view.bundleDiscountTotal, now, view.discountTotal)
      && view.total == view.subtotal - view.bundleDiscountTotal - view.discountTotal
      && (if cart.coupon.Some? then ProblemIs(cart.coupon.value, view.subtotal, now, view.couponWarning) else view.couponWarning.None?)
  {
    var view := ViewOf(cart, bundles, now);
    CouponAppliesIfItCounts(cart, now);
    CouponOnlyReducesTheRest(cart, bundles, now);
    if CouponIsApplied(cart, now) {
      DiscountIsTakenOff(cart.coupon.value, view.subtotal - view.bundleDiscountTotal);
    }
  }

  /** Beside a coupon that counts, only bundles that stack with it are granted. */
  lemma {:induction false} CouponKeepsBundlesOut(cart: Cart, bundles: seq<Bundle>, now: int)
    requires cart.coupon.Some? && Counts(cart.coupon.value, SumBy(cart.items, PayableOf), now)
    requires forall b :: b in bundles ==> !b.allowCouponStacking
    ensures var view := ViewOf(cart, bundles, now);
      view.bundleDiscountTotal == 0 && forall i :: 0 <= i < |view.items| ==> view.items[i].bundleDiscount == 0
  {
    ViewShowsTheItems(cart, bundles, now);
    CouponAppliesIfItCounts(cart, now);
    SourceLinesIndexed(cart.items);
    BesideCouponOnlyStacking(SourceLines(cart.items), bundles);
    assert CartInstances(cart, bundles, now) == [];
  }

  // ------------------------------------------------------------ the placed order

  function ShippingFor(rate: ShippingRate, goods: int): int {
    if rate.freeShippingThreshold.Some? && goods >= rate.freeShippingThreshold.value then 0 else rate.price
  }

  lemma {:induction false} QuoteFollowsTheRules(cart: Cart, bundles: seq<Bundle>, now: int, rate: ShippingRate)
    ensures var quote := QuoteOf(cart, bundles, now, rate);
      && quote.subtotal == SumBy(cart.items, PayableOf)
      && CouponTakesItsDue(cart.coupon, quote.subtotal, quote.bundleDiscountTotal, now, quote.discountTotal)
      && quote.shippingTotal == ShippingFor(rate, quote.subtotal - quote.bundleDiscountTotal - quote.discountTotal)
      && quote.total == quote.subtotal - quote.bundleDiscountTotal - quote.discountTotal + quote.shippingTotal
      && (quote.issues == [] <==> forall item :: item in cart.items ==> Sellable(item))
  {
    ViewShowsTheItems(cart, bundles, now);
    ViewAppliesTheCoupon(cart, bundles, now);
    IssuesAreTheUnsellable(cart.items);
  }

  /** A placed order is charged by the same rules as the view and the quote, line by line. */
  lemma {:induction false} OrderFollowsTheRules(cart: Cart, bundles: seq<Bundle>, now: int, later: int, rate: ShippingRate, expectedTotal: int)
    requires PlaceOrder(cart, bundles, now, later, rate, expectedTotal).Placed?
    ensures var o := PlaceOrder(cart, bundles, now, later, rate, expectedTotal).order;
      && (forall item :: item in cart.items ==> Sellable(item))
      && (forall item :: item in o.items ==> item.itemIndex < |cart.items| && item.unitPrice == PieceOf(cart.items[item.itemIndex].variant))
      && o.subtotal == SumBy(cart.items, PayableOf)
      && CouponTakesItsDue(cart.coupon, o.subtotal, o.bundleDiscountTotal, now, o.discountTotal)
      && o.shippingTotal == ShippingFor(rate, o.subtotal - o.bundleDiscountTotal - o.discountTotal)
      && o.total == o.subtotal - o.bundleDiscountTotal - o.discountTotal + o.shippingTotal
  {
    var o := PlaceOrder(cart, bundles, now, later, rate, expectedTotal).order;
    ViewShowsTheItems(cart, bundles, now);
    ViewAppliesTheCoupon(cart, bundles, now);
    OrderConservesMoney(cart, bundles, now, later, rate, expectedTotal);
    forall item | item in cart.items ensures Sellable(item) {
      var i :| 0 <= i < |cart.items| && cart.items[i] == item;
      ReasonsAreChecked(item);
    }
    forall item | item in o.items ensures item.itemIndex < |cart.items| && item.unitPrice == PieceOf(cart.items[item.itemIndex].variant) {
      ReasonsAreChecked(cart.items[item.itemIndex]);
    }
  }

  /** Exactly what makes a checkout of a cart fail, in the order it is checked. */
  lemma {:induction false} PlacedIff(cart: Cart, bundles: seq<Bundle>, now: int, later: int, rate: ShippingRate, expectedTotal: int)
    ensures var placement := PlaceOrder(cart, bundles, now, later, rate, expectedTotal);
            var quote := QuoteOf(cart, bundles, now, rate);
            var sellable := forall item :: item in cart.items ==> Sellable(item);
      && (placement == Refused(EmptyCart) <==> cart.items == [])
      && (placement == Refused(ItemsUnavailable) <==> cart.items != [] && !sellable)
      && (placement == Refused(PriceChanged(quote.total)) <==> cart.items != [] && sellable && quote.total != expectedTotal)
      && (placement.Placed? <==>
            && cart.items != [] && sellable && quote.total == expectedTotal
            && (cart.coupon.Some? ==> Counts(cart.coupon.value, quote.subtotal, later)))
  {
    assert AllAvailable(cart.items) <==> forall item :: item in cart.items ==> Sellable(item) by {
      AvailableAreSellable(cart.items);
    }
    if cart.coupon.Some? {
      ProblemsAreChecked(cart.coupon.value, SubtotalOf(cart.items), later);
    }
  }

  lemma {:induction false} AvailableAreSellable(items: seq<CartItem>)
    ensures AllAvailable(items) <==> forall item :: item in items ==> Sellable(item)
  {
    forall item ensures IsAvailable(item) <==> Sellable(item) {
      ReasonsAreChecked(item);
    }
    if AllAvailable(items) {
      forall item | item in items ensures Sellable(item) {
        var i :| 0 <= i < |items| && items[i] == item;
      }
    }
  }

  // ------------------------------------------------------------ the coupon's share of each order line

  function CouponBases(items: seq<OrderItem>): (bases: seq<int>)
    ensures |bases| == |items|
    ensures forall j :: 0 <= j < |items| ==> bases[j] == items[j].lineSubtotal - items[j].bundleDiscount
  {
    seq(|items|, j requires 0 <= j < |items| => items[j].lineSubtotal - items[j].bundleDiscount)
  }

  function LineDiscounts(items: seq<OrderItem>): (discounts: seq<int>)
    ensures |discounts| == |items|
    ensures forall j :: 0 <= j < |items| ==> discounts[j] == items[j].lineDiscount
  {
    seq(|items|, j requires 0 <= j < |items| => items[j].lineDiscount)
  }

  lemma {:induction false} BasesAreEligible(items: seq<CartItem>, drafts: seq<Draft>, shares: seq<int>)
    requires |shares| == |drafts|
    ensures CouponBases(MakeItems(items, drafts, shares)) == EligibleForCoupon(items, drafts)
    ensures LineDiscounts(MakeItems(items, drafts, shares)) == shares
  {
  }

  /** The coupon discount is split over the order lines in proportion to what the bundles left of each. */
  lemma {:induction false} CouponSharesAreProportional(cart: Cart, bundles: seq<Bundle>, now: int, later: int, rate: ShippingRate,
                                                       expectedTotal: int)
    requires PlaceOrder(cart, bundles, now, later, rate, expectedTotal).Placed?
    ensures var o := PlaceOrder(cart, bundles, now, later, rate, expectedTotal).order;
      o.discountTotal > 0 ==>
        Total(CouponBases(o.items)) > 0 && Proportional(CouponBases(o.items), o.discountTotal, LineDiscounts(o.items))
  {
    var o := PlaceOrder(cart, bundles, now, later, rate, expectedTotal).order;
    var instances := CartInstances(cart, bundles, now);
    var drafts := Drafts(cart.items, instances);
    var amounts := EligibleForCoupon(cart.items, drafts);
    CartIsSplittable(cart, bundles, now);
    BasesAreEligible(cart.items, drafts, Allocate(amounts, o.discountTotal));
    assert cart.items[..|cart.items|] == cart.items;
    DraftsTotals(cart.items, instances, |cart.items|);
    EligibleNonNegative(cart.items, drafts);
    AllocateIsExact(amounts, o.discountTotal);
    OrderConservesMoney(cart, bundles, now, later, rate, expectedTotal);
    if o.discountTotal > 0 {
      SumPointwise(LineDiscounts(o.items), o.items, Itself, LineDiscountOf);
      AllocateIsProportional(amounts, o.discountTotal);
    }
  }

  // ------------------------------------------------------------ which lines may fill a bundle

  /** A line belongs to a scope by its own variant, or by one non-empty id that is targeted. */
  ghost predicate InScope(line: Line, b: Bundle) {
    var targets := ValueOr(b.targetIds, {});
    var scope := ValueOr(b.scope, SpecificVariants);
    || scope == AllProducts
    || (scope == SpecificVariants && line.variantId in b.eligibleVariants.Keys)
    || (scope == Products && exists id :: line.productId == Some(id) && id in targets)
    || (scope == Collections && exists k :: 0 <= k < |line.collectionIds| && line.collectionIds[k] in targets)
    || (scope == CaseTypes && exists id :: id != "" && line.caseTypeId == Some(id) && id in targets)
    || (scope == PhoneBrands && exists id :: id != "" && line.phoneBrandId == Some(id) && id in targets)
    || (scope == PhoneModels && exists id :: id != "" && line.phoneModelId == Some(id) && id in targets)
  }

  /** A line may fill a bundle exactly when it is in the bundle's currency and scope; only named variants cost a
      surcharge, their own. */
  lemma {:induction false} ScopeDecides(line: Line, b: Bundle)
    ensures MayFill(line, b) <==> line.currency == b.currency && InScope(line, b)
    ensures var u := UnitFor(line, b);
      && u.lineIndex == line.lineIndex && u.phoneModelId == line.phoneModelId && u.price == line.unitPrice
      && (MayFill(line, b) && ValueOr(b.scope, SpecificVariants) == SpecificVariants ==> u.surcharge == b.eligibleVariants[line.variantId])
      && (ValueOr(b.scope, SpecificVariants) != SpecificVariants ==> u.surcharge == 0)
  {
    if ValueOr(b.scope, SpecificVariants) == Collections && IsLineEligible(line, b) {
      var id :| id in line.collectionIds && id in ValueOr(b.targetIds, {});
      var k :| 0 <= k < |line.collectionIds| && line.collectionIds[k] == id;
    }
  }
}

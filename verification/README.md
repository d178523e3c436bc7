# Verified model of the shop backend

A Dafny model of the parts of the shop backend in which several pieces of code have to agree: the
pricing of carts and orders, the order protocol over the database, the grouping of duplicate images,
and the rotation of refresh tokens. `dafny verify dfyconfig.toml` checks the whole project.

**Pricing** (`Sums`, `DiscountAllocation`, `BundlePricing`, `BundleGrouping`, `BundleOptimality`, `BundleStacking`,
`BundleProgress`, `BundleOffers`, `BundleRounds`, `BundlePromise`, `BundleFewModels`, `BundleReordering`,
`BundleLosingCart`, `BundleCarts`, `CartPricing`, `OrderLines`, `PriceRules`). Money is an integer number of minor
units; prices, surcharges, fixed totals and quantities are naturals. `BundlePricing.Instances` is the grouping as a
function and `ComputeBundleInstances` the loop over remaining-quantity and bucket maps that computes it; the same
pairing of a function with the method that computes it is used for the discount split, the cart view, the
storefront's offer and order creation. Maps whose iteration order matters are sequences of entries in insertion
order. The clock reads of one request are parameters. `BundleStacking`, `BundleOffers` and `PriceRules` state what
these functions mean by the fields of carts, bundles, coupons and rates alone.

**The order protocol** (`Stockroom`, `Shop`, `Database`, `ShopHistory`, `ShopStock`, `ShopCoupons`, `ShopCheckout`,
`ShopPayments`, `ShopDeadlines`, `ShopRuns`, `ShopOrders`, `ShopAdmission`, `ShopOutcomes`, `ShopTransitions`,
`ShopRecords`). `Shop.Tables` is the database; `Shop.Next` is one committed transaction, or one of the separate
reads that the code makes outside a transaction: a checkout request goes through its key lookup, receipt pre-check,
transaction and recovery one step at a time, and a sweep selects its candidates long before it acts on them. A
checkout prices the contents its cart has in the tables at that moment; the active bundles, the shipping rate and
its two clock readings are parameters of the step. Steps of all requests, staff actions and sweeps interleave
freely. Row locks, conditional updates, unique indexes and rollback are the meaning of a step: a transaction that
throws leaves the tables alone. `Database.Store` holds the tables as fields and runs the same transactions statement
by statement. `ShopRuns.StepKeepsInv` keeps one invariant over every step; the other lemmas of `ShopRuns` read it
off in every reachable state, or follow a run. `ShopOrders` puts pricing and protocol together: what a committed
checkout stores of the cart it was computed from. `ShopAdmission`, `ShopOutcomes`, `ShopTransitions` and
`ShopRecords` say by the fields of the tables exactly when each call, staff action and sweep succeeds, and all that
it changes.

**Image de-duplication** (`ImageHash`, `ImageDedupe`). Union-find with path halving on an array, proved to
compute the connected components of the match relation.

**Refresh tokens** (`TokenRotation`). Login, the two halves of a refresh, and logout as steps on the token
table.

What the code does and its comments do not say, or the other way round:

- The remainder of `allocateDiscount` is not spread over the lines: the loop fills the first line that has
  headroom before it moves on (src/modules/orders/order-pricing.util.ts:48-56). The model follows the code.
- `savingsIfCompleted` promises a saving that a different-models bundle does not always grant: the added units
  also change which models the first rounds take. With size 2, fixed total 7, least price 2 and no surcharges, a
  cart with one unit each of models C at 2, D at 7 and E at 8 has a discount of 2 (C and D) and is promised 3 more
  for one unit of another model; adding model B at 2 makes B and C the first group, the loop stops on its negative
  discount, and the whole discount is gone. `BundleCarts.BrokenPromise` builds this cart, and its like for every
  size, from the listings of the shop. The promise is always kept by bundles that are not repeatable, and by those
  whose advertised bounds alone cover the price of a group. For any other bundle it depends on its listings. It is
  kept when no `size` listings of different models can lose money together (`BundleCarts.CoveredListingsKeepPromise`),
  or they span at most `size` phone models, or `size + 1` with one surcharge for all
  (`BundleCarts.FewModelsKeepPromise`); with `size + 2` models at the highest surcharge some cart loses. With one
  surcharge for all listings `BundleCarts.PromiseKeptIff` settles it exactly; that is every scope other than
  SPECIFIC_VARIANTS, where listings have no surcharge. `BundleCarts.PromiseKeptIffBoundsCover` settles it when
  surcharges differ and `size + 2` models are listed at the highest. The prices of a cart may be any from the
  advertised least price up, and the missing units may be added by any change of its lines; only where one model is
  listed at different surcharges must its units stay in order, as they do when quantities rise and new lines are
  appended (`BundleCarts.AddingKeepsOrder`).
- An order can carry a coupon, and count its usage, although it was priced without it: the coupon is validated
  again after pricing, by a later reading of the clock, and may have started in between.
  `OrderLines.RecordedCouponPriced` says when: exactly if it had not yet started at the first reading;
  `OrderLines.CouponRecordedUnpriced` is such an order.
- `adjust` may take stock below what is reserved, so `reserved <= onHand` holds only in runs without such
  adjustments; `Stockroom.AdjustKeepsBackedIff` gives the exact condition for one adjustment.
- `cancelDueToExpiry` does not look at the deadline inside its transaction; it is safe because deadlines
  never change and the candidates were overdue when selected (`ShopRuns.SweepCancelsOnlyOverdue`).
- The recovery after a lost unique-key race never returns an order: the winner of the key is always another
  cart's order (`ShopCheckout.ConflictNeverReturnsAnOrder`).

## Model

| member | source | states |
|---|---|---|
| DiscountAllocation.AllocateIsExact | src/modules/orders/order-pricing.util.ts:33-59 | for non-negative lines and any discount, 0 ≤ share ≤ line for every line and the shares sum to exactly min(discount, sum of lines), or to 0 when there is nothing to give |
| DiscountAllocation.RemainderBelowLineCount | src/modules/orders/order-pricing.util.ts:16-17 | the flooring remainder is never negative and strictly below the number of lines |
| DiscountAllocation.AllocateIsProportional | src/modules/orders/order-pricing.util.ts:42-56 | for non-negative lines with sum S > 0, a discount d > 0 and c = min(d, S): every share lies between ⌊line·c/S⌋ and ⌊line·c/S⌋ + (number of lines − 1), and the shares exceed their floors by less than the number of lines in all |
| DiscountAllocation.HandOutRemainder | src/modules/orders/order-pricing.util.ts:48-56 | the in-place loop terminates and leaves exactly the specified fill of the remainder |
| DiscountAllocation.AllocateDiscount | src/modules/orders/order-pricing.util.ts:33-59 | the array computation returns the specified allocation in every branch, and its split is proportional: each share is its line's part of the discount rounded down, or above it by less than the number of lines, and these excesses together stay below that number |
| BundlePricing.ComputeBundleInstances | src/modules/promotions/bundles/bundle-pricing.util.ts:141-278 | the loops over bundles, units and buckets return exactly the instances of the specification, whose groups, order and coupon policy the rows below state by the cart's own fields |
| BundlePricing.FormInstances | src/modules/promotions/bundles/bundle-pricing.util.ts:202-274 | the grouping loop of one bundle terminates, forms exactly the specified groups and claims exactly their units |
| BundlePricing.ChosenAreHeads | src/modules/promotions/bundles/bundle-pricing.util.ts:210-219 | with different models required, a round picks the first unit of `size` different non-empty buckets |
| BundlePricing.DropPicksSplits | src/modules/promotions/bundles/bundle-pricing.util.ts:240-246 | a round removes exactly the picked units from the buckets |
| BundleGrouping.BucketsHoldTheUnits | src/modules/promotions/bundles/bundle-pricing.util.ts:186-200 | bucketing and sorting neither lose nor duplicate a unit, and each unit is in the bucket of its key |
| BundleGrouping.GroupsAreDisjoint | src/modules/promotions/bundles/bundle-pricing.util.ts:204-274 | the groups are disjoint parts of the units, each complete, with different models where required, never costing more than its units; at most one when not repeatable |
| BundleGrouping.NoUnitClaimedTwice | src/modules/promotions/bundles/bundle-pricing.util.ts:128-149 | across all bundles, a line is claimed at most as often as its quantity |
| BundleGrouping.EveryInstanceIsSound | src/modules/promotions/bundles/bundle-pricing.util.ts:229-272 | every instance has exactly `size` units from eligible lines, 0 ≤ unit discount ≤ unit price, unit discounts summing to the discount, which is the normal subtotal minus the total applied |
| BundleStacking.CouponLeavesStackingBundles | src/modules/promotions/bundles/bundle-pricing.util.ts:152-152 | with a coupon applied the cart gets exactly the instances it would get without one from the bundles that allow stacking |
| BundleStacking.BesideCouponOnlyStacking | src/modules/promotions/bundles/bundle-pricing.util.ts:152-152 | with a coupon applied every instance is a sound instance of a listed bundle that allows stacking, and there is none when no listed bundle does |
| BundleStacking.BundleGetsItsGroups | src/modules/promotions/bundles/bundle-pricing.util.ts:150-274 | a bundle on its own gets all the groups of its units without a coupon, or if it allows stacking, and none otherwise |
| BundleStacking.BundlesAreServedInOrder | src/modules/promotions/bundles/bundle-pricing.util.ts:128-149 | the first bundle gets its instances as if alone, and the others exactly those of the cart without the units it used |
| BundleStacking.UnitsShareByPrice | src/modules/promotions/bundles/bundle-pricing.util.ts:259-272 | every instance splits its discount over its units in proportion to their prices |
| BundleOffers.UnitsAreInOrder | src/modules/promotions/bundles/bundle-pricing.util.ts:186-200 | each model's units are taken dearest first, those of one price in cart order, and none is lost |
| BundleOffers.AnyModelsTakeTheDearest | src/modules/promotions/bundles/bundle-pricing.util.ts:204-246 | an any-models bundle, surcharges or not, cuts its groups from the dearest end and stops exactly when another group is not allowed, not complete, or would lose money |
| BundleOffers.KeysCompareByFirstDifference | src/modules/promotions/bundles/bundle-pricing.util.ts:214-217 | of two model keys the one with the lesser character at the first difference ranks first, and a key before its extensions |
| BundleOptimality.GroupingNeedsCapacity | src/modules/promotions/bundles/bundle-pricing.util.ts:113-119 | any m disjoint groups of different models need Σ min(bucket, m) ≥ size·m |
| BundleOptimality.RoundKeepsCapacity | src/modules/promotions/bundles/bundle-pricing.util.ts:210-219 | one greedy round leaves capacity for m−1 further groups |
| BundleOptimality.GroupCountByCapacity | src/modules/promotions/bundles/bundle-pricing.util.ts:204-274 | the greedy loop forms at least m groups if and only if Σ min(bucket, m) ≥ size·m |
| BundleOptimality.MostGroupsOfDifferentModels | src/modules/promotions/bundles/bundle-pricing.util.ts:113-119 | when no candidate group loses money, no choice of disjoint different-model groups has more groups than the greedy one |
| BundleOptimality.MostAffordableGroups | src/modules/promotions/bundles/bundle-pricing.util.ts:113-119 | the same when only no group the loop actually meets loses money |
| BundleOptimality.DearestAreWorthMost | src/modules/promotions/bundles/bundle-pricing.util.ts:119-122 | no n units are worth more than the n dearest |
| BundleOptimality.DearestFirstSavesMost | src/modules/promotions/bundles/bundle-pricing.util.ts:196-236 | for an any-models bundle without surcharges, no choice of disjoint groups saves more than dearest-first with stop on negative |
| BundleProgress.ComputeBundleProgress | src/modules/promotions/bundles/bundle-pricing.util.ts:328-427 | the computation returns the specified offer: the first candidate no other beats |
| BundleProgress.ShownOfferIsBest | src/modules/promotions/bundles/bundle-pricing.util.ts:322-327 | the offer shown is a candidate no other candidate beats: more groups applied, then fewer units missing, then the lower price per unit |
| BundleOffers.ShownOfferComesFirst | src/modules/promotions/bundles/bundle-pricing.util.ts:418-427 | the offer shown is the first in bundle order that no other comes before, by groups granted, then units missing, then price per unit, compared by cross-multiplication; nothing is shown only when no bundle has an offer |
| BundleOffers.OffersAreTrue | src/modules/promotions/bundles/bundle-pricing.util.ts:346-416 | a bundle is offered if and only if its size is at least 2 and the cart holds an eligible piece; every figure of the offer is what the cart lines say: eligible and free pieces, groups granted, units missing, blocked by a coupon, and the least saving, announced exactly when it is certain and positive |
| BundleProgress.GuaranteedMinimumIsSaved | src/modules/promotions/bundles/bundle-pricing.util.ts:310-320 | a positive guaranteed minimum is saved by every complete group within the advertised bounds |
| BundleOffers.GuaranteedMinimumIsExact | src/modules/promotions/bundles/bundle-pricing.util.ts:310-320 | the announced minimum is exact: when positive every complete group within the bounds saves at least that and one of different models saves just that; when it is zero, with a least price known, some complete group saves nothing |
| BundleProgress.FreeUnitsMeasure | src/modules/promotions/bundles/bundle-pricing.util.ts:336-365 | under one bundle, the free units measure what the cart's units measure minus the grouped ones |
| BundleProgress.CompletingSaves | src/modules/promotions/bundles/bundle-pricing.util.ts:196-274 | after adding the missing units, the fresh grouping saves at least the announced amount more |
| BundleProgress.SavingsIfCompletedIsKept | src/modules/promotions/bundles/bundle-pricing.util.ts:358-398 | for a single active any-models bundle, adding any `unitsNeeded` eligible units within the bounds raises the bundle discount total by at least a non-null `savingsIfCompleted` |
| BundleRounds.ChosenAreTop | src/modules/promotions/bundles/bundle-pricing.util.ts:211-219 | a different-models round takes exactly the `size` models that rank before all others by units left, then by key |
| BundleRounds.RoundByKeys | src/modules/promotions/bundles/bundle-pricing.util.ts:210-243 | a round takes one unit of each of those models, the dearest left, and nothing of any other |
| BundleRounds.RoundsKeepStep | src/modules/promotions/bundles/bundle-pricing.util.ts:207-243 | of two carts that differ by at most one unit per model, the larger stays at most one unit ahead, under equally many models, after a round in each |
| BundlePromise.StepTogether | src/modules/promotions/bundles/bundle-pricing.util.ts:204-274 | when no group loses money, the larger cart forms a group for every group of the smaller one |
| BundlePromise.RegroupedWithExtra | src/modules/promotions/bundles/bundle-pricing.util.ts:204-274 | the completed cart forms exactly one group more, and groups exactly the old units, one free unit of every model that has one, and the added units |
| BundlePromise.RepeatableKeepsPromise | src/modules/promotions/bundles/bundle-pricing.util.ts:371-398 | a repeatable different-models bundle whose bounds cover the price of a group grants the announced saving |
| BundlePromise.FirstGroupKeepsPromise | src/modules/promotions/bundles/bundle-pricing.util.ts:371-398 | while no group is formed yet, the announced saving is granted whatever the bounds |
| BundlePromise.AffordableKeepsPromise | src/modules/promotions/bundles/bundle-pricing.util.ts:371-398 | whenever no round of the completed cart meets a group that loses money, and units keep their order, the announced saving is granted |
| BundleReordering.OrderIsIrrelevant | src/modules/promotions/bundles/bundle-pricing.util.ts:186-274 | while every model has one surcharge, the same units in any order save the same, and are affordable alike |
| BundleReordering.AffordableKeepsPromiseInAnyOrder | src/modules/promotions/bundles/bundle-pricing.util.ts:371-398 | while every model has one surcharge, affordable rounds grant the announced saving in any order of the units |
| BundleFewModels.AffordableByRounds | src/modules/promotions/bundles/bundle-pricing.util.ts:204-236 | the grouping loop never stops on a negative discount if and only if no group of the rounds that enough models allow loses money |
| BundleFewModels.FewModelsAffordable | src/modules/promotions/bundles/bundle-pricing.util.ts:204-236 | with at most `size` models in the completed cart, every group takes all free models and saves at least the announced amount |
| BundleFewModels.ComparableRound | src/modules/promotions/bundles/bundle-pricing.util.ts:204-246 | with `size + 1` models, whenever the completed cart leaves out a model with free units, some round of the old cart left it out after taking at least as many units of every other model |
| BundleFewModels.LaterGroupIsWorthLess | src/modules/promotions/bundles/bundle-pricing.util.ts:196-236 | of two groups of the same models, the one that takes later units of the smaller cart is worth no more |
| BundleFewModels.OneMoreModelAffordable | src/modules/promotions/bundles/bundle-pricing.util.ts:204-236 | with `size + 1` models and one surcharge for all units, no group of the completed cart loses money |
| BundleLosingCart.FirstModelsAreTaken | src/modules/promotions/bundles/bundle-pricing.util.ts:211-219 | models with no fewer units than all others and smaller keys fill the first group |
| BundleLosingCart.NothingIsFormed | src/modules/promotions/bundles/bundle-pricing.util.ts:234-236 | after the missing units are added, the losing cart's first group consists of its cheapest models, and no group is formed at all |
| BundleCarts.ModelSavingsAreKept | src/modules/promotions/bundles/bundle-pricing.util.ts:358-398 | for a cart and a different-models bundle that is not repeatable, or whose bounds cover the price of a group (while models with differing surcharges keep their order), adding `unitsNeeded` units of new models raises the bundle discount total by at least `savingsIfCompleted` |
| BundleCarts.AddingKeepsOrder | src/modules/cart/cart.service.ts:133-205 | when the missing units are added by raising quantities and appending lines, the order condition is met |
| BundleCarts.OrderIsNoCondition | src/modules/promotions/bundles/bundle-pricing.util.ts:358-398 | when every model is listed at one surcharge, the promise holds for all completed carts exactly if it holds for those that keep their order |
| BundleCarts.CoveredListingsKeepPromise | src/modules/promotions/bundles/bundle-pricing.util.ts:358-398 | it is kept when fixedTotal plus the surcharges of any `size` listings of different models is at most size·minUnitPrice |
| BundleCarts.FewModelsKeepPromise | src/modules/promotions/bundles/bundle-pricing.util.ts:358-398 | it is kept when the eligible listings span at most `size` models, or `size + 1` with one surcharge for all |
| BundleCarts.BrokenPromise | src/modules/promotions/bundles/bundle-pricing.util.ts:234-236 | for a repeatable bundle whose bounds do not cover the price of a group, with `size + 2` models listed at the highest surcharge: two carts of such listings, the second completing the first, where a discount of (size − 1)·minUnitPrice and a promise of one unit of money more turn into no discount |
| BundleCarts.PromiseKeptIffBoundsCover | src/modules/promotions/bundles/bundle-pricing.util.ts:306-307 | with `size + 2` models listed at the highest surcharge, every cart drawn from the listings to which the missing units are added is granted the `savingsIfCompleted` it is shown if and only if the bundle is not repeatable or fixedTotal + size·maxSurcharge ≤ size·minUnitPrice; so is every completed cart, in whatever order, when each model has one surcharge |
| BundleCarts.PromiseKeptIff | src/modules/promotions/bundles/bundle-pricing.util.ts:306-307 | with one surcharge for all eligible listings, every cart drawn from them is granted it, however its lines change, if and only if the bundle is not repeatable, or fixedTotal + size·maxSurcharge ≤ size·minUnitPrice, or the listings span at most size + 1 eligible models |
| CartPricing.BuildView | src/modules/cart/cart-pricing.service.ts:195-277 | the accumulating loops return exactly the specified view |
| CartPricing.CartUsesWithinQuantity | src/modules/cart/cart-pricing.service.ts:221-227 | bundles use no cart line more often than its quantity |
| CartPricing.LineSharesAddUp | src/modules/cart/cart-pricing.service.ts:237-250 | the per-line bundle discounts sum to the instances' discounts |
| CartPricing.PercentageRoundsDown | src/modules/cart/cart-pricing.service.ts:145-159 | a percentage coupon is rounded down, by less than one minor unit |
| CartPricing.CartViewIsConsistent | src/modules/cart/cart-pricing.service.ts:195-277 | bundle discounts stay within each line, the coupon discounts only what bundles left, every total is non-negative and total = subtotal − both discounts |
| PriceRules.ViewShowsTheItems | src/modules/cart/cart-pricing.service.ts:279-305 | every item is shown at its price with its customization, with the first reason it cannot be bought: not sold, out of stock, design missing; the subtotal is that of the others |
| PriceRules.BundlesSeeTheSellable | src/modules/cart/cart-pricing.service.ts:221-224 | the bundles see exactly one line per item that can be bought, at its place in the cart, with that item's own fields |
| PriceRules.ProblemsAreChecked | src/modules/cart/cart-pricing.service.ts:161-183 | a coupon counts if and only if it is active, started, not over, its minimum is spent and a use is left; otherwise the first of these that fails is named |
| PriceRules.ViewAppliesTheCoupon | src/modules/cart/cart-pricing.service.ts:145-159 | on the view, a FIXED coupon that counts takes off its value, or all that bundles left when that is less; a PERCENTAGE coupon its percentage of what bundles left, rounded down by less than one minor unit; anything else takes off nothing |
| PriceRules.CouponKeepsBundlesOut | src/modules/cart/cart-pricing.service.ts:252-261 | beside a coupon that counts, bundles that do not stack take off nothing, in total and on every line |
| PriceRules.ScopeDecides | src/modules/promotions/bundles/bundle-pricing.util.ts:78-99 | a line may fill a bundle if and only if the currency is the bundle's and, scope by scope, its own variant, product, collection, case type, brand or model is targeted; only named variants carry a surcharge, their own |
| PriceRules.IssuesAreTheUnsellable | src/modules/orders/checkout.service.ts:62-64 | the quote lists exactly the items that cannot be bought, each with its reason |
| PriceRules.QuoteFollowsTheRules | src/modules/orders/checkout.service.ts:54-74 | the quote charges the same subtotal, coupon and bundles as the view, and shipping unless the goods reach the free-shipping threshold |
| OrderLines.CountUses | src/modules/orders/orders.service.ts:326-338 | the nested map holds, per line, exactly the uses by each instance |
| OrderLines.SplitLines | src/modules/orders/orders.service.ts:346-370 | the loops produce exactly the specified drafts |
| OrderLines.CreateOrder | src/modules/orders/orders.service.ts:243-484 | pricing checks, splitting and coupon shares give exactly the specified order or refusal |
| OrderLines.InstanceIsSplitExactly | src/modules/orders/orders.service.ts:326-370 | the drafts linked to an instance sum to its units, its discount and its normal subtotal |
| OrderLines.OrderConservesMoney | src/modules/orders/orders.service.ts:372-485 | every line total is ≥ 0, coupon shares sum to discountTotal, line totals + shipping = order total = expected total = the checkout quote for the same cart, bundles, time and rate |
| OrderLines.OrderConservesUnits | src/modules/orders/orders.service.ts:321-370 | order-item quantities sum to each cart line's quantity; items linked to an instance sum to its units, discount and normal subtotal; instance discounts sum to bundleDiscountTotal |
| PriceRules.OrderFollowsTheRules | src/modules/orders/orders.service.ts:255-318 | a placed order charges every line at its item's price, its coupon by kind and value, and shipping by the threshold, exactly as the quote does |
| PriceRules.PlacedIff | src/modules/orders/orders.service.ts:244-318 | a cart is refused as empty, for an unsellable item, for a total other than expected, in this order, and is placed if and only if none of these applies and its coupon still counts |
| PriceRules.CouponSharesAreProportional | src/modules/orders/orders.service.ts:372-389 | the coupon discount is split over the order lines in proportion to what bundles left of each |
| OrderLines.PlacedOrdersAreOrderable | src/modules/orders/orders.service.ts:391-396 | a placed order has a non-negative total and only positive quantities to keep and to reserve |
| OrderLines.RecordedCouponPriced | src/modules/orders/orders.service.ts:280-318 | an order that records a coupon was priced with it if and only if the coupon had no problem at the first clock reading, which is if it had started by then; otherwise no line has a coupon share |
| OrderLines.CouponRecordedUnpriced | src/modules/orders/orders.service.ts:280-318 | an order placed at the full price of 100 that records a coupon of 10, which started between the two clock readings |
| Stockroom.AggregateKeepsDemand | src/modules/inventory/reservations/reservations.service.ts:134-140 | aggregation leaves one entry per stock item and keeps each item's total |
| Stockroom.ReservesIffAvailable | src/modules/inventory/reservations/reservations.service.ts:86-96 | a checkout's lines are all reserved if and only if every stock item has enough available for all of its lines combined |
| Stockroom.ReserveAllAddsRows | src/modules/inventory/reservations/reservations.service.ts:142-173 | a successful reservation adds exactly one active row per entry and changes no other row |
| Stockroom.ReserveAllKeepsLedger | src/modules/inventory/reservations/reservations.service.ts:142-173 | reserving keeps reserved = Σ active quantities for every item |
| Stockroom.ReleaseAllKeepsLedger | src/modules/inventory/reservations/reservations.service.ts:390-419 | releasing keeps the counters equal to their rows |
| Stockroom.ConsumeAllKeepsLedger | src/modules/inventory/reservations/reservations.service.ts:309-365 | consuming keeps the counters equal to their rows and onHand equal to opening plus movements |
| Stockroom.ActiveIsHeld | src/modules/inventory/reservations/reservations.service.ts:411-415 | an active reservation's item has reserved ≥ its quantity, so the guarded decrement is never skipped |
| Stockroom.OverdueIsReleased | src/modules/inventory/reservations/reservations.service.ts:434-456 | an active row whose deadline has passed is expired and its item gets back exactly its quantity; any other active row is left alone |
| Stockroom.CoverageIsPerReservation | src/modules/orders/orders.service.ts:941-1000 | the per-stock-item comparison holds if and only if every reservation row of the order is ACTIVE or CONSUMED |
| Stockroom.AdjustKeepsBackedIff | src/modules/inventory/stock-items/stock-items.service.ts:73-78 | an adjustment keeps reserved ≤ onHand if and only if onHand + delta ≥ reserved |
| Stockroom.OrderCanBeConsumed | src/modules/inventory/reservations/reservations.service.ts:335-349 | while reserved ≤ onHand holds, consuming an order's active reservations never fails |
| Database.AggregateLines | src/modules/inventory/reservations/reservations.service.ts:134-140 | the loop returns the specified aggregation |
| Database.Store.ReserveAggregated | src/modules/inventory/reservations/reservations.service.ts:142-173 | the loop of conditional updates succeeds and changes the tables exactly as specified |
| Database.Store.ConsumeMany | src/modules/inventory/reservations/reservations.service.ts:309-365 | likewise for consuming, with its two guards and the movement rows |
| Database.Store.ReleaseMany | src/modules/inventory/reservations/reservations.service.ts:390-419 | likewise for releasing, where rows no longer active are skipped |
| Database.Store.ReleaseReservationIfStillExpired | src/modules/inventory/reservations/reservations.service.ts:434-456 | releases the row exactly if it is active and its deadline has passed at the moment of the write |
| Database.Store.LoadReservationTriage | src/modules/orders/orders.service.ts:958-1008 | the counting loops return the active ids, whether there is any row, whether one is consumed, and the coverage |
| Database.Store.UpdateFulfillmentStatus | src/modules/orders/orders.service.ts:680-797 | the transaction leaves the specified tables and reports the specified error, for every order and target |
| Database.Store.UpdatePaymentStatus | src/modules/orders/orders.service.ts:828-916 | likewise, rolling back when stock or receipt refuse |
| Database.Store.CancelDueToExpiryTransaction | src/modules/orders/orders.service.ts:1061-1111 | likewise for the expiry cancellation |
| Database.Store.Checkout | src/modules/orders/orders.service.ts:185-544 | the checkout transaction prices and splits the contents of the request's cart and commits exactly the specified order of it, or rolls back with the specified outcome |
| Database.Store.CreateRefund | src/modules/orders/refunds/refunds.service.ts:36-126 | the refund transaction with its running sum leaves the specified tables and error |
| Database.Store.CreateReturn | src/modules/orders/refunds/refunds.service.ts:140-189 | likewise for returns |
| Database.Store.AdjustItem | src/modules/inventory/stock-items/stock-items.service.ts:66-94 | the conditional update and its movement row, or nothing |
| ShopHistory.StepAdvances | src/modules/orders/orders.service.ts:56-77 | every step moves order rows only along the transition tables, keeps identities, and keeps attached receipts |
| ShopHistory.RequestOutcome | src/modules/orders/orders.service.ts:185-544 | a checkout call commits one order when every check passes, and otherwise changes nothing but its request's phase |
| ShopHistory.CheckoutCommitsIff | src/modules/orders/orders.service.ts:193-538 | an admitted request becomes an order if and only if its cart is active, the pricing places it, coupon, key and receipt are free, and every stock item suffices for all lines together |
| ShopAdmission.CheckoutSucceedsIff | src/modules/orders/orders.service.ts:185-544 | the whole checkout, by fields: the transaction of an admitted request makes an order if and only if the cart is active and not empty, every item is sellable, the quote is the total the customer expects, the coupon counts and has a use left, the key is new, the receipt is its cart's, unattached and not expired, and of each stock item enough is available for all lines together; otherwise only the request's answer changes |
| ShopAdmission.CommittedCheckout | src/modules/orders/orders.service.ts:391-538 | a commit adds one PENDING, UNPAID order with the request's key, payload and deadline and the placed total and quantities, claims the cart, uses the coupon once, attaches the receipt for good, and holds exactly the demanded stock for the time to live; nothing else changes |
| ShopAdmission.LastContentsArePriced | src/modules/orders/orders.service.ts:236-260 | a checkout prices what its cart was last given, whatever other carts are given |
| ShopAdmission.CheckoutIsDecided | src/modules/orders/orders.service.ts:193-538 | on an active cart every answer has its own condition: not placed, coupon exhausted, key in use, receipt not attachable, stock short, in this order |
| ShopAdmission.ClaimedCartIsAnswered | src/modules/orders/orders.service.ts:197-234 | on a cart that is not active nothing changes: an unknown cart is not found, an ordered one answers with its order if it is the request's own, and is refused otherwise |
| ShopAdmission.KeyIsLookedUp | src/modules/orders/orders.service.ts:111-125 | the first read lets a key through if and only if no order has it, answers with order o if and only if o is the request's own, and refuses otherwise |
| ShopAdmission.AdmittedIff | src/modules/orders/orders.service.ts:131-182 | a request is admitted if and only if it names a receipt exactly when it pays by InstaPay and that receipt is its cart's, unattached and not expired; its deadline is then exactly its time to live after that moment |
| ShopAdmission.LosersAreAnswered | src/modules/orders/orders.service.ts:555-577 | a request that lost its receipt or its key to another transaction answers with its own order if that is what won, and is refused otherwise |
| ShopStock.StepKeepsStock | src/modules/inventory/reservations/reservations.service.ts:142-173 | every step keeps the counters equal to their rows and every reservation consistent with its order's statuses |
| ShopStock.ConfirmKeepsStock | src/modules/orders/orders.service.ts:725-738 | confirming pins every active reservation and leaves none expirable |
| ShopCoupons.ClampNeverBites | src/modules/orders/orders.service.ts:789-794 | an order that holds a coupon is counted in it, so the clamp at zero never applies |
| ShopCoupons.StepKeepsCoupons | src/modules/orders/orders.service.ts:286-298 | every step keeps usageCount equal to the starting count plus the holding orders, within the limit |
| ShopCheckout.StepKeepsCheckout | src/modules/orders/orders.service.ts:111-234 | every step keeps keys and carts of orders distinct, carts in line with orders, and every answer given true |
| ShopCheckout.OneOrderPerCart | src/modules/orders/orders.service.ts:186-234 | all successes on one cart are the same order, and it answers the request |
| ShopCheckout.OrderedIffOneOrder | src/modules/orders/orders.service.ts:193-196 | a cart is ORDERED if and only if exactly one order has its id |
| ShopCheckout.ConflictNeverReturnsAnOrder | src/modules/orders/orders.service.ts:555-577 | the recovery after a unique-key conflict always answers that the key is in use |
| ShopCheckout.TwinProceeds | src/modules/orders/orders.service.ts:111-166 | a request identical to a committed one never fails at any of its calls |
| ShopCheckout.IdenticalRequestsGetTheSameOrder | src/modules/orders/orders.service.ts:203-220 | under any interleaving, an identical request still under way ends with that same order |
| ShopPayments.StepKeepsProof | src/modules/payments/receipts/receipts.service.ts:450-470 | every step keeps: InstaPay orders are prepared only when paid and paid only on an accepted receipt |
| ShopPayments.StepKeepsRefunds | src/modules/orders/refunds/refunds.service.ts:85-109 | every step keeps the refund sum within the total and the refund statuses equal to what the sum says |
| ShopPayments.RefundRetryAddsNothing | src/modules/orders/refunds/refunds.service.ts:50-67 | repeating a recorded key changes nothing, with whatever amount and order state |
| ShopPayments.RemainderCanBeRefunded | src/modules/orders/refunds/refunds.service.ts:85-109 | what is left of a paid order can always be refunded, which makes it REFUNDED; one unit more is refused |
| ShopPayments.StepKeepsReturns | src/modules/orders/refunds/refunds.service.ts:157-168 | every step keeps returns within the quantity bought |
| ShopDeadlines.StepKeepsDeadlines | src/modules/orders/orders.service.ts:170-182 | every step keeps each reservation's expiry at or after its order's own deadline |
| ShopRuns.StepKeepsInv | src/modules/orders/orders.service.ts:626-656 | every committed transaction keeps the whole invariant |
| ShopRuns.CountersMatchRows | src/modules/inventory/reservations/reservations.service.ts:142-173 | in every reachable state reserved = Σ ACTIVE quantities, onHand = opening + Σ movements ≥ 0, and releasing an active row decrements in full |
| ShopRuns.OrdersKeepTheirStock | src/modules/orders/orders.service.ts:725-750 | committed orders have only CONSUMED or unexpiring ACTIVE rows, cancelled ones no ACTIVE row, and a row is CONSUMED if and only if its order was paid |
| ShopRuns.SweepSparesCommittedOrders | src/modules/inventory/reservations/reservations.service.ts:421-433 | releasing a row selected earlier changes nothing when its order has been confirmed |
| ShopRuns.StockOutlivesDeadline | src/modules/orders/orders.service.ts:170-182 | whenever a sweep can release a reservation, its order is still PENDING and its own deadline has passed |
| ShopRuns.TriageSeesEveryLoss | src/modules/orders/orders.service.ts:941-956 | in every reachable state, fully covered means no row of the order was lost |
| ShopRuns.CouponUsageIsOrders | src/modules/orders/orders.service.ts:761-794 | usageCount = start + holding orders ≤ limit; usage is released if and only if the order has a coupon and was cancelled unpaid |
| ShopRuns.CheckoutIsIdempotent | src/modules/orders/orders.service.ts:103-166 | every success answers its own request, successes on a cart agree, and ORDERED carts have one order |
| ShopRuns.RetriesConverge | src/modules/orders/orders.service.ts:141-166 | from every reachable state, a retry of a committed request ends with its order |
| ShopRuns.InstaPayNeedsProof | src/modules/orders/orders.service.ts:711-721 | in every reachable state, an InstaPay order in preparation or beyond is paid or refunded, and a paid one has an ACCEPTED receipt |
| ShopRuns.RefundsStayWithinTotal | src/modules/orders/refunds/refunds.service.ts:85-109 | refunds sum to at most the total; REFUNDED iff the sum is positive and equals it, PARTIALLY_REFUNDED iff strictly between; keys are distinct; returns stay within the quantity |
| ShopRuns.CancelledUnpaidIsFinal | src/modules/orders/orders.service.ts:863-879 | along every run, an order cancelled while unpaid never changes again |
| ShopRuns.OrdersOnlyMoveForward | src/modules/orders/orders.service.ts:56-77 | along every run, identities are fixed, no fulfilment stage is undone, shipped orders are never cancelled, and payment goes from paid to refunded, never back |
| ShopRuns.OrdersCanBeDelivered | src/modules/orders/orders.service.ts:695-738 | a pending order whose stock is not lost, and that is paid or pays on delivery, can be taken to DELIVERED |
| ShopRuns.AttachedReceiptStays | src/modules/payments/receipts/receipts.service.ts:472-501 | along every run, an attached receipt is never deleted or re-attached, and is reviewed at most once |
| ShopRuns.SweepCancelsOnlyOverdue | src/modules/orders/orders.service.ts:1136-1151 | the sweep changes only an order that is pending, unpaid and past its deadline at that moment |
| ShopOutcomes.SweepCancelsOverdue | src/modules/orders/orders.service.ts:1136-1151 | in every reachable state the sweep selects every order that is PENDING, UNPAID and past its deadline; whatever runs before its cancellation, the order is then cancelled if it is still PENDING and UNPAID, and untouched if not |
| ShopOutcomes.OverdueIsSwept | src/modules/orders/orders.service.ts:1061-1103 | after one sweep an overdue order is CANCELLED, its ACTIVE rows are EXPIRED and no other row changed, each item's `reserved` fell by exactly what the order held of it, and its coupon lost exactly one use |
| ShopOutcomes.StaffCancels | src/modules/orders/orders.service.ts:745-797 | staff cancel every order before SHIPPED: its ACTIVE rows are RELEASED, each `reserved` falls by exactly what it held, and the coupon use is given back if and only if the order was never paid; any other order stays as it is |
| ShopTransitions.StaffMovesOrder | src/modules/orders/orders.service.ts:680-738 | staff take an order forward exactly one stage: confirmed if and only if none of its rows is lost, which pins its active rows; prepared if and only if it pays on delivery or is paid; shipped; delivered; anything else changes nothing |
| ShopTransitions.RefusedMovesNameTheReason | src/modules/orders/orders.service.ts:680-738 | each refusal has its condition: unknown order, lost stock, unpaid InstaPay, no such transition |
| ShopTransitions.MarkedPaidIff | src/modules/orders/orders.service.ts:828-903 | staff can mark an order paid if and only if it is unpaid and not cancelled, none of its rows is lost, of each item all it holds is on hand, and an InstaPay order has a receipt under review; then its rows are CONSUMED, on hand and reserved fall by exactly what it held, and the receipt is ACCEPTED; otherwise nothing changes |
| ShopTransitions.ConsumedIffOnHand | src/modules/inventory/reservations/reservations.service.ts:309-365 | the sequence of guarded decrements succeeds if and only if, of each item, all the rows together hold no more than is on hand |
| ShopTransitions.RefusedPaymentsNameTheReason | src/modules/orders/orders.service.ts:883-903 | lost stock, then stock not on hand, then a missing receipt refuses the payment, each exactly when it applies |
| ShopTransitions.PaymentIsNoted | src/modules/orders/orders.service.ts:844-881 | the other payment statuses are noted only on an order that is neither paid nor cancelled, and never set a refund |
| ShopRecords.RefundIsRecordedIff | src/modules/orders/refunds/refunds.service.ts:69-109 | any amount from 1 to what is left of a paid order is recorded under a new key in the order's currency, and decides the refund status; nothing else changes anything |
| ShopRecords.RefusedRefundsNameTheReason | src/modules/orders/refunds/refunds.service.ts:50-93 | a used key replays its own order's refund and is refused for any other; each other refusal has its condition |
| ShopRecords.ReturnIsRecordedIff | src/modules/orders/refunds/refunds.service.ts:146-178 | any quantity from 1 to what was bought and not yet returned is recorded; more is not |
| ShopRecords.RecordsCount | src/modules/orders/refunds/refunds.service.ts:85-95 | a recorded refund or return counts with its amount, on its own order and line only |
| ShopRecords.UploadIsKept | src/modules/payments/receipts/receipts.service.ts:147-156 | an upload is stored for its cart, unattached, under review, to be kept for the retention time from now |
| ShopRecords.ReplacementIsAttached | src/modules/payments/receipts/receipts.service.ts:333-344 | a replacement receipt is attached to its order at once, under review, and does not expire |
| ShopRecords.RejectedIff | src/modules/payments/receipts/receipts.service.ts:402-428 | a receipt of the order that is under review ends up REJECTED and nothing else changes; any other rejection changes nothing |
| ShopRecords.DeletedIff | src/modules/payments/receipts/receipts.service.ts:481-498 | the cleanup deletes exactly an unattached receipt whose retention has ended |
| ShopRecords.UploadSurvivesRetention | src/modules/payments/receipts/receipts.service.ts:472-501 | along every run an upload is still there, with its cart, until its retention has ended, and once attached for good |
| ShopRecords.WarehouseActs | src/modules/inventory/stock-items/stock-items.service.ts:66-94 | an adjustment is made and noted as a movement if and only if it leaves nothing negative on hand |
| ShopRuns.NeverOversold | src/modules/inventory/reservations/reservations.service.ts:150-159 | in runs without negative adjustments reserved ≤ onHand always holds and marking paid is never refused for lack of stock |
| ShopRuns.CoveredOrdersCanBePaid | src/modules/orders/orders.service.ts:889-903 | while holds are backed, an open order whose stock is not lost can be marked paid, given a receipt to review for InstaPay, and no active row remains |
| Shop.PricedIsOrderable | src/modules/orders/orders.service.ts:236-485 | whatever the request's cart holds, its placement has everything the protocol relies on: a non-negative total and positive quantities |
| ShopOrders.CommittedOrderHoldsItsCart | src/modules/orders/orders.service.ts:185-544 | in every reachable state, a checkout that commits leads to a reachable state with one more order, of the request's cart: its total is the quote for the contents the cart has, its lines hold exactly the cart's units, and exactly the cart's demand is reserved for it, stock item by stock item |
| ImageHash.HammingDistance | src/common/utils/image-hash.util.ts:49-57 | the bit loop counts the differing binary places |
| ImageHash.DistanceCountsGradients | src/common/utils/image-hash.util.ts:35-47 | for two hashes of the same grid, that is the number of differing gradient bits |
| ImageHash.TriangleInequality | src/common/utils/image-hash.util.ts:49-57 | the distance satisfies the triangle inequality |
| ImageHash.DistanceZeroIffEqual | src/common/utils/image-hash.util.ts:49-57 | the distance is zero exactly between equal hashes |
| ImageDedupe.Find | src/common/utils/image-dedupe.util.ts:86-92 | path halving terminates, returns the position's root and changes no position's root |
| ImageDedupe.Union | src/common/utils/image-dedupe.util.ts:93-97 | union merges exactly the two trees |
| ImageDedupe.UniteMatches | src/common/utils/image-dedupe.util.ts:99-110 | after the pair loops, a shared root means connected and every matching pair shares its root |
| ImageDedupe.DedupeCandidates | src/common/utils/image-dedupe.util.ts:79-125 | the clusters are the connected components of the match relation, in input order, and each is well reported: the chosen member has the highest resolution, and the reason is what its members' hashes and keys say |
| ImageDedupe.TogetherIffConnected | src/common/utils/image-dedupe.util.ts:71-78 | two candidates share a cluster exactly when a chain of matching pairs joins them |
| ImageDedupe.EveryCandidateOnce | src/common/utils/image-dedupe.util.ts:112-118 | no candidate is in two clusters, or twice in one |
| ImageDedupe.ClusteringUnique | src/common/utils/image-dedupe.util.ts:79-125 | there is only one clustering, so the result does not depend on how the forest was built |
| ImageDedupe.ClustersIgnoreOrder | src/common/utils/image-dedupe.util.ts:79-125 | under any reordering of the input the clusters are the same sets |
| ImageDedupe.WiderThresholdMerges | src/common/utils/image-dedupe.util.ts:28-37 | a wider threshold only merges clusters |
| ImageDedupe.BestIsFirstBest | src/common/utils/image-dedupe.util.ts:166-177 | the chosen member is preferred to every earlier one and no later one is preferred to it |
| ImageDedupe.BestHasHighestResolution | src/common/utils/image-dedupe.util.ts:166-177 | no member has a larger width·height than the chosen one; of that area none has a larger file, of those none a cleaner name, of those none an earlier name; ties go to input order |
| ImageDedupe.ReasonIsMostSpecific | src/common/utils/image-dedupe.util.ts:157-164 | each reason holds exactly when it says so: one member; else all hashes equal; else all keys equal and present; else near duplicates |
| ImageDedupe.LikenessBindsTogether | src/common/utils/image-dedupe.util.ts:99-110 | equal hashes, equal non-empty keys, or perceptual hashes within the threshold put two candidates into one cluster |
| ImageDedupe.TogetherForAReason | src/common/utils/image-dedupe.util.ts:99-110 | whoever shares a cluster with another candidate has such a likeness to some other member of it |
| ImageDedupe.SinglesAreAlone | src/common/utils/image-dedupe.util.ts:157-164 | a cluster is reported single exactly when its candidate is connected to no other |
| TokenRotation.TokenTable.RevokeIfLive | src/modules/auth/auth.service.ts:94-100 | the conditional update changes one row exactly when the token was live |
| TokenRotation.TokenTable.Refresh | src/modules/auth/auth.service.ts:93-114 | the refresh transaction rotates a live token and changes nothing for a revoked one |
| TokenRotation.TokenTable.LogOut | src/modules/auth/auth.service.ts:129-135 | logout revokes the live token with this hash, if there is one |
| TokenRotation.ChainsMoveOn | src/modules/auth/auth.service.ts:93-114 | in every reachable state a rotation chain is acyclic, stays in one account, and only its last token can be live |
| TokenRotation.ChainsDoNotFork | src/modules/auth/auth.service.ts:109-112 | chains from one token run along each other |
| TokenRotation.ChainsDoNotMerge | src/modules/auth/auth.service.ts:109-112 | chains that reach one token came the same way |
| TokenRotation.OneLiveTokenPerSession | src/modules/auth/auth.service.ts:63-77 | the chain one login started has at most one unrevoked token |
| TokenRotation.OnlyOneRefreshWins | src/modules/auth/auth.service.ts:67-73 | of two refreshes admitted with one token, the second to commit changes nothing, whatever happens in between |
| TokenRotation.RevokedForGood | src/modules/auth/auth.service.ts:94-100 | along every run a revoked token stays revoked and keeps its one successor |
| TokenRotation.SessionsAreConserved | src/modules/auth/auth.service.ts:78-135 | live tokens = sessions opened by logins with new tokens − sessions closed by logouts of live ones, however refreshes race |
| TokenRotation.AdmittedIff | src/modules/auth/auth.service.ts:79-91 | a refresh is admitted if and only if a live, unexpired token with this hash exists and its account is active, and it is admitted with that token |
| TokenRotation.LoginIssues | src/modules/auth/auth.service.ts:137-170 | a login with a new token adds one live token of its account that is valid for its lifetime from now |
| TokenRotation.LogoutEndsItsSession | src/modules/auth/auth.service.ts:129-135 | after a logout no live token has the hash: the one that had is revoked at that moment, and every other token is unchanged |
| TokenRotation.RefreshReplacesItsToken | src/modules/auth/auth.service.ts:93-114 | a committed refresh revokes the token it read and links it to one new live token of the same account, valid for its lifetime from now; if that token is no longer live nothing changes |
| TokenRotation.RotationExtendsItsChain | src/modules/auth/auth.service.ts:93-114 | committing a refresh of a chain's live last token extends that chain by one live token of the same account |

## Left out

- Controllers, DTO validation, guards, localisation, audit logging, file storage, image decoding, JWT and
  bcrypt: no state the properties depend on. Hashes stand for the values they are taken of.
- The standalone `reserve`, `reserveMany`, `consume` and `release` of the reservations service: nothing in
  the repository outside its tests calls them.
- The limits of pending uploads and the eligibility checks of replacement receipts are advisory under
  concurrency; the model lets both uploads happen at any time, which only adds runs.
- Cart line merging, catalog, content, staff, phone and note handling, schedule windows: easy properties.
- `findCrossClusterSimilarities`: advisory output of one nested loop.
- Coupon edits by staff: the limit of a coupon is fixed in the model.
- `ImageDedupe` takes the file-name score and the locale order of names as given integers.
- ModelSavingsAreKept, FewModelsKeepPromise, CoveredListingsKeepPromise, PromiseKeptIffBoundsCover: for a
  repeatable bundle that lists one model at different surcharges, carts whose units of that model change places
  while the missing units are added; their grouping may then use up dearer surcharges first.
- PromiseKeptIff: does not decide SPECIFIC_VARIANTS bundles whose surcharges differ, with more than `size` eligible
  models but fewer than `size + 2` at the highest surcharge, and some `size` listings that can lose money; there the
  answer also depends on how the models' keys are ordered.
- A cart's contents change by one step that replaces them; that they agree with catalogue, stock and coupon rows at
  that moment is not modelled, since the protocol checks stock and coupon limits again at the write.
- Each deletion or release inside a sweep is a step of its own; the loop that issues them, with its batch
  limit, is not modelled, since other transactions run between its iterations.

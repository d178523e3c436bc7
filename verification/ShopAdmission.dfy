/** What each database call of a checkout request decides in every reachable state, and what a committed checkout
    leaves in each table (src/modules/orders/orders.service.ts). */
module ShopAdmission {
  import opened Options
  import opened Sums
  import opened Shop
  import opened ShopHistory
  import opened ShopCheckout
  import opened ShopRuns
  import opened ShopOrders
  import CartPricing
  import PriceRules
  import OrderLines
  import Stockroom

  /** Only the request's phase changed. */
  ghost predicate OnlyAnswered(before: Tables, after: Tables, r: nat)
    requires r < |before.requests|
  {
    && |after.requests| == |before.requests|
    && after == before.(requests := before.requests[r := before.requests[r].(phase := after.requests[r].phase)])
  }

  predicate IsItsOrder(orders: seq<Order>, o: nat, q: Request) {
    o < |orders| && orders[o].key == q.key && orders[o].cartId == q.cartId && orders[o].payload == q.payload
  }

  ghost predicate KeyIsNew(orders: seq<Order>, key: string) { forall i :: 0 <= i < |orders| ==> orders[i].key != key }

  lemma {:induction false} ItsOrderIsFound(t: Tables, q: Request, o: nat)
    requires DistinctOrders(t.orders)
    ensures IsItsOrder(t.orders, o, q) ==> OrderOfKey(t.orders, q.key) == o && OrderOfCart(t.orders, q.cartId) == o
  {
    if o < |t.orders| {
      OrderOfCartIsIt(t.orders, o);
    }
  }

  lemma {:induction false} NewKeyIsNotFound(orders: seq<Order>, key: string)
    ensures KeyIsNew(orders, key) <==> OrderOfKey(orders, key) == |orders|
  {
  }

  lemma {:induction false} CheckoutHolds(t: Tables)
    requires Reachable(t)
    ensures CheckoutInv(t)
  {
    ReachableInv(t);
  }

  // ------------------------------------------------------------ before the transaction

  /** The first read lets a new key through, answers a request that already became an order with that order, and
      refuses a key that stands for anything else. */
  lemma {:induction false} KeyIsLookedUp(t: Tables, r: nat, price: (CartRow, int) -> OrderLines.Placement, o: nat)
    requires Reachable(t) && r < |t.requests| && t.requests[r].phase == Arrived
    ensures var q, after := t.requests[r], Next(t, RequestStep(r, price));
      && OnlyAnswered(t, after, r)
      && var phase := after.requests[r].phase;
      && (phase == KeyUnknown <==> KeyIsNew(t.orders, q.key))
      && (phase == Done(o) <==> IsItsOrder(t.orders, o, q))
      && (phase == KeyUnknown || phase.Done? || phase == Failed(IdempotencyKeyReused))
  {
    CheckoutHolds(t);
    ItsOrderIsFound(t, t.requests[r], o);
    NewKeyIsNotFound(t.orders, t.requests[r].key);
  }

  /** The request's receipt is there, for its cart. */
  predicate HasItsReceipt(t: Tables, q: Request) {
    q.payload.receiptId.Some? && q.payload.receiptId.value in t.receipts && t.receipts[q.payload.receiptId.value].cartId == q.cartId
  }

  /** A request is admitted exactly when it names a receipt if and only if it pays by InstaPay, and that receipt is
      its cart's, unattached, and not expired. Its deadline is then its time to live from now. */
  lemma {:induction false} AdmittedIff(t: Tables, r: nat, price: (CartRow, int) -> OrderLines.Placement)
    requires r < |t.requests| && t.requests[r].phase == KeyUnknown
    ensures var q, after := t.requests[r], Next(t, RequestStep(r, price));
            var consistent := q.payload.payBy == InstaPay <==> q.payload.receiptId.Some?;
      && OnlyAnswered(t, after, r)
      && var phase := after.requests[r].phase;
      && (phase == Failed(BadRequest) <==> !consistent)
      && (phase.Admitted? <==>
            && consistent
            && (q.payload.receiptId.Some? ==>
                  && HasItsReceipt(t, q)
                  && var receipt := t.receipts[q.payload.receiptId.value];
                  && receipt.orderId.None? && (receipt.expiresAt.Some? ==> t.now <= receipt.expiresAt.value)))
      && (phase.Admitted? ==> phase.deadline == if q.ttl.Some? then Some(t.now + q.ttl.value) else None)
      && (phase == Failed(ReceiptNotFound) <==> consistent && q.payload.receiptId.Some? && !HasItsReceipt(t, q))
      && (phase == ReceiptTaken <==>
            consistent && HasItsReceipt(t, q) && t.receipts[q.payload.receiptId.value].orderId.Some?)
      && (phase.Admitted? || phase.Failed? || phase.ReceiptTaken?)
  {
  }

  // ------------------------------------------------------------ recovery

  /** A request that lost a race is answered with its own order, if that is what won, and refused otherwise. */
  lemma {:induction false} LosersAreAnswered(t: Tables, r: nat, price: (CartRow, int) -> OrderLines.Placement, o: nat)
    requires Reachable(t) && r < |t.requests| && (t.requests[r].phase == ReceiptTaken || t.requests[r].phase == KeyConflict)
    ensures var q, after := t.requests[r], Next(t, RequestStep(r, price));
      && OnlyAnswered(t, after, r)
      && var phase := after.requests[r].phase;
      && (phase == Done(o) <==> IsItsOrder(t.orders, o, q))
      && (phase.Done? || phase == Failed(if q.phase == KeyConflict then IdempotencyKeyReused else ReceiptAlreadyAttached))
  {
    CheckoutHolds(t);
    ItsOrderIsFound(t, t.requests[r], o);
  }

  // ------------------------------------------------------------ the transaction

  /** The coupon exists and has a use left; or there is none. */
  predicate CouponHasUse(coupons: map<string, Coupon>, couponId: Option<string>) {
    couponId.Some? ==>
      && couponId.value in coupons
      && (coupons[couponId.value].limit.Some? ==> coupons[couponId.value].used < coupons[couponId.value].limit.value)
  }

  /** The receipt is there, for the request's cart, unattached, and does not expire by now; or none is named. */
  predicate ReceiptIsFree(t: Tables, q: Request) {
    q.payload.receiptId.Some? ==>
      && HasItsReceipt(t, q)
      && t.receipts[q.payload.receiptId.value].orderId.None?
      && (t.receipts[q.payload.receiptId.value].expiresAt.Some? ==> t.now < t.receipts[q.payload.receiptId.value].expiresAt.value)
  }

  predicate CartIsActive(t: Tables, q: Request) { q.cartId in t.carts && t.carts[q.cartId] == Active }

  /** What stands between a cart that is active and its order, in the order it is checked. */
  ghost predicate AnsweredInOrder(t: Tables, q: Request, placement: OrderLines.Placement, phase: Phase) {
    && (phase == Failed(NotPlaced) <==> placement.Refused?)
    && (placement.Placed? ==>
          var coupon, key := CouponHasUse(t.coupons, placement.order.couponId), KeyIsNew(t.orders, q.key);
          var receipt, stock := ReceiptIsFree(t, q), StockSuffices(t.room, placement.order.stockLines);
          && (phase == Failed(CouponLimitReached) <==> !coupon)
          && (phase == KeyConflict <==> coupon && !key)
          && (phase == Failed(ReceiptAlreadyAttached) <==> coupon && key && !receipt)
          && (phase == Failed(InsufficientStock) <==> coupon && key && receipt && !stock)
          && (phase == Done(|t.orders|) <==> coupon && key && receipt && stock))
  }

  /** The transaction on an active cart commits an order exactly when the pricing places it, its coupon has a use
      left, its key is new, its receipt is free and all its stock is available together; otherwise it only answers,
      with the first of these that fails. */
  lemma {:induction false} CheckoutIsDecided(t: Tables, r: nat, placement: OrderLines.Placement)
    requires r < |t.requests| && t.requests[r].phase.Admitted? && CartIsActive(t, t.requests[r])
    requires placement.Placed? ==> Stockroom.AllPositive(placement.order.stockLines)
    ensures var after := Proceed(t, r, placement);
      && |after.requests| == |t.requests|
      && AnsweredInOrder(t, t.requests[r], placement, after.requests[r].phase)
      && (after.requests[r].phase != Done(|t.orders|) ==> OnlyAnswered(t, after, r))
  {
    var q := t.requests[r];
    NewKeyIsNotFound(t.orders, q.key);
    if placement.Placed? {
      assert CouponHasUse(t.coupons, placement.order.couponId) == CouponFree(t, placement.order.couponId);
      assert ReceiptIsFree(t, q) == CanAttach(t, q);
      Stockroom.ReservesIffAvailable(t.room, placement.order.stockLines, |t.orders|, DeadlineAt(t.now, q.ttl));
    }
  }

  lemma {:induction false} ClaimIsLost(t: Tables, q: Request, o: nat)
    requires CheckoutInv(t) && !CartIsActive(t, q)
    ensures var phase := ClaimLost(t, q);
      && (phase == Failed(NotFound) <==> q.cartId !in t.carts)
      && (phase == Done(o) <==> IsItsOrder(t.orders, o, q))
      && (o < |t.orders| && t.orders[o].cartId == q.cartId ==>
            && (phase == Failed(IdempotencyKeyReused) <==> t.orders[o].key == q.key && t.orders[o].payload != q.payload)
            && (phase == Failed(CartAlreadyOrdered) <==> t.orders[o].key != q.key))
  {
    ItsOrderIsFound(t, q, o);
    if o < |t.orders| && t.orders[o].cartId == q.cartId {
      OrderOfCartIsIt(t.orders, o);
    }
  }

  lemma {:induction false} UnclaimedOnlyAnswers(t: Tables, r: nat, price: (CartRow, int) -> OrderLines.Placement)
    requires r < |t.requests| && t.requests[r].phase.Admitted? && !CartIsActive(t, t.requests[r])
    ensures Next(t, RequestStep(r, price)) == WithPhase(t, r, ClaimLost(t, t.requests[r]))
  {
  }

  /** The transaction on a cart that is not active changes nothing: a cart that does not exist is not found; one that
      is an order already answers with that order, if it is the request's own, and is refused otherwise. */
  lemma {:induction false} ClaimedCartIsAnswered(t: Tables, r: nat, price: (CartRow, int) -> OrderLines.Placement, o: nat)
    requires Reachable(t) && r < |t.requests| && t.requests[r].phase.Admitted? && !CartIsActive(t, t.requests[r])
    ensures var q, after := t.requests[r], Next(t, RequestStep(r, price));
      && OnlyAnswered(t, after, r)
      && var phase := after.requests[r].phase;
      && (phase == Failed(NotFound) <==> q.cartId !in t.carts)
      && (phase == Done(o) <==> IsItsOrder(t.orders, o, q))
      && (o < |t.orders| && t.orders[o].cartId == q.cartId ==>
            && (phase == Failed(IdempotencyKeyReused) <==> t.orders[o].key == q.key && t.orders[o].payload != q.payload)
            && (phase == Failed(CartAlreadyOrdered) <==> t.orders[o].key != q.key))
  {
    CheckoutHolds(t);
    UnclaimedOnlyAnswers(t, r, price);
    ClaimIsLost(t, t.requests[r], o);
  }

  // ------------------------------------------------------------ from the cart to the order

  /** Of each stock item the cart asks for, enough is available for all of its lines together. */
  ghost predicate CartIsInStock(room: Stockroom.Room, items: seq<CartPricing.CartItem>) {
    forall id :: SumBy(items, WantedOf(id)) > 0 ==>
      id in room.stock && room.stock[id].onHand - room.stock[id].reserved >= SumBy(items, WantedOf(id))
  }

  lemma {:induction false} NotAskedFor(lines: seq<Stockroom.StockLine>, id: string)
    requires Stockroom.AllPositive(lines)
    ensures SumBy(lines, Stockroom.DemandOn(id)) > 0 <==> exists i :: 0 <= i < |lines| && lines[i].stockItemId == id
  {
    if exists i :: 0 <= i < |lines| && lines[i].stockItemId == id {
      var i :| 0 <= i < |lines| && lines[i].stockItemId == id;
      forall line | line in lines ensures Stockroom.DemandOn(id)(line) >= 0 {
        var j :| 0 <= j < |lines| && lines[j] == line;
      }
      SumPositive(lines, lines[i], Stockroom.DemandOn(id));
    } else {
      SumZero(lines, Stockroom.DemandOn(id));
    }
  }

  lemma {:induction false} CartStockSuffices(room: Stockroom.Room, items: seq<CartPricing.CartItem>)
    requires Stockroom.AllPositive(OrderLines.StockLines(items))
    ensures StockSuffices(room, OrderLines.StockLines(items)) <==> CartIsInStock(room, items)
  {
    var lines := OrderLines.StockLines(items);
    forall id ensures SumBy(lines, Stockroom.DemandOn(id)) == SumBy(items, WantedOf(id)) {
      StockLinesDemand(items, id);
    }
    forall i | 0 <= i < |lines| ensures SumBy(lines, Stockroom.DemandOn(lines[i].stockItemId)) > 0 {
      NotAskedFor(lines, lines[i].stockItemId);
    }
    if StockSuffices(room, lines) {
      forall id | SumBy(items, WantedOf(id)) > 0
        ensures id in room.stock && room.stock[id].onHand - room.stock[id].reserved >= SumBy(items, WantedOf(id))
      {
        NotAskedFor(lines, id);
        var i :| 0 <= i < |lines| && lines[i].stockItemId == id;
        assert Stockroom.Available(room, lines[i].stockItemId, SumBy(lines, Stockroom.DemandOn(lines[i].stockItemId)));
      }
    }
  }

  /** The cart can be bought at the expected price: it is not empty, all its items are sellable, the quote is what
      the customer expects, and its coupon counts when it is validated. */
  ghost predicate CartCanBeBought(cart: CartPricing.Cart, reading: Reading, expectedTotal: int) {
    var quote := OrderLines.QuoteOf(cart, reading.bundles, reading.pricedAt, reading.rate);
    && cart.items != [] && (forall item :: item in cart.items ==> PriceRules.Sellable(item))
    && quote.total == expectedTotal
    && (cart.coupon.Some? ==> PriceRules.Counts(cart.coupon.value, quote.subtotal, reading.validatedAt))
  }

  predicate CouponOfCartHasUse(coupons: map<string, Coupon>, cart: CartPricing.Cart) {
    cart.coupon.Some? ==> CouponHasUse(coupons, Some(cart.coupon.value.id))
  }

  lemma {:induction false} PlacedForCart(cart: CartRow, reading: Reading, expectedTotal: int)
    ensures var placement := OrderLines.PlaceOrder(cart, reading.bundles, reading.pricedAt, reading.validatedAt, reading.rate, expectedTotal);
      && (placement.Placed? <==> CartCanBeBought(cart, reading, expectedTotal))
      && (placement.Placed? ==>
            && placement.order.stockLines == OrderLines.StockLines(cart.items)
            && placement.order.couponId == (if cart.coupon.Some? then Some(cart.coupon.value.id) else None)
            && Stockroom.AllPositive(placement.order.stockLines))
  {
    PriceRules.PlacedIff(cart, reading.bundles, reading.pricedAt, reading.validatedAt, reading.rate, expectedTotal);
    OrderLines.StockLinesPositive(cart.items);
  }

  /** A checkout prices what its cart was last given, whatever happens to other carts. */
  lemma {:induction false} LastContentsArePriced(t: Tables, r: nat, held: CartRow, other: string, ignored: CartRow,
                                                 price: (CartRow, int) -> OrderLines.Placement)
    requires r < |t.requests| && other != t.requests[r].cartId
    ensures var q := t.requests[r];
            var given := Next(Next(t, ChangeCart(q.cartId, held)), ChangeCart(other, ignored));
      given.requests == t.requests && Priced(given, r, price) == price(held.(id := q.cartId), q.payload.expectedTotal)
  {
  }

  /** Everything the checkout transaction asks for. */
  ghost predicate CheckoutIsReady(t: Tables, q: Request, reading: Reading) {
    && CartIsActive(t, q) && q.cartId in t.contents
    && var cart := t.contents[q.cartId];
    && CartCanBeBought(cart, reading, q.payload.expectedTotal) && CouponOfCartHasUse(t.coupons, cart)
    && KeyIsNew(t.orders, q.key) && ReceiptIsFree(t, q) && CartIsInStock(t.room, cart.items)
  }

  /** One order more, which answers the request. */
  predicate OrderIsMade(before: Tables, after: Tables, r: nat) {
    |after.orders| == |before.orders| + 1 && r < |after.requests| && after.requests[r].phase == Done(|before.orders|)
  }

  /** The whole checkout: the transaction turns a cart into an order exactly when the cart is active, what it holds
      can be bought at the price the customer expects, the coupon has a use left, the key is new, the receipt is free,
      and everything is in stock together. Nothing but the request's answer changes otherwise. */
  lemma {:induction false} CheckoutSucceedsIff(t: Tables, r: nat, reading: Reading)
    requires r < |t.requests| && t.requests[r].phase.Admitted?
    ensures var after := Next(t, RequestStep(r, PricingWith(reading)));
      if CheckoutIsReady(t, t.requests[r], reading) then OrderIsMade(t, after, r) else OnlyAnswered(t, after, r)
  {
    var q := t.requests[r];
    var cart := ContentsOf(t.contents, q.cartId);
    var placement := Priced(t, r, PricingWith(reading));
    PlacedForCart(cart, reading, q.payload.expectedTotal);
    if CartIsActive(t, q) {
      CheckoutIsDecided(t, r, placement);
      if placement.Placed? {
        CartStockSuffices(t.room, cart.items);
        if Proceed(t, r, placement).requests[r].phase == Done(|t.orders|) {
          CommitIsPlaced(t, r, placement);
        }
      }
    } else {
      UnclaimedOnlyAnswers(t, r, PricingWith(reading));
    }
  }

  // ------------------------------------------------------------ what a commit leaves

  /** One use more, of the coupon that was used. */
  ghost predicate CouponUsed(before: map<string, Coupon>, after: map<string, Coupon>, couponId: Option<string>) {
    if couponId.None? then after == before
    else
      && couponId.value in before
      && after == before[couponId.value := before[couponId.value].(used := before[couponId.value].used + 1)]
  }

  /** The receipt belongs to the order, and no longer expires. */
  ghost predicate ReceiptAttached(before: map<string, Receipt>, after: map<string, Receipt>, receiptId: Option<string>, o: nat) {
    if receiptId.None? then after == before
    else
      && receiptId.value in before
      && after == before[receiptId.value := before[receiptId.value].(orderId := Some(o), expiresAt := None)]
  }

  /** The older rows are as they were, and the new ones are active rows of the order with this expiry; each item's
      counter rose by what the lines ask for. */
  ghost predicate StockHeld(before: Stockroom.Room, after: Stockroom.Room, lines: seq<Stockroom.StockLine>, o: nat, expiresAt: Option<int>) {
    && |before.reservations| <= |after.reservations| && after.reservations[..|before.reservations|] == before.reservations
    && (forall i :: |before.reservations| <= i < |after.reservations| ==>
          var row := after.reservations[i];
          row.orderId == o && row.status == Stockroom.Active && row.expiresAt == expiresAt)
    && after.movements == before.movements && after.stock.Keys == before.stock.Keys
    && (forall id :: id in before.stock ==>
          after.stock[id] == before.stock[id].(reserved := before.stock[id].reserved + SumBy(lines, Stockroom.DemandOn(id))))
  }

  lemma {:induction false} HoldsAddUp(room: Stockroom.Room, demand: seq<Stockroom.StockLine>, o: nat, expiresAt: Option<int>, id: string)
    requires Stockroom.ReserveAll(room, demand, o, expiresAt).Some? && id in room.stock
    ensures var after := Stockroom.ReserveAll(room, demand, o, expiresAt).value;
      && id in after.stock
      && after.stock[id] == room.stock[id].(reserved := room.stock[id].reserved + SumBy(demand, Stockroom.DemandOn(id)))
    decreases |demand|
  {
    if demand != [] {
      HoldsAddUp(Stockroom.Hold(room, demand[0], o, expiresAt), demand[1..], o, expiresAt, id);
    }
  }

  lemma {:induction false} ReservingHolds(room: Stockroom.Room, lines: seq<Stockroom.StockLine>, o: nat, expiresAt: Option<int>)
    requires Stockroom.AllPositive(lines) && Stockroom.ReserveAll(room, Stockroom.Aggregate(lines), o, expiresAt).Some?
    ensures StockHeld(room, Stockroom.ReserveAll(room, Stockroom.Aggregate(lines), o, expiresAt).value, lines, o, expiresAt)
  {
    var demand := Stockroom.Aggregate(lines);
    var after := Stockroom.ReserveAll(room, demand, o, expiresAt).value;
    Stockroom.ReserveAllAddsRows(room, demand, o, expiresAt);
    var n := |room.reservations|;
    forall i | n <= i < |after.reservations|
      ensures after.reservations[i].orderId == o && after.reservations[i].status == Stockroom.Active && after.reservations[i].expiresAt == expiresAt
    {
      assert after.reservations[n + (i - n)]
          == Stockroom.Reservation(demand[i - n].stockItemId, o, demand[i - n].quantity, Stockroom.Active, expiresAt);
    }
    forall id | id in room.stock
      ensures after.stock[id] == room.stock[id].(reserved := room.stock[id].reserved + SumBy(lines, Stockroom.DemandOn(id)))
    {
      HoldsAddUp(room, demand, o, expiresAt, id);
      Stockroom.AggregateKeepsDemand(lines, id);
    }
  }

  lemma {:induction false} CommitIsPlaced(t: Tables, r: nat, placement: OrderLines.Placement)
    requires r < |t.requests| && t.requests[r].phase.Admitted? && CartIsActive(t, t.requests[r])
    requires placement.Placed? && Stockroom.AllPositive(placement.order.stockLines)
    requires Proceed(t, r, placement).requests[r].phase == Done(|t.orders|)
    ensures CommitsOrder(t, r, placement)
    ensures Proceed(t, r, placement)
         == WithPhase(Placed(t, t.requests[r], placement.order, ReservedRoom(t, t.requests[r], placement.order).value), r, Done(|t.orders|))
  {
    CheckoutIsDecided(t, r, placement);
    Stockroom.ReservesIffAvailable(t.room, placement.order.stockLines, |t.orders|, DeadlineAt(t.now, t.requests[r].ttl));
    NewKeyIsNotFound(t.orders, t.requests[r].key);
    RequestOutcome(t, r, placement);
  }

  /** A commit adds one pending, unpaid order with the request's key, payload and deadline and the placed total, takes
      the cart, uses the coupon once, attaches the receipt, and holds the stock for the request's time to live from
      now. Nothing else changes. */
  lemma {:induction false} CommittedCheckout(t: Tables, r: nat, placement: OrderLines.Placement)
    requires r < |t.requests| && t.requests[r].phase.Admitted? && CartIsActive(t, t.requests[r])
    requires placement.Placed? && Stockroom.AllPositive(placement.order.stockLines)
    requires Proceed(t, r, placement).requests[r].phase == Done(|t.orders|)
    ensures var q, after, placed := t.requests[r], Proceed(t, r, placement), placement.order;
      && |after.orders| == |t.orders| + 1 && after.orders[..|t.orders|] == t.orders
      && after.orders[|t.orders|] == Order(q.key, q.payload, q.cartId, q.phase.deadline, Pending, Unpaid, placed.total, placed.couponId, false,
                                           after.orders[|t.orders|].quantities)
      && |after.orders[|t.orders|].quantities| == |placed.items|
      && (forall i :: 0 <= i < |placed.items| ==> after.orders[|t.orders|].quantities[i] == placed.items[i].quantity)
      && after.carts == t.carts[q.cartId := Ordered]
      && CouponUsed(t.coupons, after.coupons, placed.couponId)
      && ReceiptAttached(t.receipts, after.receipts, q.payload.receiptId, |t.orders|)
      && StockHeld(t.room, after.room, placed.stockLines, |t.orders|, if q.ttl.Some? then Some(t.now + q.ttl.value) else None)
      && after == t.(room := after.room, orders := after.orders, coupons := after.coupons, carts := after.carts, receipts := after.receipts,
                     requests := t.requests[r := q.(phase := Done(|t.orders|))])
  {
    CommitIsPlaced(t, r, placement);
    ReservingHolds(t.room, placement.order.stockLines, |t.orders|, DeadlineAt(t.now, t.requests[r].ttl));
  }
}

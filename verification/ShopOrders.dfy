/** What a committed checkout stores of the cart it was made from: the pricing and the order protocol put
    together (src/modules/orders/orders.service.ts). */
module ShopOrders {
  import opened Options
  import opened Sums
  import opened Stockroom
  import opened Shop
  import opened ShopHistory
  import opened ShopStock
  import opened ShopRuns
  import BundlePricing
  import CartPricing
  import OrderLines

  /** Units of this stock item the cart line asks for; lines without tracked stock ask for none. */
  function WantedOf(id: string): CartPricing.CartItem -> int {
    (item: CartPricing.CartItem) =>
      if item.variant.stockItem.Some? && item.variant.stockItem.value.id == id then item.quantity else 0
  }

  function CartQuantity(item: CartPricing.CartItem): int { item.quantity }

  lemma {:induction false} StockLinesDemand(items: seq<CartPricing.CartItem>, id: string)
    ensures SumBy(OrderLines.StockLines(items), DemandOn(id)) == SumBy(items, WantedOf(id))
  {
    if items != [] {
      StockLinesDemand(items[1..], id);
      if items[0].variant.stockItem.Some? {
        var line := StockLine(items[0].variant.stockItem.value.id, items[0].quantity);
        assert OrderLines.StockLines(items) == [line] + OrderLines.StockLines(items[1..]);
        assert ([line] + OrderLines.StockLines(items[1..]))[1..] == OrderLines.StockLines(items[1..]);
      } else {
        assert OrderLines.StockLines(items) == OrderLines.StockLines(items[1..]);
      }
    }
  }

  function QuantityBelow(n: nat): OrderLines.OrderItem -> int {
    (item: OrderLines.OrderItem) => if item.itemIndex < n then item.quantity else 0
  }

  /** Order lines of the first `n` cart lines hold the units of those cart lines. */
  lemma {:induction false} QuantitiesAddUp(items: seq<OrderLines.OrderItem>, cart: seq<CartPricing.CartItem>, n: nat)
    requires n <= |cart| && forall i: nat :: i < |cart| ==> SumBy(items, OrderLines.ItemQuantityOn(i)) == cart[i].quantity
    ensures SumBy(items, QuantityBelow(n)) == SumBy(cart[..n], CartQuantity)
  {
    if n == 0 {
      SumZero(items, QuantityBelow(0));
    } else {
      var m: nat := n - 1;
      QuantitiesAddUp(items, cart, m);
      SumAdd(items, QuantityBelow(m), OrderLines.ItemQuantityOn(m), QuantityBelow(n));
      assert cart[..n] == cart[..m] + [cart[m]];
      SumSnoc(cart[..m], cart[m], CartQuantity);
    }
  }

  /** The new rows reserve exactly the demand, and no older row belongs to the new order. */
  lemma {:induction false} NewRowsHoldDemand(t: Tables, room: Room, demand: seq<StockLine>, expiresAt: Option<int>, id: string)
    requires RowsFit(t.orders, t.room.reservations) && Reserved(t.room, room, demand, |t.orders|, expiresAt)
    ensures SumBy(room.reservations, RequiredOf(|t.orders|, id)) == SumBy(demand, DemandOn(id))
  {
    var o, n := |t.orders|, |t.room.reservations|;
    SumSplit(room.reservations, n, RequiredOf(o, id));
    SumZero(room.reservations[..n], RequiredOf(o, id));
    SumPointwise(room.reservations[n..], demand, RequiredOf(o, id), DemandOn(id));
  }

  lemma {:induction false} OrderHoldsUnits(cart: CartPricing.Cart, bundles: seq<BundlePricing.Bundle>, now: int, later: int,
                                           rate: OrderLines.ShippingRate, expectedTotal: int)
    requires OrderLines.PlaceOrder(cart, bundles, now, later, rate, expectedTotal).Placed?
    ensures var items := OrderLines.PlaceOrder(cart, bundles, now, later, rate, expectedTotal).order.items;
      SumBy(Quantities(items), Itself) == SumBy(cart.items, CartQuantity)
  {
    var items := OrderLines.PlaceOrder(cart, bundles, now, later, rate, expectedTotal).order.items;
    OrderLines.OrderConservesMoney(cart, bundles, now, later, rate, expectedTotal);
    OrderLines.OrderConservesUnits(cart, bundles, now, later, rate, expectedTotal);
    QuantitiesAddUp(items, cart.items, |cart.items|);
    assert cart.items[..|cart.items|] == cart.items;
    forall k | 0 <= k < |items| ensures QuantityBelow(|cart.items|)(items[k]) == Itself(Quantities(items)[k]) {
      assert items[k] in items;
    }
    SumPointwise(items, Quantities(items), QuantityBelow(|cart.items|), Itself);
  }

  /** Of each stock item, exactly what the cart asks for is reserved for the new order. */
  lemma {:induction false} CartIsReserved(t: Tables, cart: seq<CartPricing.CartItem>, expiresAt: Option<int>, id: string)
    requires RowsFit(t.orders, t.room.reservations) && AllPositive(OrderLines.StockLines(cart))
    requires ReserveAll(t.room, Aggregate(OrderLines.StockLines(cart)), |t.orders|, expiresAt).Some?
    ensures var room := ReserveAll(t.room, Aggregate(OrderLines.StockLines(cart)), |t.orders|, expiresAt).value;
      SumBy(room.reservations, RequiredOf(|t.orders|, id)) == SumBy(cart, WantedOf(id))
  {
    var demand := Aggregate(OrderLines.StockLines(cart));
    ReserveAllAddsRows(t.room, demand, |t.orders|, expiresAt);
    NewRowsHoldDemand(t, ReserveAll(t.room, demand, |t.orders|, expiresAt).value, demand, expiresAt, id);
    AggregateKeepsDemand(OrderLines.StockLines(cart), id);
    StockLinesDemand(cart, id);
  }

  lemma {:induction false} CommittedTables(t: Tables, r: nat, price: (CartRow, int) -> OrderLines.Placement)
    requires r < |t.requests| && CommitsOrder(t, r, Priced(t, r, price))
    ensures var after, placement := Next(t, RequestStep(r, price)), Priced(t, r, price);
      && |after.orders| == |t.orders| + 1
      && after.orders[|t.orders|] == NewOrder(t.requests[r], t.requests[r].phase.deadline, placement.order)
      && after.room == ReservedRoom(t, t.requests[r], placement.order).value
  {
    RequestOutcome(t, r, Priced(t, r, price));
  }

  lemma {:induction false} CommittedOrderFits(t: Tables, r: nat, reading: Reading)
    requires RowsFit(t.orders, t.room.reservations) && r < |t.requests| && CommitsOrder(t, r, Priced(t, r, PricingWith(reading)))
    ensures var q, cart := t.requests[r], ContentsOf(t.contents, t.requests[r].cartId);
            var after := Next(t, RequestStep(r, PricingWith(reading)));
      && |after.orders| == |t.orders| + 1
      && var order := after.orders[|t.orders|];
      && order.cartId == q.cartId
      && order.total == q.payload.expectedTotal == OrderLines.QuoteOf(cart, reading.bundles, reading.pricedAt, reading.rate).total
      && order.couponId == (if cart.coupon.Some? then Some(cart.coupon.value.id) else None)
      && SumBy(order.quantities, Itself) == SumBy(cart.items, CartQuantity)
      && (forall id :: SumBy(after.room.reservations, RequiredOf(|t.orders|, id)) == SumBy(cart.items, WantedOf(id)))
  {
    var q, cart := t.requests[r], ContentsOf(t.contents, t.requests[r].cartId);
    CommittedTables(t, r, PricingWith(reading));
    OrderLines.OrderConservesMoney(cart, reading.bundles, reading.pricedAt, reading.validatedAt, reading.rate, q.payload.expectedTotal);
    OrderHoldsUnits(cart, reading.bundles, reading.pricedAt, reading.validatedAt, reading.rate, q.payload.expectedTotal);
    OrderLines.StockLinesPositive(cart.items);
    forall id
      ensures SumBy(Next(t, RequestStep(r, PricingWith(reading))).room.reservations, RequiredOf(|t.orders|, id)) == SumBy(cart.items, WantedOf(id))
    {
      CartIsReserved(t, cart.items, DeadlineAt(t.now, q.ttl), id);
    }
  }

  lemma {:induction false} RowsBelong(t: Tables)
    requires Reachable(t)
    ensures RowsFit(t.orders, t.room.reservations)
  {
    ReachableInv(t);
  }

  /** In every reachable state, a checkout call that commits stores an order of the request's cart, whose total is
      what the customer was quoted for it, that holds every unit of the cart, and for which exactly the cart's
      stock is reserved, item by item. */
  lemma {:induction false} CommittedOrderHoldsItsCart(t: Tables, r: nat, reading: Reading)
    requires Reachable(t) && r < |t.requests| && CommitsOrder(t, r, Priced(t, r, PricingWith(reading)))
    ensures var q, cart := t.requests[r], ContentsOf(t.contents, t.requests[r].cartId);
            var after := Next(t, RequestStep(r, PricingWith(reading)));
      && Reachable(after) && |after.orders| == |t.orders| + 1
      && var order := after.orders[|t.orders|];
      && order.cartId == q.cartId
      && order.total == q.payload.expectedTotal == OrderLines.QuoteOf(cart, reading.bundles, reading.pricedAt, reading.rate).total
      && order.couponId == (if cart.coupon.Some? then Some(cart.coupon.value.id) else None)
      && SumBy(order.quantities, Itself) == SumBy(cart.items, CartQuantity)
      && (forall id :: SumBy(after.room.reservations, RequiredOf(|t.orders|, id)) == SumBy(cart.items, WantedOf(id)))
  {
    RowsBelong(t);
    StepStaysReachable(t, RequestStep(r, PricingWith(reading)));
    CommittedOrderFits(t, r, reading);
  }

  lemma {:induction false} RunConcat(t: Tables, steps: seq<Step>, step: Step)
    ensures Run(t, steps + [step]) == Next(Run(t, steps), step)
    decreases |steps|
  {
    if steps == [] {
      assert [step][1..] == [] && steps + [step] == [step];
    } else {
      assert (steps + [step])[1..] == steps[1..] + [step];
      RunConcat(Next(t, steps[0]), steps[1..], step);
    }
  }

  lemma {:induction false} StepStaysReachable(t: Tables, step: Step)
    requires Reachable(t) && Sensible(step)
    ensures Reachable(Next(t, step))
  {
    var steps :| AllSensible(steps) && t == Run(EMPTY, steps);
    RunConcat(EMPTY, steps, step);
    assert AllSensible(steps + [step]);
  }
}

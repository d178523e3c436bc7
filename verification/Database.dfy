/** The transactions as the services run them: row by row over the tables, with conditional updates and
    loops. Each leaves the tables as the corresponding step of Shop says. */
module Database {
  import opened Options
  import opened Sums
  import opened Stockroom
  import opened Shop
  import OrderLines

  /** All lines that share a stock item, combined. */
  method AggregateLines(lines: seq<StockLine>) returns (demand: seq<StockLine>)
    ensures demand == Aggregate(lines)
  {
    demand := [];
    for i := 0 to |lines|
      invariant demand == Aggregate(lines[..i])
    {
      assert lines[..i + 1][..i] == lines[..i];
      demand := AddLine(demand, lines[i]);
    }
    assert lines[..|lines|] == lines;
  }

  /** Quantity recorded for a key so far. */
  function QuantityAt(quantities: map<string, int>, id: string): int {
    if id in quantities then quantities[id] else 0
  }

  /** Per stock item, what the order's first `n` rows required and still cover. */
  ghost predicate Tallied(rows: seq<Reservation>, orderId: nat, n: nat, required: map<string, int>, covered: map<string, int>)
    requires n <= |rows|
  {
    && (forall id :: QuantityAt(required, id) == SumBy(rows[..n], RequiredOf(orderId, id)))
    && (forall id :: QuantityAt(covered, id) == SumBy(rows[..n], CoveredOf(orderId, id)))
    && (forall i :: 0 <= i < n && rows[i].orderId == orderId ==> rows[i].stockItemId in required)
    && (forall id :: id in required ==> exists i :: 0 <= i < n && rows[i].orderId == orderId && rows[i].stockItemId == id)
  }

  lemma {:induction false} NextRowCounts(rows: seq<Reservation>, i: nat, orderId: nat)
    requires i < |rows|
    ensures forall id ::
      SumBy(rows[..i + 1], RequiredOf(orderId, id)) == SumBy(rows[..i], RequiredOf(orderId, id)) + RequiredOf(orderId, id)(rows[i])
    ensures forall id ::
      SumBy(rows[..i + 1], CoveredOf(orderId, id)) == SumBy(rows[..i], CoveredOf(orderId, id)) + CoveredOf(orderId, id)(rows[i])
  {
    assert rows[..i + 1] == rows[..i] + [rows[i]];
    forall id
      ensures SumBy(rows[..i + 1], RequiredOf(orderId, id)) == SumBy(rows[..i], RequiredOf(orderId, id)) + RequiredOf(orderId, id)(rows[i])
    {
      SumSnoc(rows[..i], rows[i], RequiredOf(orderId, id));
    }
    forall id
      ensures SumBy(rows[..i + 1], CoveredOf(orderId, id)) == SumBy(rows[..i], CoveredOf(orderId, id)) + CoveredOf(orderId, id)(rows[i])
    {
      SumSnoc(rows[..i], rows[i], CoveredOf(orderId, id));
    }
  }

  /** One more row of the order: its quantity is required, and covered while the row stands. */
  lemma {:induction false} NextRowTallied(rows: seq<Reservation>, orderId: nat, i: nat, required: map<string, int>, covered: map<string, int>)
    requires i < |rows| && rows[i].orderId == orderId && Tallied(rows, orderId, i, required, covered)
    ensures var id := rows[i].stockItemId;
      Tallied(rows, orderId, i + 1, required[id := QuantityAt(required, id) + rows[i].quantity],
              if Standing(rows[i]) then covered[id := QuantityAt(covered, id) + rows[i].quantity] else covered)
  {
    NextRowCounts(rows, i, orderId);
  }

  method TallyRows(rows: seq<Reservation>, orderId: nat) returns (required: map<string, int>, covered: map<string, int>)
    ensures Tallied(rows, orderId, |rows|, required, covered)
  {
    required, covered := map[], map[];
    for i := 0 to |rows|
      invariant Tallied(rows, orderId, i, required, covered)
    {
      var row := rows[i];
      if row.orderId == orderId {
        NextRowTallied(rows, orderId, i, required, covered);
        required := required[row.stockItemId := QuantityAt(required, row.stockItemId) + row.quantity];
        if row.status == Stockroom.Active || row.status == Stockroom.Consumed {
          covered := covered[row.stockItemId := QuantityAt(covered, row.stockItemId) + row.quantity];
        }
      } else {
        NextRowCounts(rows, i, orderId);
      }
    }
    assert rows[..|rows|] == rows;
  }

  method CompareCoverage(rows: seq<Reservation>, orderId: nat, required: map<string, int>, covered: map<string, int>)
    returns (fullyCovered: bool)
    requires Tallied(rows, orderId, |rows|, required, covered)
    ensures fullyCovered == FullyCovered(rows, orderId)
  {
    assert rows[..|rows|] == rows;
    fullyCovered := true;
    var left := required.Keys;
    while left != {}
      invariant left <= required.Keys
      invariant fullyCovered <==> forall id :: id in required && id !in left ==> QuantityAt(covered, id) >= required[id]
      decreases |left|
    {
      var id :| id in left;
      left := left - {id};
      if QuantityAt(covered, id) < required[id] {
        fullyCovered := false;
      }
    }
  }

  class Store {
    var stock: map<string, StockItem>
    var reservations: seq<Reservation>
    var movements: seq<Movement>
    var orders: seq<Order>
    var coupons: map<string, Coupon>
    var carts: map<string, CartStatus>
    var contents: map<string, CartRow>
    var receipts: map<string, Receipt>
    var refunds: seq<RefundRow>
    var itemReturns: seq<ReturnRow>
    var requests: seq<Request>
    var expiring: seq<nat>
    var now: int

    function Warehouse(): Room
      reads this
    {
      Room(stock, reservations, movements)
    }

    function State(): Tables
      reads this
    {
      Tables(Warehouse(), orders, coupons, carts, receipts, refunds, itemReturns, requests, expiring, now, contents)
    }

    method PutRoomBack(before: Room)
      modifies this
      ensures Warehouse() == before
    {
      stock, reservations, movements := before.stock, before.reservations, before.movements;
    }

    method RollBack(before: Tables)
      modifies this
      ensures State() == before
    {
      PutRoomBack(before.room);
      orders, coupons, carts, receipts := before.orders, before.coupons, before.carts, before.receipts;
      refunds, itemReturns, requests, expiring, now := before.refunds, before.itemReturns, before.requests, before.expiring, before.now;
      contents := before.contents;
    }

    // ---------------------------------------------------------- reservations

    /** False means a conditional update matched no row: the caller rolls back. */
    method ReserveAggregated(demand: seq<StockLine>, orderId: nat, expiresAt: Option<int>) returns (ok: bool)
      modifies this
      ensures ok == ReserveAll(old(Warehouse()), demand, orderId, expiresAt).Some?
      ensures ok ==> State() == old(State()).(room := ReserveAll(old(Warehouse()), demand, orderId, expiresAt).value)
    {
      for k := 0 to |demand|
        invariant State() == old(State()).(room := Warehouse())
        invariant ReserveAll(old(Warehouse()), demand, orderId, expiresAt) == ReserveAll(Warehouse(), demand[k..], orderId, expiresAt)
      {
        var line := demand[k];
        assert demand[k..][1..] == demand[k + 1..];
        if line.stockItemId !in stock || stock[line.stockItemId].onHand - stock[line.stockItemId].reserved < line.quantity {
          return false;
        }
        var item := stock[line.stockItemId];
        stock := stock[line.stockItemId := item.(reserved := item.reserved + line.quantity)];
        reservations := reservations + [Reservation(line.stockItemId, orderId, line.quantity, Stockroom.Active, expiresAt)];
      }
      assert demand[|demand|..] == [];
      ok := true;
    }

    method ConsumeMany(ids: seq<nat>) returns (ok: bool)
      modifies this
      ensures ok == ConsumeAll(old(Warehouse()), ids).Some?
      ensures ok ==> State() == old(State()).(room := ConsumeAll(old(Warehouse()), ids).value)
    {
      for k := 0 to |ids|
        invariant State() == old(State()).(room := Warehouse())
        invariant ConsumeAll(old(Warehouse()), ids) == ConsumeAll(Warehouse(), ids[k..])
      {
        var id := ids[k];
        assert ids[k..][1..] == ids[k + 1..];
        if id >= |reservations| || reservations[id].status != Stockroom.Active {
          return false;
        }
        var row := reservations[id];
        if row.stockItemId !in stock || stock[row.stockItemId].onHand < row.quantity || stock[row.stockItemId].reserved < row.quantity {
          return false;
        }
        var item := stock[row.stockItemId];
        reservations := reservations[id := row.(status := Stockroom.Consumed)];
        stock := stock[row.stockItemId := item.(onHand := item.onHand - row.quantity, reserved := item.reserved - row.quantity)];
        movements := movements + [Movement(row.stockItemId, -row.quantity)];
      }
      assert ids[|ids|..] == [];
      ok := true;
    }

    method ReleaseOne(id: nat, status: ReservationStatus)
      modifies this
      ensures State() == old(State()).(room := Release(old(Warehouse()), id, status))
    {
      if id < |reservations| && reservations[id].status == Stockroom.Active {
        var row := reservations[id];
        reservations := reservations[id := row.(status := status)];
        if row.stockItemId in stock && stock[row.stockItemId].reserved >= row.quantity {
          var item := stock[row.stockItemId];
          stock := stock[row.stockItemId := item.(reserved := item.reserved - row.quantity)];
        }
      }
    }

    method ReleaseMany(ids: seq<nat>, status: ReservationStatus)
      modifies this
      ensures State() == old(State()).(room := ReleaseAll(old(Warehouse()), ids, status))
    {
      for k := 0 to |ids|
        invariant State() == old(State()).(room := Warehouse())
        invariant ReleaseAll(old(Warehouse()), ids, status) == ReleaseAll(Warehouse(), ids[k..], status)
      {
        assert ids[k..][1..] == ids[k + 1..];
        ReleaseOne(ids[k], status);
      }
      assert ids[|ids|..] == [];
    }

    method ReleaseReservationIfStillExpired(id: nat) returns (released: bool)
      modifies this
      ensures State() == Next(old(State()), ReleaseExpired(id))
      ensures released == StillExpired(old(Warehouse()), id, old(now))
    {
      released := id < |reservations| && reservations[id].status == Stockroom.Active
                  && reservations[id].expiresAt.Some? && reservations[id].expiresAt.value < now;
      if released {
        ReleaseOne(id, Stockroom.Expired);
      }
    }

    method PinActive(orderId: nat)
      modifies this
      ensures State() == old(State()).(room := old(Warehouse()).(reservations := Pin(old(reservations), orderId)))
    {
      reservations := Pin(reservations, orderId);
    }

    method FindActive(orderId: nat) returns (active: seq<nat>)
      ensures active == ActiveIds(reservations, orderId)
    {
      active := [];
      for i := 0 to |reservations|
        invariant active == ActiveIds(reservations[..i], orderId)
      {
        assert reservations[..i + 1][..i] == reservations[..i];
        if ActiveFor(reservations[i], orderId) {
          active := active + [i];
        }
      }
      assert reservations[..|reservations|] == reservations;
    }

    method AnyConsumed(orderId: nat) returns (found: bool)
      ensures found == HasConsumed(reservations, orderId)
    {
      found := false;
      for i := 0 to |reservations|
        invariant found <==> exists k :: 0 <= k < i && reservations[k].orderId == orderId && reservations[k].status == Consumed
      {
        found := found || (reservations[i].orderId == orderId && reservations[i].status == Consumed);
      }
    }

    method LoadReservationTriage(orderId: nat) returns (active: seq<nat>, hasAny: bool, hasConsumed: bool, fullyCovered: bool)
      ensures active == ActiveIds(reservations, orderId)
      ensures hasAny == HasAny(reservations, orderId)
      ensures hasConsumed == HasConsumed(reservations, orderId)
      ensures fullyCovered == FullyCovered(reservations, orderId)
    {
      active := FindActive(orderId);
      var required, covered := TallyRows(reservations, orderId);
      fullyCovered := CompareCoverage(reservations, orderId, required, covered);
      hasConsumed := AnyConsumed(orderId);
      hasAny := required.Keys != {};
      assert hasAny ==> exists id :: id in required.Keys;
    }

    // ---------------------------------------------------------- orders

    method DecrementCoupon(couponId: Option<string>)
      modifies this
      ensures State() == old(State()).(coupons := GiveCouponBack(old(coupons), couponId))
    {
      if couponId.Some? && couponId.value in coupons {
        var c := coupons[couponId.value];
        coupons := coupons[couponId.value := c.(used := if c.used - 1 > 0 then c.used - 1 else 0)];
      }
    }

    method UpdateFulfillmentStatus(o: nat, target: Fulfillment) returns (error: Option<ShopError>)
      modifies this
      ensures State() == Commit(old(State()), UpdateFulfillment(old(State()), o, target))
      ensures error == ErrorOf(UpdateFulfillment(old(State()), o, target))
    {
      if o >= |orders| {
        return Some(NotFound);
      }
      var order := orders[o];
      if order.fulfillment == target {
        return None;
      }
      if !MayFulfil(order.fulfillment, target) {
        return Some(InvalidTransition);
      }
      if target == Preparing && order.payload.payBy.InstaPay? && order.payment != Paid {
        return Some(PaymentNotConfirmed);
      }
      var couponReleaseNeeded := false;
      if target == Confirmed {
        var active, hasAny, _, fullyCovered := LoadReservationTriage(o);
        if hasAny && !fullyCovered {
          return Some(StockReservationLost);
        }
        if |active| > 0 {
          PinActive(o);
        } else {
          NothingToPin(reservations, o);
        }
      }
      if target == Cancelled {
        var active := FindActive(o);
        if |active| > 0 {
          ReleaseMany(active, Stockroom.Released);
        }
        couponReleaseNeeded := ReleasesCoupon(order);
      }
      orders := orders[o := order.(fulfillment := target, couponReleased := order.couponReleased || couponReleaseNeeded)];
      if couponReleaseNeeded {
        DecrementCoupon(order.couponId);
      }
      error := None;
    }

    method UpdatePaymentStatus(o: nat, target: Payment) returns (error: Option<ShopError>)
      modifies this
      ensures State() == Commit(old(State()), UpdatePayment(old(State()), o, target))
      ensures error == ErrorOf(UpdatePayment(old(State()), o, target))
    {
      if target == PartiallyRefunded || target == Refunded {
        return Some(UseRefundsEndpoint);
      }
      if o >= |orders| {
        return Some(NotFound);
      }
      var order := orders[o];
      if order.payment == target {
        return None;
      }
      if order.fulfillment == Cancelled || !MayPay(order.payment, target) {
        return Some(InvalidTransition);
      }
      if target == Paid {
        var before := State();
        var active, hasAny, _, fullyCovered := LoadReservationTriage(o);
        if hasAny && !fullyCovered {
          return Some(StockReservationLost);
        }
        var consumed := ConsumeMany(active);
        if !consumed {
          RollBack(before);
          return Some(CannotConsume);
        }
        if order.payload.payBy.InstaPay? {
          if !HasPending(receipts, o) {
            RollBack(before);
            return Some(NoPendingReceipt);
          }
          receipts := AcceptPending(receipts, o);
        }
      }
      orders := orders[o := order.(payment := target)];
      error := None;
    }

    method CancelDueToExpiryTransaction(o: nat) returns (cancelled: bool)
      modifies this
      ensures State() == CancelDueToExpiry(old(State()), o)
      ensures cancelled == (o < |old(orders)| && old(orders)[o].fulfillment == Pending && old(orders)[o].payment == Unpaid)
    {
      if o >= |orders| || orders[o].fulfillment != Pending || orders[o].payment != Unpaid {
        return false;
      }
      var order := orders[o];
      orders := orders[o := order.(fulfillment := Cancelled, couponReleased := order.couponReleased || order.couponId.Some?)];
      var active := FindActive(o);
      if |active| > 0 {
        ReleaseMany(active, Stockroom.Expired);
      }
      if order.couponId.Some? && !order.couponReleased {
        DecrementCoupon(order.couponId);
      }
      cancelled := true;
    }

    // ---------------------------------------------------------- checkout

    method SetPhase(r: nat, phase: Phase)
      requires r < |requests|
      modifies this
      ensures State() == WithPhase(old(State()), r, phase)
    {
      requests := requests[r := requests[r].(phase := phase)];
    }

    method TakeCoupon(couponId: Option<string>) returns (ok: bool)
      modifies this
      ensures ok == CouponFree(old(State()), couponId)
      ensures ok ==> State() == old(State()).(coupons := UseCoupon(old(coupons), couponId))
    {
      if couponId.Some? {
        if couponId.value !in coupons
           || (coupons[couponId.value].limit.Some? && coupons[couponId.value].used >= coupons[couponId.value].limit.value) {
          return false;
        }
        var c := coupons[couponId.value];
        coupons := coupons[couponId.value := c.(used := c.used + 1)];
      }
      ok := true;
    }

    method AttachReceipt(q: Request, orderId: nat) returns (ok: bool)
      modifies this
      ensures ok == CanAttach(old(State()), q)
      ensures ok ==> State() == old(State()).(receipts := Attach(old(receipts), q.payload.receiptId, orderId))
    {
      if q.payload.receiptId.Some? {
        var id := q.payload.receiptId.value;
        if id !in receipts || receipts[id].cartId != q.cartId || receipts[id].orderId.Some?
           || (receipts[id].expiresAt.Some? && receipts[id].expiresAt.value <= now) {
          return false;
        }
        receipts := receipts[id := receipts[id].(orderId := Some(orderId), expiresAt := None)];
      }
      ok := true;
    }

    /** The checkout transaction; every failure after the claim rolls everything back. */
    method CreateOrderTransaction(r: nat, placement: OrderLines.Placement)
      requires r < |requests| && requests[r].phase.Admitted?
      modifies this
      ensures State() == Transact(old(State()), r, placement)
    {
      var q := requests[r];
      var before := State();
      if q.cartId !in carts || carts[q.cartId] != Shop.Active {
        SetPhase(r, ClaimLost(before, q));
        return;
      }
      carts := carts[q.cartId := Ordered];
      if placement.Refused? {
        RollBack(before);
        SetPhase(r, Failed(NotPlaced));
        return;
      }
      var placed := placement.order;
      var couponTaken := TakeCoupon(placed.couponId);
      if !couponTaken {
        RollBack(before);
        SetPhase(r, Failed(CouponLimitReached));
        return;
      }
      if OrderOfKey(orders, q.key) < |orders| {
        RollBack(before);
        SetPhase(r, KeyConflict);
        return;
      }
      var o := |orders|;
      orders := orders + [NewOrder(q, q.phase.deadline, placed)];
      var attached := AttachReceipt(q, o);
      if !attached {
        RollBack(before);
        SetPhase(r, Failed(ReceiptAlreadyAttached));
        return;
      }
      var demand := AggregateLines(placed.stockLines);
      var reserved := ReserveAggregated(demand, o, DeadlineAt(now, q.ttl));
      if !reserved {
        RollBack(before);
        SetPhase(r, Failed(InsufficientStock));
        return;
      }
      SetPhase(r, Done(o));
    }

    /** The whole transaction with its pricing of the request's own cart. */
    method Checkout(r: nat, reading: Reading)
      requires r < |requests| && requests[r].phase.Admitted?
      modifies this
      ensures State() == Transact(old(State()), r, Priced(old(State()), r, PricingWith(reading)))
    {
      var placement := OrderLines.CreateOrder(ContentsOf(contents, requests[r].cartId), reading.bundles, reading.pricedAt,
                                              reading.validatedAt, reading.rate, requests[r].payload.expectedTotal);
      CreateOrderTransaction(r, placement);
    }

    // ---------------------------------------------------------- refunds, returns, adjustments

    method SumRefunds(o: nat) returns (sum: int)
      ensures sum == SumBy(refunds, RefundOn(o))
    {
      sum := 0;
      for i := 0 to |refunds|
        invariant sum == SumBy(refunds[..i], RefundOn(o))
      {
        assert refunds[..i + 1] == refunds[..i] + [refunds[i]];
        SumSnoc(refunds[..i], refunds[i], RefundOn(o));
        if refunds[i].orderId == o {
          sum := sum + refunds[i].amount;
        }
      }
      assert refunds[..|refunds|] == refunds;
    }

    method CreateRefund(o: nat, amount: int, sameCurrency: bool, key: string) returns (error: Option<ShopError>)
      modifies this
      ensures State() == Commit(old(State()), RecordRefund(old(State()), o, amount, sameCurrency, key))
      ensures error == ErrorOf(RecordRefund(old(State()), o, amount, sameCurrency, key))
    {
      if amount < 1 {
        return Some(BadRequest);
      }
      if o >= |orders| {
        return Some(NotFound);
      }
      var existing := RefundOfKey(refunds, key);
      if existing < |refunds| {
        return if refunds[existing].orderId != o then Some(IdempotencyKeyReused) else None;
      }
      var order := orders[o];
      if order.payment != Paid && order.payment != PartiallyRefunded {
        return Some(InvalidTransition);
      }
      if !sameCurrency {
        return Some(BadRequest);
      }
      var alreadyRefunded := SumRefunds(o);
      var newTotal := alreadyRefunded + amount;
      if newTotal > order.total {
        return Some(RefundExceedsPaid);
      }
      refunds := refunds + [RefundRow(o, amount, key)];
      orders := orders[o := order.(payment := if newTotal >= order.total then Refunded else PartiallyRefunded)];
      error := None;
    }

    method SumReturns(o: nat, item: nat) returns (sum: int)
      ensures sum == SumBy(itemReturns, ReturnOn(o, item))
    {
      sum := 0;
      for i := 0 to |itemReturns|
        invariant sum == SumBy(itemReturns[..i], ReturnOn(o, item))
      {
        assert itemReturns[..i + 1] == itemReturns[..i] + [itemReturns[i]];
        SumSnoc(itemReturns[..i], itemReturns[i], ReturnOn(o, item));
        if itemReturns[i].orderId == o && itemReturns[i].item == item {
          sum := sum + itemReturns[i].quantity;
        }
      }
      assert itemReturns[..|itemReturns|] == itemReturns;
    }

    method CreateReturn(o: nat, item: nat, quantity: int) returns (error: Option<ShopError>)
      modifies this
      ensures State() == Commit(old(State()), RecordReturn(old(State()), o, item, quantity))
      ensures error == ErrorOf(RecordReturn(old(State()), o, item, quantity))
    {
      if quantity < 1 {
        return Some(BadRequest);
      }
      if o >= |orders| || item >= |orders[o].quantities| {
        return Some(NotFound);
      }
      var alreadyReturned := SumReturns(o, item);
      if alreadyReturned + quantity > orders[o].quantities[item] {
        return Some(ReturnExceedsPurchased);
      }
      itemReturns := itemReturns + [ReturnRow(o, item, quantity)];
      error := None;
    }

    method AdjustItem(id: string, delta: int) returns (ok: bool)
      modifies this
      ensures ok == CanAdjust(old(Warehouse()), id, delta)
      ensures State() == Next(old(State()), AdjustStock(id, delta))
    {
      ok := id in stock && stock[id].onHand + delta >= 0;
      if ok {
        stock := stock[id := stock[id].(onHand := stock[id].onHand + delta)];
        movements := movements + [Movement(id, delta)];
      }
    }
  }

  function ErrorOf<T>(result: Result<T>): Option<ShopError> { if result.Ok? then None else Some(result.error) }

  lemma {:induction false} NothingToPin(reservations: seq<Reservation>, orderId: nat)
    requires ActiveIds(reservations, orderId) == []
    ensures Pin(reservations, orderId) == reservations
  {
    forall i: nat | i < |reservations| ensures !ActiveFor(reservations[i], orderId) {
      assert ActiveFor(reservations[i], orderId) ==> i in ActiveIds(reservations, orderId);
    }
  }
}

/** What every step leaves alone: how order rows, receipts and requests may change over time. */
module ShopHistory {
  import opened Options
  import opened Sums
  import opened Shop
  import OrderLines
  import Stockroom

  ghost predicate SameIdentity(a: Order, b: Order) {
    && b.key == a.key && b.payload == a.payload && b.cartId == a.cartId && b.deadline == a.deadline
    && b.total == a.total && b.couponId == a.couponId && b.quantities == a.quantities
  }

  /** The legal moves of an order row: identity is fixed, statuses follow the transition tables, an
      order cancelled before payment is final, and an InstaPay order starts preparation only when paid. */
  ghost predicate Advances(a: Order, b: Order) {
    && SameIdentity(a, b)
    && (b.fulfillment == a.fulfillment || MayFulfil(a.fulfillment, b.fulfillment))
    && (b.payment == a.payment || MayPay(a.payment, b.payment))
    && (a.fulfillment == Cancelled && NeverPaid(a.payment) ==> b == a)
    && (a.fulfillment != Preparing && b.fulfillment == Preparing && b.payload.payBy.InstaPay? ==> b.payment == Paid)
  }

  ghost predicate OrdersAdvance(before: seq<Order>, after: seq<Order>) {
    && |before| <= |after|
    && forall i :: 0 <= i < |before| ==> Advances(before[i], after[i])
  }

  /** An attached receipt stays, with its order and cart, and its review happens once. */
  ghost predicate ReceiptStays(a: Receipt, b: Receipt) {
    && b.orderId == a.orderId && b.cartId == a.cartId && b.expiresAt == a.expiresAt
    && (b.status == a.status || a.status == PendingReview)
  }

  ghost predicate ReceiptsStay(before: map<string, Receipt>, after: map<string, Receipt>) {
    forall id :: id in before && before[id].orderId.Some? && before[id].expiresAt.None? ==>
      id in after && ReceiptStays(before[id], after[id])
  }

  lemma {:induction false} OneAdvances(orders: seq<Order>, o: nat, order: Order)
    requires o < |orders| && Advances(orders[o], order)
    ensures OrdersAdvance(orders, orders[o := order])
  {
  }

  lemma {:induction false} FulfillmentAdvances(t: Tables, o: nat, target: Fulfillment)
    ensures OrdersAdvance(t.orders, Commit(t, UpdateFulfillment(t, o, target)).orders)
    ensures Commit(t, UpdateFulfillment(t, o, target)).receipts == t.receipts
  {
    var after := Commit(t, UpdateFulfillment(t, o, target));
    if o < |t.orders| && after != t {
      OneAdvances(t.orders, o, after.orders[o]);
      assert after.orders == t.orders[o := after.orders[o]];
    }
  }

  lemma {:induction false} PaymentAdvances(t: Tables, o: nat, target: Payment)
    ensures OrdersAdvance(t.orders, Commit(t, UpdatePayment(t, o, target)).orders)
    ensures ReceiptsStay(t.receipts, Commit(t, UpdatePayment(t, o, target)).receipts)
  {
    var after := Commit(t, UpdatePayment(t, o, target));
    if o < |t.orders| && after != t {
      OneAdvances(t.orders, o, after.orders[o]);
      assert after.orders == t.orders[o := after.orders[o]];
    }
  }

  lemma {:induction false} RefundAdvances(t: Tables, o: nat, amount: int, sameCurrency: bool, key: string)
    ensures OrdersAdvance(t.orders, Commit(t, RecordRefund(t, o, amount, sameCurrency, key)).orders)
    ensures Commit(t, RecordRefund(t, o, amount, sameCurrency, key)).receipts == t.receipts
  {
    var after := Commit(t, RecordRefund(t, o, amount, sameCurrency, key));
    if o < |t.orders| && after != t {
      OneAdvances(t.orders, o, after.orders[o]);
      assert after.orders == t.orders[o := after.orders[o]];
    }
  }

  lemma {:induction false} ExpiryAdvances(t: Tables, o: nat)
    ensures OrdersAdvance(t.orders, CancelDueToExpiry(t, o).orders)
    ensures CancelDueToExpiry(t, o).receipts == t.receipts
  {
    var after := CancelDueToExpiry(t, o);
    if o < |t.orders| && after != t {
      OneAdvances(t.orders, o, after.orders[o]);
      assert after.orders == t.orders[o := after.orders[o]];
    }
  }

  lemma {:induction false} SameAdvances(before: seq<Order>, after: seq<Order>)
    requires |before| <= |after| && after[..|before|] == before
    ensures OrdersAdvance(before, after)
  {
    forall i | 0 <= i < |before| ensures Advances(before[i], after[i]) {
      assert after[i] == after[..|before|][i];
    }
  }

  lemma {:induction false} PlacedAdvances(t: Tables, q: Request, placed: OrderLines.PlacedOrder, room: Stockroom.Room)
    requires q.phase.Admitted? && CanAttach(t, q)
    ensures OrdersAdvance(t.orders, Placed(t, q, placed, room).orders)
    ensures ReceiptsStay(t.receipts, Placed(t, q, placed, room).receipts)
  {
    SameAdvances(t.orders, Placed(t, q, placed, room).orders);
  }

  function ReservedRoom(t: Tables, q: Request, placed: OrderLines.PlacedOrder): Option<Stockroom.Room> {
    Stockroom.ReserveAll(t.room, Stockroom.Aggregate(placed.stockLines), |t.orders|, DeadlineAt(t.now, q.ttl))
  }

  /** The call runs the checkout transaction and every check in it passes. */
  predicate CommitsOrder(t: Tables, r: nat, placement: OrderLines.Placement)
    requires r < |t.requests|
  {
    var q := t.requests[r];
    && q.phase.Admitted? && placement.Placed?
    && q.cartId in t.carts && t.carts[q.cartId] == Active
    && CouponFree(t, placement.order.couponId)
    && OrderOfKey(t.orders, q.key) == |t.orders|
    && CanAttach(t, q)
    && ReservedRoom(t, q, placement.order).Some?
  }

  lemma {:induction false} TransactOutcome(t: Tables, r: nat, placement: OrderLines.Placement)
    requires r < |t.requests| && t.requests[r].phase.Admitted?
    ensures Transact(t, r, placement)
         == if CommitsOrder(t, r, placement)
            then WithPhase(Placed(t, t.requests[r], placement.order, ReservedRoom(t, t.requests[r], placement.order).value), r, Done(|t.orders|))
            else WithPhase(t, r, Transact(t, r, placement).requests[r].phase)
  {
  }

  /** A checkout call commits one order, or changes nothing but its request's phase. */
  lemma {:induction false} RequestOutcome(t: Tables, r: nat, placement: OrderLines.Placement)
    requires r < |t.requests|
    ensures Proceed(t, r, placement)
         == if CommitsOrder(t, r, placement)
            then WithPhase(Placed(t, t.requests[r], placement.order, ReservedRoom(t, t.requests[r], placement.order).value), r, Done(|t.orders|))
            else WithPhase(t, r, Proceed(t, r, placement).requests[r].phase)
  {
    if t.requests[r].phase.Admitted? {
      TransactOutcome(t, r, placement);
    } else {
      OtherCallsMovePhase(t, r, placement);
    }
  }

  lemma {:induction false} OtherCallsMovePhase(t: Tables, r: nat, placement: OrderLines.Placement)
    requires r < |t.requests| && !t.requests[r].phase.Admitted?
    ensures Proceed(t, r, placement) == WithPhase(t, r, Proceed(t, r, placement).requests[r].phase)
  {
  }

  lemma {:induction false} RequestAdvances(t: Tables, r: nat, placement: OrderLines.Placement)
    requires r < |t.requests|
    ensures OrdersAdvance(t.orders, Proceed(t, r, placement).orders)
    ensures ReceiptsStay(t.receipts, Proceed(t, r, placement).receipts)
  {
    RequestOutcome(t, r, placement);
    if CommitsOrder(t, r, placement) {
      PlacedAdvances(t, t.requests[r], placement.order, ReservedRoom(t, t.requests[r], placement.order).value);
    } else {
      SameAdvances(t.orders, t.orders);
    }
  }

  lemma {:induction false} ReceiptStepStays(t: Tables, step: Step)
    requires step.UploadReceipt? || step.ReplaceReceipt? || step.Reject? || step.DeleteExpiredReceipt?
    ensures Next(t, step).orders == t.orders
    ensures ReceiptsStay(t.receipts, Next(t, step).receipts)
  {
    if step.Reject? {
      RejectedStays(t, step.rejectedFor, step.rejected);
    } else if step.DeleteExpiredReceipt? {
      DisposedWasFree(t, step.deleted);
    }
  }

  lemma {:induction false} RejectedStays(t: Tables, o: nat, id: string)
    ensures var after := Commit(t, RejectReceipt(t, o, id)); after.orders == t.orders && ReceiptsStay(t.receipts, after.receipts)
  {
  }

  lemma {:induction false} DisposedWasFree(t: Tables, id: string)
    ensures DeleteReceipt(t, id).orders == t.orders && ReceiptsStay(t.receipts, DeleteReceipt(t, id).receipts)
  {
  }

  predicate TouchesNoOrder(step: Step) {
    || step.Wait? || step.CreateCart? || step.CreateCoupon? || step.CreateItem? || step.AdjustStock?
    || step.Submit? || step.ChangeCart? || step.Return? || step.SelectExpired? || step.ReleaseExpired?
  }

  lemma {:induction false} OtherStepStays(t: Tables, step: Step)
    requires TouchesNoOrder(step)
    ensures Next(t, step).orders == t.orders && Next(t, step).receipts == t.receipts
  {
  }

  lemma {:induction false} StepAdvances(t: Tables, step: Step)
    ensures OrdersAdvance(t.orders, Next(t, step).orders)
    ensures ReceiptsStay(t.receipts, Next(t, step).receipts)
  {
    SameAdvances(t.orders, t.orders);
    if step.RequestStep? {
      if step.r < |t.requests| {
        RequestAdvances(t, step.r, Priced(t, step.r, step.price));
      }
    } else if step.SetFulfillment? {
      FulfillmentAdvances(t, step.fulfilled, step.fulfillment);
    } else if step.SetPayment? {
      PaymentAdvances(t, step.paid, step.payment);
    } else if step.Refund? {
      RefundAdvances(t, step.refunded, step.amount, step.sameCurrency, step.refundKey);
    } else if step.CancelExpired? {
      ExpiryAdvances(t, step.candidate);
    } else if step.UploadReceipt? || step.ReplaceReceipt? || step.Reject? || step.DeleteExpiredReceipt? {
      ReceiptStepStays(t, step);
    } else {
      OtherStepStays(t, step);
    }
  }

  /** The request tables differ at most in the phase of `r`. */
  ghost predicate OnlyPhaseMoves(before: seq<Request>, after: seq<Request>, r: nat) {
    && |after| == |before|
    && (forall s :: 0 <= s < |before| && s != r ==> after[s] == before[s])
    && (r < |before| ==> after[r] == before[r].(phase := after[r].phase))
  }

  lemma {:induction false} RequestMovesItself(t: Tables, r: nat, placement: OrderLines.Placement)
    requires r < |t.requests|
    ensures OnlyPhaseMoves(t.requests, Proceed(t, r, placement).requests, r)
  {
    RequestOutcome(t, r, placement);
  }

  /** A request keeps what it asked for, and only its own calls move it. */
  lemma {:induction false} RequestsStay(t: Tables, step: Step, r: nat)
    requires r < |t.requests|
    ensures r < |Next(t, step).requests|
    ensures !(step.RequestStep? && step.r == r) ==> Next(t, step).requests[r] == t.requests[r]
    ensures Next(t, step).requests[r] == t.requests[r].(phase := Next(t, step).requests[r].phase)
  {
    if step.RequestStep? {
      if step.r < |t.requests| {
        RequestMovesItself(t, step.r, Priced(t, step.r, step.price));
      }
    } else {
      OnlyRequestsAndCarts(t, step);
    }
  }

  lemma {:induction false} OnlyRequestsAndCarts(t: Tables, step: Step)
    requires !step.RequestStep?
    ensures |Next(t, step).orders| == |t.orders|
    ensures !step.CreateCart? ==> Next(t, step).carts == t.carts
    ensures !step.Submit? ==> Next(t, step).requests == t.requests
  {
    if step.SetFulfillment? {
      FulfillmentTouches(t, step.fulfilled, step.fulfillment);
    } else if step.SetPayment? {
      PaymentTouches(t, step.paid, step.payment);
    }
  }

  lemma {:induction false} FulfillmentTouches(t: Tables, o: nat, target: Fulfillment)
    ensures var after := Commit(t, UpdateFulfillment(t, o, target));
      && |after.orders| == |t.orders| && after.carts == t.carts && after.requests == t.requests
      && after.refunds == t.refunds && after.itemReturns == t.itemReturns && after.now == t.now
  {
  }

  lemma {:induction false} PaymentTouches(t: Tables, o: nat, target: Payment)
    ensures var after := Commit(t, UpdatePayment(t, o, target));
      && |after.orders| == |t.orders| && after.carts == t.carts && after.requests == t.requests
      && after.refunds == t.refunds && after.itemReturns == t.itemReturns && after.now == t.now
  {
  }

  /** An admitted request becomes an order exactly when its cart is active, the pricing places it, its
      coupon is free, its key is new, its receipt is attachable, and every stock item has enough available
      for all lines together. */
  lemma {:induction false} CheckoutCommitsIff(t: Tables, r: nat, placement: OrderLines.Placement)
    requires r < |t.requests| && t.requests[r].phase.Admitted?
    requires placement.Placed? ==> Stockroom.AllPositive(placement.order.stockLines)
    ensures |Proceed(t, r, placement).orders| > |t.orders|
       <==> var q := t.requests[r];
            && placement.Placed?
            && q.cartId in t.carts && t.carts[q.cartId] == Active
            && CouponFree(t, placement.order.couponId)
            && (forall i :: 0 <= i < |t.orders| ==> t.orders[i].key != q.key)
            && CanAttach(t, q)
            && StockSuffices(t.room, placement.order.stockLines)
    ensures |Proceed(t, r, placement).orders| > |t.orders| ==> Proceed(t, r, placement).requests[r].phase == Done(|t.orders|)
  {
    RequestOutcome(t, r, placement);
    if placement.Placed? {
      Stockroom.ReservesIffAvailable(t.room, placement.order.stockLines, |t.orders|, DeadlineAt(t.now, t.requests[r].ttl));
    }
  }

  ghost predicate StockSuffices(room: Stockroom.Room, lines: seq<Stockroom.StockLine>) {
    forall i :: 0 <= i < |lines| ==>
      Stockroom.Available(room, lines[i].stockItemId, SumBy(lines, Stockroom.DemandOn(lines[i].stockItemId)))
  }
}

/** Receipts, refunds and returns agree with their orders in every reachable state. */
module ShopPayments {
  import opened Options
  import opened Sums
  import opened Shop
  import opened ShopHistory
  import opened ShopStock
  import OrderLines

  // ------------------------------------------------------------ receipts

  /** An attached receipt belongs to an existing order and no longer expires. */
  ghost predicate AttachedForGood(orders: seq<Order>, receipts: map<string, Receipt>) {
    forall id :: id in receipts && receipts[id].orderId.Some? ==>
      receipts[id].expiresAt.None? && receipts[id].orderId.value < |orders|
  }

  ghost predicate HasAccepted(receipts: map<string, Receipt>, o: nat) {
    exists id :: id in receipts && receipts[id].orderId == Some(o) && receipts[id].status == Accepted
  }

  predicate InPreparation(f: Fulfillment) { f == Preparing || f == Shipped || f == Delivered }

  /** An InstaPay order is prepared only when paid, and paid only on an accepted receipt. */
  ghost predicate ProofFits(order: Order, o: nat, receipts: map<string, Receipt>) {
    order.payload.payBy.InstaPay? ==>
      && (InPreparation(order.fulfillment) ==> WasPaid(order.payment))
      && (WasPaid(order.payment) ==> HasAccepted(receipts, o))
  }

  ghost predicate ProofInv(t: Tables) {
    && AttachedForGood(t.orders, t.receipts)
    && forall o :: 0 <= o < |t.orders| ==> ProofFits(t.orders[o], o, t.receipts)
  }

  lemma {:induction false} AcceptedStays(orders: seq<Order>, before: map<string, Receipt>, after: map<string, Receipt>, o: nat)
    requires AttachedForGood(orders, before) && ReceiptsStay(before, after) && HasAccepted(before, o)
    ensures HasAccepted(after, o)
  {
    var id :| id in before && before[id].orderId == Some(o) && before[id].status == Accepted;
    assert ReceiptStays(before[id], after[id]);
  }

  /** Any step keeps the proof of an order it does not mark paid. */
  lemma {:induction false} ProofSurvives(t: Tables, after: Tables, o: nat)
    requires ProofInv(t) && o < |t.orders| && OrdersAdvance(t.orders, after.orders) && ReceiptsStay(t.receipts, after.receipts)
    requires WasPaid(after.orders[o].payment) && !WasPaid(t.orders[o].payment) && after.orders[o].payload.payBy.InstaPay?
             ==> HasAccepted(after.receipts, o)
    ensures ProofFits(after.orders[o], o, after.receipts)
  {
    assert Advances(t.orders[o], after.orders[o]);
    assert ProofFits(t.orders[o], o, t.receipts);
    if HasAccepted(t.receipts, o) {
      AcceptedStays(t.orders, t.receipts, after.receipts, o);
    }
  }

  lemma {:induction false} MarkedPaidHasProof(t: Tables, o: nat)
    requires o < |t.orders| && t.orders[o].payload.payBy.InstaPay? && MarkPaid(t, o).Ok?
    ensures HasAccepted(MarkPaid(t, o).value.receipts, o)
  {
    var id :| id in t.receipts && Reviewable(t.receipts[id], o);
    var accepted := AcceptPending(t.receipts, o);
    assert accepted[id].status == Accepted;
  }

  lemma {:induction false} PaymentKeepsProof(t: Tables, o: nat, target: Payment)
    requires ProofInv(t)
    ensures ProofInv(Commit(t, UpdatePayment(t, o, target)))
  {
    var after := Commit(t, UpdatePayment(t, o, target));
    PaymentAdvances(t, o, target);
    if o < |t.orders| && target == Paid && t.orders[o].payload.payBy.InstaPay? && MarkPaid(t, o).Ok? {
      MarkedPaidHasProof(t, o);
    }
    forall i | 0 <= i < |after.orders| ensures ProofFits(after.orders[i], i, after.receipts) {
      ProofSurvives(t, after, i);
    }
  }

  /** Steps that mark nothing paid. */
  lemma {:induction false} QuietKeepsProof(t: Tables, step: Step)
    requires ProofInv(t) && !step.SetPayment? && !step.RequestStep?
    ensures ProofInv(Next(t, step))
  {
    var after := Next(t, step);
    StepAdvances(t, step);
    OnlyRequestsAndCarts(t, step);
    NotMarkedPaid(t, step);
    NothingElseAttaches(t, step);
    forall i | 0 <= i < |after.orders| ensures ProofFits(after.orders[i], i, after.receipts) {
      ProofSurvives(t, after, i);
    }
  }

  lemma {:induction false} FulfillmentMarksNothingPaid(t: Tables, o: nat, target: Fulfillment)
    ensures var after := Commit(t, UpdateFulfillment(t, o, target)).orders;
      |after| == |t.orders| && forall i :: 0 <= i < |t.orders| && WasPaid(after[i].payment) ==> WasPaid(t.orders[i].payment)
  {
  }

  lemma {:induction false} NotMarkedPaid(t: Tables, step: Step)
    requires !step.SetPayment? && !step.RequestStep?
    ensures |Next(t, step).orders| == |t.orders|
    ensures forall i :: 0 <= i < |t.orders| && WasPaid(Next(t, step).orders[i].payment) ==> WasPaid(t.orders[i].payment)
  {
    if step.SetFulfillment? {
      FulfillmentMarksNothingPaid(t, step.fulfilled, step.fulfillment);
    } else if !step.Refund? && !step.CancelExpired? {
      OnlyRequestsAndCarts(t, step);
    }
  }

  lemma {:induction false} NothingElseAttaches(t: Tables, step: Step)
    requires AttachedForGood(t.orders, t.receipts) && !step.SetPayment? && !step.RequestStep?
    ensures AttachedForGood(Next(t, step).orders, Next(t, step).receipts)
  {
    OnlyRequestsAndCarts(t, step);
    if TouchesNoOrder(step) {
      OtherStepStays(t, step);
    }
  }

  lemma {:induction false} RequestKeepsProof(t: Tables, r: nat, placement: OrderLines.Placement)
    requires ProofInv(t) && r < |t.requests|
    ensures ProofInv(Proceed(t, r, placement))
  {
    var after := Proceed(t, r, placement);
    RequestAdvances(t, r, placement);
    RequestAddsUnpaid(t, r, placement);
    forall i | 0 <= i < |after.orders| ensures ProofFits(after.orders[i], i, after.receipts) {
      if i < |t.orders| {
        ProofSurvives(t, after, i);
      }
    }
  }

  /** A new order is pending and unpaid, with the placed total and quantities. */
  ghost predicate FreshOrder(order: Order, placement: OrderLines.Placement) {
    && placement.Placed? && order.fulfillment == Pending && order.payment == Unpaid
    && order.total == placement.order.total && order.quantities == Quantities(placement.order.items)
  }

  /** A checkout call leaves the existing orders as they are and adds at most one. */
  lemma {:induction false} RequestAddsUnpaid(t: Tables, r: nat, placement: OrderLines.Placement)
    requires r < |t.requests|
    ensures var after := Proceed(t, r, placement);
      && (after.orders == t.orders
          || (exists order :: after.orders == t.orders + [order] && FreshOrder(order, placement)))
      && after.refunds == t.refunds && after.itemReturns == t.itemReturns
    ensures AttachedForGood(t.orders, t.receipts) ==>
      AttachedForGood(Proceed(t, r, placement).orders, Proceed(t, r, placement).receipts)
  {
    RequestOutcome(t, r, placement);
    if CommitsOrder(t, r, placement) {
      var order := NewOrder(t.requests[r], t.requests[r].phase.deadline, placement.order);
      assert Proceed(t, r, placement).orders == t.orders + [order] && FreshOrder(order, placement);
    }
  }

  // ------------------------------------------------------------ refunds

  /** The payment status says how much of the total was refunded. */
  ghost predicate RefundsFit(order: Order, refunded: int) {
    && 0 <= refunded <= order.total
    && (order.payment == Refunded <==> refunded > 0 && refunded == order.total)
    && (order.payment == PartiallyRefunded <==> 0 < refunded < order.total)
  }

  ghost predicate RefundRows(refunds: seq<RefundRow>, orders: nat) {
    && (forall i :: 0 <= i < |refunds| ==> refunds[i].orderId < orders && refunds[i].amount > 0)
    && (forall i, j :: 0 <= i < j < |refunds| ==> refunds[i].key != refunds[j].key)
  }

  ghost predicate RefundInv(t: Tables) {
    && RefundRows(t.refunds, |t.orders|)
    && forall o :: 0 <= o < |t.orders| ==> RefundsFit(t.orders[o], SumBy(t.refunds, RefundOn(o)))
  }

  /** The totals are the same, and no order enters or leaves a refund status. */
  ghost predicate SameRefundStatus(a: Order, b: Order) {
    b.total == a.total && (b.payment.Refunded? <==> a.payment.Refunded?) && (b.payment.PartiallyRefunded? <==> a.payment.PartiallyRefunded?)
  }

  lemma {:induction false} SameRefundsFit(t: Tables, after: Tables)
    requires RefundInv(t) && after.refunds == t.refunds && |after.orders| == |t.orders|
    requires forall o :: 0 <= o < |t.orders| ==> SameRefundStatus(t.orders[o], after.orders[o])
    ensures RefundInv(after)
  {
    forall o | 0 <= o < |after.orders| ensures RefundsFit(after.orders[o], SumBy(after.refunds, RefundOn(o))) {
      assert RefundsFit(t.orders[o], SumBy(t.refunds, RefundOn(o)));
      assert SameRefundStatus(t.orders[o], after.orders[o]);
    }
  }

  lemma {:induction false} RefundKeepsRefunds(t: Tables, o: nat, amount: int, sameCurrency: bool, key: string)
    requires RefundInv(t)
    ensures RefundInv(Commit(t, RecordRefund(t, o, amount, sameCurrency, key)))
  {
    var after := Commit(t, RecordRefund(t, o, amount, sameCurrency, key));
    if o < |t.orders| && after != t {
      forall i | 0 <= i < |after.orders| ensures RefundsFit(after.orders[i], SumBy(after.refunds, RefundOn(i))) {
        assert RefundsFit(t.orders[i], SumBy(t.refunds, RefundOn(i)));
        SumSnoc(t.refunds, RefundRow(o, amount, key), RefundOn(i));
      }
    }
  }

  lemma {:induction false} NewOrderRefundsNothing(t: Tables, r: nat, placement: OrderLines.Placement)
    requires RefundInv(t) && r < |t.requests| && (placement.Placed? ==> OrderLines.Orderable(placement.order))
    ensures RefundInv(Proceed(t, r, placement))
  {
    var after := Proceed(t, r, placement);
    RequestAddsUnpaid(t, r, placement);
    forall o | 0 <= o < |after.orders| ensures RefundsFit(after.orders[o], SumBy(after.refunds, RefundOn(o))) {
      if o < |t.orders| {
        assert RefundsFit(t.orders[o], SumBy(t.refunds, RefundOn(o)));
      } else {
        SumZero(t.refunds, RefundOn(o));
      }
    }
  }

  lemma {:induction false} PaymentLeavesRefunds(t: Tables, o: nat, target: Payment, i: nat)
    requires i < |t.orders|
    ensures var after := Commit(t, UpdatePayment(t, o, target));
            |after.orders| == |t.orders| && SameRefundStatus(t.orders[i], after.orders[i])
  {
  }

  lemma {:induction false} FulfillmentLeavesRefunds(t: Tables, o: nat, target: Fulfillment, i: nat)
    requires i < |t.orders|
    ensures var after := Commit(t, UpdateFulfillment(t, o, target));
            |after.orders| == |t.orders| && SameRefundStatus(t.orders[i], after.orders[i])
  {
  }

  lemma {:induction false} QuietLeavesRefunds(t: Tables, step: Step, o: nat)
    requires !step.RequestStep? && !step.Refund? && o < |t.orders|
    ensures o < |Next(t, step).orders| && SameRefundStatus(t.orders[o], Next(t, step).orders[o])
  {
    if step.SetPayment? {
      PaymentLeavesRefunds(t, step.paid, step.payment, o);
    } else if step.SetFulfillment? {
      FulfillmentLeavesRefunds(t, step.fulfilled, step.fulfillment, o);
    } else if !step.CancelExpired? && !step.UploadReceipt? && !step.ReplaceReceipt? && !step.Reject? && !step.DeleteExpiredReceipt? {
      OtherStepStays(t, step);
    }
  }

  lemma {:induction false} QuietLeavesRefundRows(t: Tables, step: Step)
    requires !step.RequestStep? && !step.Refund?
    ensures Next(t, step).refunds == t.refunds
  {
    if step.SetFulfillment? {
      FulfillmentTouches(t, step.fulfilled, step.fulfillment);
    } else if step.SetPayment? {
      PaymentTouches(t, step.paid, step.payment);
    }
  }

  lemma {:induction false} StepKeepsRefunds(t: Tables, step: Step)
    requires RefundInv(t) && Sensible(step)
    ensures RefundInv(Next(t, step))
  {
    if step.RequestStep? {
      if step.r < |t.requests| {
        SensiblePricing(t, step);
        NewOrderRefundsNothing(t, step.r, Priced(t, step.r, step.price));
      }
    } else if step.Refund? {
      RefundKeepsRefunds(t, step.refunded, step.amount, step.sameCurrency, step.refundKey);
    } else {
      QuietLeavesRefundRows(t, step);
      OnlyRequestsAndCarts(t, step);
      forall o | 0 <= o < |t.orders| ensures SameRefundStatus(t.orders[o], Next(t, step).orders[o]) {
        QuietLeavesRefunds(t, step, o);
      }
      SameRefundsFit(t, Next(t, step));
    }
  }

  /** Retrying a refund's key adds nothing and changes nothing, whatever the order's state by then. */
  lemma {:induction false} RefundRetryAddsNothing(t: Tables, o: nat, amount: int, sameCurrency: bool, key: string, amount': int, sameCurrency': bool)
    requires RefundInv(t) && RecordRefund(t, o, amount, sameCurrency, key).Ok? && amount' >= 1
    ensures var after := RecordRefund(t, o, amount, sameCurrency, key).value;
            RecordRefund(after, o, amount', sameCurrency', key) == Ok(after)
  {
    var after := RecordRefund(t, o, amount, sameCurrency, key).value;
    if after != t {
      assert after.refunds[|t.refunds|] == RefundRow(o, amount, key);
    }
  }

  // ------------------------------------------------------------ returns

  ghost predicate ReturnInv(t: Tables) {
    && (forall i :: 0 <= i < |t.itemReturns| ==> t.itemReturns[i].orderId < |t.orders|)
    && forall o, item :: 0 <= o < |t.orders| && 0 <= item < |t.orders[o].quantities| ==>
         0 <= SumBy(t.itemReturns, ReturnOn(o, item)) <= t.orders[o].quantities[item]
  }

  lemma {:induction false} ReturnKeepsReturns(t: Tables, o: nat, item: nat, quantity: int)
    requires ReturnInv(t)
    ensures ReturnInv(Commit(t, RecordReturn(t, o, item, quantity)))
  {
    var after := Commit(t, RecordReturn(t, o, item, quantity));
    if after != t {
      forall i, j | 0 <= i < |after.orders| && 0 <= j < |after.orders[i].quantities|
        ensures 0 <= SumBy(after.itemReturns, ReturnOn(i, j)) <= after.orders[i].quantities[j]
      {
        SumSnoc(t.itemReturns, ReturnRow(o, item, quantity), ReturnOn(i, j));
      }
    }
  }

  lemma {:induction false} NewOrderReturnsNothing(t: Tables, r: nat, placement: OrderLines.Placement)
    requires ReturnInv(t) && r < |t.requests| && (placement.Placed? ==> OrderLines.Orderable(placement.order))
    ensures ReturnInv(Proceed(t, r, placement))
  {
    var after := Proceed(t, r, placement);
    RequestAddsUnpaid(t, r, placement);
    forall o, item | 0 <= o < |after.orders| && 0 <= item < |after.orders[o].quantities|
      ensures 0 <= SumBy(after.itemReturns, ReturnOn(o, item)) <= after.orders[o].quantities[item]
    {
      if o >= |t.orders| {
        SumZero(t.itemReturns, ReturnOn(o, item));
      }
    }
  }

  lemma {:induction false} QuietLeavesReturns(t: Tables, step: Step)
    requires !step.RequestStep? && !step.Return?
    ensures Next(t, step).itemReturns == t.itemReturns
  {
    if step.SetFulfillment? {
      FulfillmentTouches(t, step.fulfilled, step.fulfillment);
    } else if step.SetPayment? {
      PaymentTouches(t, step.paid, step.payment);
    }
  }

  lemma {:induction false} StepKeepsReturns(t: Tables, step: Step)
    requires ReturnInv(t) && Sensible(step)
    ensures ReturnInv(Next(t, step))
  {
    if step.RequestStep? {
      if step.r < |t.requests| {
        SensiblePricing(t, step);
        NewOrderReturnsNothing(t, step.r, Priced(t, step.r, step.price));
      }
    } else if step.Return? {
      ReturnKeepsReturns(t, step.returned, step.item, step.quantity);
    } else {
      QuietLeavesReturns(t, step);
      StepAdvances(t, step);
      OnlyRequestsAndCarts(t, step);
      forall o | 0 <= o < |t.orders| ensures Next(t, step).orders[o].quantities == t.orders[o].quantities {
        assert Advances(t.orders[o], Next(t, step).orders[o]);
      }
    }
  }

  lemma {:induction false} StepKeepsProof(t: Tables, step: Step)
    requires ProofInv(t) && Sensible(step)
    ensures ProofInv(Next(t, step))
  {
    if step.RequestStep? {
      if step.r < |t.requests| {
        RequestKeepsProof(t, step.r, Priced(t, step.r, step.price));
      }
    } else if step.SetPayment? {
      PaymentKeepsProof(t, step.paid, step.payment);
    } else {
      QuietKeepsProof(t, step);
    }
  }

  lemma {:induction false} NewKeyIsAbsent(refunds: seq<RefundRow>, key: string)
    requires forall i :: 0 <= i < |refunds| ==> refunds[i].key != key
    ensures RefundOfKey(refunds, key) == |refunds|
  {
  }

  /** What is left of a paid order can always be refunded, which completes its refund; one unit more cannot. */
  lemma {:induction false} RemainderCanBeRefunded(t: Tables, o: nat, key: string)
    requires RefundInv(t) && o < |t.orders| && (t.orders[o].payment == Paid || t.orders[o].payment == PartiallyRefunded)
    requires forall i :: 0 <= i < |t.refunds| ==> t.refunds[i].key != key
    ensures var left := t.orders[o].total - SumBy(t.refunds, RefundOn(o));
      && RecordRefund(t, o, left + 1, true, key) == Err(RefundExceedsPaid)
      && (left > 0 ==>
            && RecordRefund(t, o, left, true, key).Ok?
            && RecordRefund(t, o, left, true, key).value.orders[o].payment == Refunded
            && SumBy(RecordRefund(t, o, left, true, key).value.refunds, RefundOn(o)) == t.orders[o].total)
  {
    assert RefundsFit(t.orders[o], SumBy(t.refunds, RefundOn(o)));
    NewKeyIsAbsent(t.refunds, key);
    SumSnoc(t.refunds, RefundRow(o, t.orders[o].total - SumBy(t.refunds, RefundOn(o)), key), RefundOn(o));
  }
}

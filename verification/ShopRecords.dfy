/** What refunds, returns and receipts leave behind in every reachable state: exactly when each is recorded,
    rejected or deleted (src/modules/orders/refunds, src/modules/payments/receipts). */
module ShopRecords {
  import opened Options
  import opened Sums
  import opened Shop
  import opened ShopHistory
  import opened ShopPayments
  import opened ShopRuns
  import OrderLines
  import Stockroom

  // ------------------------------------------------------------ refunds and returns

  function LeftToRefund(t: Tables, o: nat): int
    requires o < |t.orders|
  {
    t.orders[o].total - SumBy(t.refunds, RefundOn(o))
  }

  ghost predicate NewKey(t: Tables, key: string) { forall i :: 0 <= i < |t.refunds| ==> t.refunds[i].key != key }

  /** Any amount from one unit up to what is left of a paid order is refunded under a new key, and recorded as such;
      the order is then refunded in full or in part. Nothing else changes anything. */
  lemma {:induction false} RefundIsRecordedIff(t: Tables, o: nat, amount: int, sameCurrency: bool, key: string)
    ensures Next(t, Refund(o, amount, sameCurrency, key)) ==
      if && o < |t.orders| && (t.orders[o].payment == Paid || t.orders[o].payment == PartiallyRefunded)
         && sameCurrency && NewKey(t, key) && 1 <= amount <= LeftToRefund(t, o)
      then t.(refunds := t.refunds + [RefundRow(o, amount, key)],
              orders := t.orders[o := t.orders[o].(payment := if amount == LeftToRefund(t, o) then Refunded else PartiallyRefunded)])
      else t
  {
    if NewKey(t, key) {
      NewKeyIsAbsent(t.refunds, key);
    }
  }

  /** A refused refund names its reason; a key used before is answered as the refund it was. */
  lemma {:induction false} RefusedRefundsNameTheReason(t: Tables, o: nat, amount: int, sameCurrency: bool, key: string)
    requires Reachable(t) && o < |t.orders| && amount >= 1
    ensures var outcome := RecordRefund(t, o, amount, sameCurrency, key);
            var paid := t.orders[o].payment == Paid || t.orders[o].payment == PartiallyRefunded;
      && (!NewKey(t, key) ==> outcome == if Used(t, key, o) then Ok(t) else Err(IdempotencyKeyReused))
      && (NewKey(t, key) ==>
            && (outcome == Err(InvalidTransition) <==> !paid)
            && (outcome == Err(BadRequest) <==> paid && !sameCurrency)
            && (outcome == Err(RefundExceedsPaid) <==> paid && sameCurrency && amount > LeftToRefund(t, o))
            && (outcome.Ok? <==> paid && sameCurrency && amount <= LeftToRefund(t, o)))
  {
    ReachableInv(t);
    if NewKey(t, key) {
      NewKeyIsAbsent(t.refunds, key);
    } else {
      KeysAreUsedOnce(t, key);
    }
  }

  /** A refund of this order has the key. */
  ghost predicate Used(t: Tables, key: string, o: nat) {
    exists i :: 0 <= i < |t.refunds| && t.refunds[i].key == key && t.refunds[i].orderId == o
  }

  lemma {:induction false} KeysAreUsedOnce(t: Tables, key: string)
    requires RefundRows(t.refunds, |t.orders|) && !NewKey(t, key)
    ensures var i := RefundOfKey(t.refunds, key); i < |t.refunds| && forall o :: Used(t, key, o) <==> t.refunds[i].orderId == o
  {
    var i := RefundOfKey(t.refunds, key);
    assert t.refunds[i].key == key;
    forall o ensures Used(t, key, o) <==> t.refunds[i].orderId == o {
      if Used(t, key, o) {
        var j :| 0 <= j < |t.refunds| && t.refunds[j].key == key && t.refunds[j].orderId == o;
        assert i == j;
      }
    }
  }

  /** Any quantity from one up to what was bought and not yet returned is recorded as returned; more is not. */
  lemma {:induction false} ReturnIsRecordedIff(t: Tables, o: nat, item: nat, quantity: int)
    ensures Next(t, Return(o, item, quantity)) ==
      if && o < |t.orders| && item < |t.orders[o].quantities|
         && 1 <= quantity <= t.orders[o].quantities[item] - SumBy(t.itemReturns, ReturnOn(o, item))
      then t.(itemReturns := t.itemReturns + [ReturnRow(o, item, quantity)])
      else t
  {
  }

  /** A recorded refund or return counts with its amount, on its own order only. */
  lemma {:induction false} RecordsCount(t: Tables, o: nat, amount: int, key: string, item: nat, quantity: int, other: nat, otherItem: nat)
    ensures SumBy(t.refunds + [RefundRow(o, amount, key)], RefundOn(other)) == SumBy(t.refunds, RefundOn(other)) + if other == o then amount else 0
    ensures SumBy(t.itemReturns + [ReturnRow(o, item, quantity)], ReturnOn(other, otherItem))
         == SumBy(t.itemReturns, ReturnOn(other, otherItem)) + if other == o && otherItem == item then quantity else 0
  {
    SumSnoc(t.refunds, RefundRow(o, amount, key), RefundOn(other));
    SumSnoc(t.itemReturns, ReturnRow(o, item, quantity), ReturnOn(other, otherItem));
  }

  // ------------------------------------------------------------ the warehouse

  /** An adjustment that leaves no negative quantity on hand is made and noted as a movement; any other changes
      nothing, and neither does creating an item that exists. */
  lemma {:induction false} WarehouseActs(t: Tables, id: string, delta: int, opening: nat)
    ensures var after := Next(t, AdjustStock(id, delta));
      if id in t.room.stock && t.room.stock[id].onHand + delta >= 0
      then after == t.(room := Stockroom.Room(t.room.stock[id := t.room.stock[id].(onHand := t.room.stock[id].onHand + delta)],
                                              t.room.reservations, t.room.movements + [Stockroom.Movement(id, delta)]))
      else after == t
    ensures Next(t, CreateItem(id, opening)) ==
      if id in t.room.stock then t else t.(room := t.room.(stock := t.room.stock[id := Stockroom.StockItem(opening, 0, opening)]))
  {
  }

  // ------------------------------------------------------------ receipts

  /** An upload waits for review, unattached, until its retention ends; an id is used once. */
  lemma {:induction false} UploadIsKept(t: Tables, id: string, cartId: string, retention: nat)
    ensures Next(t, UploadReceipt(id, cartId, retention)) ==
      if id in t.receipts then t
      else t.(receipts := t.receipts[id := Receipt(cartId, None, PendingReview, Some(t.now + retention))])
  {
  }

  /** A replacement is attached to its order at once, under review, and never expires. */
  lemma {:induction false} ReplacementIsAttached(t: Tables, id: string, o: nat)
    ensures Next(t, ReplaceReceipt(id, o)) ==
      if id in t.receipts || o >= |t.orders| then t
      else t.(receipts := t.receipts[id := Receipt(t.orders[o].cartId, Some(o), PendingReview, None)])
  {
  }

  /** Rejecting a receipt of the order that is under review leaves it rejected, and does nothing else; any other
      rejection does nothing at all. */
  lemma {:induction false} RejectedIff(t: Tables, o: nat, id: string)
    ensures var after := Next(t, Reject(o, id));
      if id in t.receipts && t.receipts[id].orderId == Some(o) && t.receipts[id].status == PendingReview
      then after == t.(receipts := t.receipts[id := t.receipts[id].(status := Rejected)])
      else after == t
  {
  }

  /** The cleanup deletes exactly an unattached receipt whose retention has ended. */
  lemma {:induction false} DeletedIff(t: Tables, id: string)
    ensures var after := Next(t, DeleteExpiredReceipt(id));
      if id in t.receipts && t.receipts[id].orderId.None? && t.receipts[id].expiresAt.Some? && t.receipts[id].expiresAt.value < t.now
      then after == t.(receipts := t.receipts - {id})
      else after == t
  {
  }

  ghost predicate KeptUntil(receipts: map<string, Receipt>, id: string, cartId: string, time: int) {
    && id in receipts && receipts[id].cartId == cartId
    && (receipts[id].expiresAt.Some? ==> time <= receipts[id].expiresAt.value)
  }

  lemma {:induction false} CallKeepsReceipt(t: Tables, r: nat, placement: OrderLines.Placement, id: string, cartId: string, time: int)
    requires r < |t.requests| && KeptUntil(t.receipts, id, cartId, time)
    ensures KeptUntil(Proceed(t, r, placement).receipts, id, cartId, time)
  {
    RequestOutcome(t, r, placement);
  }

  lemma {:induction false} PaymentKeepsReceipt(t: Tables, o: nat, target: Payment, id: string, cartId: string, time: int)
    requires KeptUntil(t.receipts, id, cartId, time)
    ensures KeptUntil(Commit(t, UpdatePayment(t, o, target)).receipts, id, cartId, time)
  {
  }

  lemma {:induction false} StepKeepsReceipt(t: Tables, step: Step, id: string, cartId: string, time: int)
    requires KeptUntil(t.receipts, id, cartId, time) && t.now <= time
    ensures KeptUntil(Next(t, step).receipts, id, cartId, time)
  {
    if step.RequestStep? {
      if step.r < |t.requests| {
        CallKeepsReceipt(t, step.r, Priced(t, step.r, step.price), id, cartId, time);
      }
    } else if step.SetPayment? {
      PaymentKeepsReceipt(t, step.paid, step.payment, id, cartId, time);
    } else if step.SetFulfillment? {
      FulfillmentAdvances(t, step.fulfilled, step.fulfillment);
    } else if step.Refund? {
      RefundAdvances(t, step.refunded, step.amount, step.sameCurrency, step.refundKey);
    } else if step.CancelExpired? {
      ExpiryAdvances(t, step.candidate);
    } else if TouchesNoOrder(step) {
      OtherStepStays(t, step);
    }
  }

  lemma {:induction false} ClockOnlyAdvances(t: Tables, steps: seq<Step>)
    ensures t.now <= Run(t, steps).now
    decreases |steps|
  {
    if steps != [] {
      ClockAndCandidates(t, steps[0]);
      ClockOnlyAdvances(Next(t, steps[0]), steps[1..]);
    }
  }

  /** Along every run, an upload is still there, with its cart, until its retention has ended; once attached, for good. */
  lemma {:induction false} UploadSurvivesRetention(t: Tables, steps: seq<Step>, id: string)
    requires id in t.receipts
    requires t.receipts[id].expiresAt.Some? ==> Run(t, steps).now <= t.receipts[id].expiresAt.value
    ensures id in Run(t, steps).receipts && Run(t, steps).receipts[id].cartId == t.receipts[id].cartId
  {
    RunKeepsReceipt(t, steps, id, t.receipts[id].cartId, Run(t, steps).now);
  }

  lemma {:induction false} RunKeepsReceipt(t: Tables, steps: seq<Step>, id: string, cartId: string, time: int)
    requires KeptUntil(t.receipts, id, cartId, time) && Run(t, steps).now <= time
    ensures KeptUntil(Run(t, steps).receipts, id, cartId, time)
    decreases |steps|
  {
    if steps != [] {
      ClockOnlyAdvances(t, steps);
      StepKeepsReceipt(t, steps[0], id, cartId, time);
      RunKeepsReceipt(Next(t, steps[0]), steps[1..], id, cartId, time);
    }
  }
}

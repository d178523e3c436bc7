/** Every status change that staff can ask for, in every reachable state: exactly when it happens, and what it
    leaves in each table (src/modules/orders/orders.service.ts). Cancelling is in `ShopOutcomes`. */
module ShopTransitions {
  import opened Options
  import opened Sums
  import opened Stockroom
  import opened Shop
  import opened ShopRuns
  import opened ShopOutcomes

  /** No reservation of the order was released or expired. */
  ghost predicate NothingLost(rows: seq<Reservation>, o: nat) {
    forall i :: 0 <= i < |rows| && rows[i].orderId == o ==> rows[i].status == Stockroom.Active || rows[i].status == Consumed
  }

  lemma {:induction false} LostMeansLost(t: Tables, o: nat)
    requires Ledger(t.room)
    ensures CommitmentLost(t.room.reservations, o) <==> !NothingLost(t.room.reservations, o)
  {
    CoverageIsPerReservation(t.room.reservations, o);
  }

  // ------------------------------------------------------------ fulfilment

  /** The order is confirmed, and its active rows no longer expire. */
  ghost predicate ConfirmedAs(before: Tables, after: Tables, o: nat)
    requires o < |before.orders|
  {
    && after == before.(orders := before.orders[o := before.orders[o].(fulfillment := Confirmed)],
                        room := before.room.(reservations := after.room.reservations))
    && |after.room.reservations| == |before.room.reservations|
    && forall i :: 0 <= i < |before.room.reservations| ==>
         var row := before.room.reservations[i];
         after.room.reservations[i] == if row.orderId == o && row.status == Stockroom.Active then row.(expiresAt := None) else row
  }

  /** Only the order's fulfilment status changed. */
  ghost predicate MovedTo(before: Tables, after: Tables, o: nat, target: Fulfillment)
    requires o < |before.orders|
  {
    after == before.(orders := before.orders[o := before.orders[o].(fulfillment := target)])
  }

  /** The next stage of an order that is already confirmed; it is prepared when it pays on delivery or is paid. */
  predicate MayGoOn(order: Order, target: Fulfillment) {
    || (target == Preparing && order.fulfillment == Confirmed && (order.payload.payBy == CashOnDelivery || order.payment == Paid))
    || (target == Shipped && order.fulfillment == Preparing)
    || (target == Delivered && order.fulfillment == Shipped)
  }

  lemma {:induction false} OrderIsConfirmed(t: Tables, o: nat)
    requires o < |t.orders|
    ensures var after := Next(t, SetFulfillment(o, Confirmed));
      if t.orders[o].fulfillment == Pending && !CommitmentLost(t.room.reservations, o) then ConfirmedAs(t, after, o) else after == t
  {
  }

  lemma {:induction false} OrderGoesOn(t: Tables, o: nat, target: Fulfillment)
    requires o < |t.orders| && target != Cancelled && target != Confirmed
    ensures var after := Next(t, SetFulfillment(o, target));
      if MayGoOn(t.orders[o], target) then MovedTo(t, after, o, target) else after == t
  {
  }

  lemma {:induction false} LedgerHolds(t: Tables)
    requires Reachable(t)
    ensures Ledger(t.room)
  {
    ReachableInv(t);
  }

  /** Staff take an order forward one stage at a time, and confirm it only while none of its stock is lost. Nothing
      else changes anything. */
  lemma {:induction false} StaffMovesOrder(t: Tables, o: nat, target: Fulfillment)
    requires Reachable(t) && o < |t.orders| && target != Cancelled
    ensures var order, after := t.orders[o], Next(t, SetFulfillment(o, target));
      if target == Confirmed && order.fulfillment == Pending && NothingLost(t.room.reservations, o) then ConfirmedAs(t, after, o)
      else if MayGoOn(order, target) then MovedTo(t, after, o, target)
      else after == t
  {
    LedgerHolds(t);
    LostMeansLost(t, o);
    if target == Confirmed {
      OrderIsConfirmed(t, o);
    } else {
      OrderGoesOn(t, o, target);
    }
  }

  /** A refused move names its reason. */
  lemma {:induction false} RefusedMovesNameTheReason(t: Tables, o: nat, target: Fulfillment)
    requires Ledger(t.room)
    ensures var outcome := UpdateFulfillment(t, o, target);
      && (outcome == Err(NotFound) <==> o >= |t.orders|)
      && (outcome == Err(StockReservationLost) <==>
            o < |t.orders| && t.orders[o].fulfillment == Pending && target == Confirmed && !NothingLost(t.room.reservations, o))
      && (outcome == Err(PaymentNotConfirmed) <==>
            && o < |t.orders| && t.orders[o].fulfillment == Confirmed && target == Preparing
            && t.orders[o].payload.payBy == InstaPay && t.orders[o].payment != Paid)
      && (outcome.Err? ==> outcome.error in {NotFound, StockReservationLost, PaymentNotConfirmed, InvalidTransition})
  {
    LostMeansLost(t, o);
  }

  // ------------------------------------------------------------ consuming an order's stock

  function QuantityOn(rows: seq<Reservation>, id: string): nat -> int {
    (i: nat) => if i < |rows| && rows[i].stockItemId == id then rows[i].quantity else 0
  }

  ghost predicate ActiveRows(room: Room, ids: seq<nat>) { forall i :: 0 <= i < |ids| ==> IsActive(room, ids[i]) }

  lemma {:induction false} ConsumingOneKeepsQuantities(room: Room, id: nat, ids: seq<nat>, item: string)
    requires CanConsume(room, id)
    ensures SumBy(ids, QuantityOn(Consume(room, id).reservations, item)) == SumBy(ids, QuantityOn(room.reservations, item))
  {
    forall i | i in ids ensures QuantityOn(Consume(room, id).reservations, item)(i) == QuantityOn(room.reservations, item)(i) {
      assert Consume(room, id).reservations[id] == room.reservations[id].(status := Consumed);
    }
    SumEqual(ids, QuantityOn(Consume(room, id).reservations, item), QuantityOn(room.reservations, item));
  }

  lemma {:induction false} OthersStayActive(room: Room, ids: seq<nat>)
    requires ids != [] && Distinct(ids) && ActiveRows(room, ids) && CanConsume(room, ids[0])
    ensures Distinct(ids[1..]) && ActiveRows(Consume(room, ids[0]), ids[1..])
  {
    forall i | 0 <= i < |ids[1..]| ensures IsActive(Consume(room, ids[0]), ids[1..][i]) {
      assert IsActive(room, ids[i + 1]) && ids[0] != ids[i + 1];
    }
  }

  lemma {:induction false} QuantitiesAreNonNegative(rows: seq<Reservation>, ids: seq<nat>, item: string)
    requires PositiveQuantities(rows)
    ensures SumBy(ids, QuantityOn(rows, item)) >= 0
  {
    SumNonNegative(ids, QuantityOn(rows, item));
  }

  /** Active rows are consumed together exactly when, of each item, they hold no more than is on hand. */
  lemma {:induction false} ConsumedIffOnHand(room: Room, ids: seq<nat>)
    requires Ledger(room) && Distinct(ids) && ActiveRows(room, ids)
    ensures ConsumeAll(room, ids).Some?
       <==> forall item :: item in room.stock ==> SumBy(ids, QuantityOn(room.reservations, item)) <= room.stock[item].onHand
    decreases |ids|
  {
    if ids == [] {
      forall item | item in room.stock ensures room.stock[item].onHand >= 0 {
        assert Accounted(room, item);
      }
    } else {
      ActiveIsHeld(room, ids[0]);
      var row := room.reservations[ids[0]];
      if CanConsume(room, ids[0]) {
        var next := Consume(room, ids[0]);
        ConsumeKeepsLedger(room, ids[0]);
        OthersStayActive(room, ids);
        ConsumedIffOnHand(next, ids[1..]);
        forall item | item in room.stock
          ensures SumBy(ids, QuantityOn(room.reservations, item)) <= room.stock[item].onHand
             <==> SumBy(ids[1..], QuantityOn(next.reservations, item)) <= next.stock[item].onHand
        {
          ConsumingOneKeepsQuantities(room, ids[0], ids[1..], item);
        }
        assert next.stock.Keys == room.stock.Keys;
      } else {
        QuantitiesAreNonNegative(room.reservations, ids[1..], row.stockItemId);
        assert SumBy(ids, QuantityOn(room.reservations, row.stockItemId)) > room.stock[row.stockItemId].onHand;
      }
    }
  }

  lemma {:induction false} ConsumedIsTaken(room: Room, ids: seq<nat>, item: string)
    requires item in room.stock && ConsumeAll(room, ids).Some?
    ensures var after, taken := ConsumeAll(room, ids).value, SumBy(ids, QuantityOn(room.reservations, item));
      && item in after.stock
      && after.stock[item] == room.stock[item].(onHand := room.stock[item].onHand - taken, reserved := room.stock[item].reserved - taken)
    decreases |ids|
  {
    if ids != [] {
      ConsumingOneKeepsQuantities(room, ids[0], ids[1..], item);
      ConsumedIsTaken(Consume(room, ids[0]), ids[1..], item);
    }
  }

  lemma {:induction false} ActiveIdsHold(rows: seq<Reservation>, o: nat, item: string)
    ensures SumBy(ActiveIds(rows, o), QuantityOn(rows, item)) == SumBy(rows, HeldFor(o, item))
  {
    if rows != [] {
      var n := |rows| - 1;
      var before := ActiveIds(rows[..n], o);
      ActiveIdsHold(rows[..n], o, item);
      SumEqual(before, QuantityOn(rows[..n], item), QuantityOn(rows, item));
      assert rows == rows[..n] + [rows[n]];
      SumSnoc(rows[..n], rows[n], HeldFor(o, item));
      SumSnoc<nat>(before, n, QuantityOn(rows, item));
    }
  }

  // ------------------------------------------------------------ payment

  /** Of each item, the order's holds are on hand. */
  ghost predicate OnHandFor(room: Room, o: nat) {
    forall item :: item in room.stock ==> SumBy(room.reservations, HeldFor(o, item)) <= room.stock[item].onHand
  }

  ghost predicate ItemConsumed(before: Room, after: Room, o: nat, item: string)
    requires item in before.stock && item in after.stock
  {
    var taken := SumBy(before.reservations, HeldFor(o, item));
    && after.stock[item] == before.stock[item].(onHand := before.stock[item].onHand - taken, reserved := before.stock[item].reserved - taken)
    && SumBy(after.movements, MovedOn(item)) == SumBy(before.movements, MovedOn(item)) - taken
  }

  /** Each item lost exactly what the order held of it, on hand and reserved; movements were only added. */
  ghost predicate HoldsConsumed(before: Room, after: Room, o: nat) {
    && after.stock.Keys == before.stock.Keys
    && (forall item :: item in before.stock ==> ItemConsumed(before, after, o, item))
    && |before.movements| <= |after.movements| && after.movements[..|before.movements|] == before.movements
  }

  lemma {:induction false} OrderIsConsumedIff(room: Room, o: nat)
    requires Ledger(room)
    ensures var after := ConsumeAll(room, ActiveIds(room.reservations, o));
      && (after.Some? <==> OnHandFor(room, o))
      && (after.Some? ==> RowsGivenUp(room.reservations, after.value.reservations, o, Consumed) && HoldsConsumed(room, after.value, o))
  {
    var ids := ActiveIds(room.reservations, o);
    ActiveIdsDistinct(room.reservations, o);
    forall i | 0 <= i < |ids| ensures IsActive(room, ids[i]) {
      assert ids[i] in ids;
    }
    ConsumedIffOnHand(room, ids);
    forall item ensures SumBy(ids, QuantityOn(room.reservations, item)) == SumBy(room.reservations, HeldFor(o, item)) {
      ActiveIdsHold(room.reservations, o, item);
    }
    if ConsumeAll(room, ids).Some? {
      ConsumedRows(room, o);
      ConsumedHolds(room, o);
    }
  }

  lemma {:induction false} ConsumedRows(room: Room, o: nat)
    requires ConsumeAll(room, ActiveIds(room.reservations, o)).Some?
    ensures RowsGivenUp(room.reservations, ConsumeAll(room, ActiveIds(room.reservations, o)).value.reservations, o, Consumed)
  {
    var ids := ActiveIds(room.reservations, o);
    ConsumeAllRestates(room, ids);
    forall i: nat | i < |room.reservations| ensures i in ids <==> ActiveFor(room.reservations[i], o) {
    }
  }

  lemma {:induction false} ConsumedHolds(room: Room, o: nat)
    requires Ledger(room) && ConsumeAll(room, ActiveIds(room.reservations, o)).Some?
    ensures HoldsConsumed(room, ConsumeAll(room, ActiveIds(room.reservations, o)).value, o)
  {
    var ids := ActiveIds(room.reservations, o);
    var after := ConsumeAll(room, ids).value;
    ConsumeAllRestates(room, ids);
    ConsumeAllKeepsLedger(room, ids);
    MovementsAreAdded(room, ids);
    forall item | item in room.stock ensures ItemConsumed(room, after, o, item) {
      ConsumedIsTaken(room, ids, item);
      ActiveIdsHold(room.reservations, o, item);
      TakenIsMoved(room, after, item);
    }
  }

  /** Of an item whose counters agree with their rows, what left the shelf is what the movements say. */
  lemma {:induction false} TakenIsMoved(before: Room, after: Room, item: string)
    requires Ledger(before) && Ledger(after) && item in before.stock && item in after.stock
    requires after.stock[item].opening == before.stock[item].opening
    ensures SumBy(after.movements, MovedOn(item)) - SumBy(before.movements, MovedOn(item)) == after.stock[item].onHand - before.stock[item].onHand
  {
    assert Accounted(before, item) && Accounted(after, item);
  }

  lemma {:induction false} MovementsAreAdded(room: Room, ids: seq<nat>)
    requires ConsumeAll(room, ids).Some?
    ensures var after := ConsumeAll(room, ids).value;
      |room.movements| <= |after.movements| && after.movements[..|room.movements|] == room.movements
    decreases |ids|
  {
    if ids != [] {
      var next := Consume(room, ids[0]);
      MovementsAreAdded(next, ids[1..]);
      var after := ConsumeAll(room, ids).value;
      assert after.movements[..|room.movements|] == after.movements[..|next.movements|][..|room.movements|];
    }
  }

  /** The receipts of an InstaPay order that were under review are accepted. */
  ghost predicate ReceiptsAccepted(before: Tables, after: Tables, o: nat)
    requires o < |before.orders|
  {
    && after.receipts.Keys == before.receipts.Keys
    && forall id :: id in before.receipts ==>
         var r := before.receipts[id];
         after.receipts[id]
         == if before.orders[o].payload.payBy == InstaPay && r.orderId == Some(o) && r.status == PendingReview then r.(status := Accepted) else r
  }

  /** The order is paid, what it held is consumed, and its receipt is accepted. */
  ghost predicate PaidAs(before: Tables, after: Tables, o: nat)
    requires o < |before.orders|
  {
    && after == before.(orders := after.orders, room := after.room, receipts := after.receipts)
    && after.orders == before.orders[o := before.orders[o].(payment := Paid)]
    && RowsGivenUp(before.room.reservations, after.room.reservations, o, Consumed)
    && HoldsConsumed(before.room, after.room, o)
    && ReceiptsAccepted(before, after, o)
  }

  ghost predicate UnderReview(t: Tables, o: nat) {
    exists id :: id in t.receipts && t.receipts[id].orderId == Some(o) && t.receipts[id].status == PendingReview
  }

  lemma {:induction false} UnderReviewIsPending(t: Tables, o: nat)
    ensures UnderReview(t, o) <==> HasPending(t.receipts, o)
  {
    if UnderReview(t, o) {
      var id :| id in t.receipts && t.receipts[id].orderId == Some(o) && t.receipts[id].status == PendingReview;
      assert Reviewable(t.receipts[id], o);
    }
  }

  ghost predicate CanBePaid(t: Tables, o: nat)
    requires o < |t.orders|
  {
    && NotYetPaid(t.orders[o]) && t.orders[o].fulfillment != Cancelled
    && NothingLost(t.room.reservations, o) && OnHandFor(t.room, o)
    && (t.orders[o].payload.payBy == InstaPay ==> UnderReview(t, o))
  }

  lemma {:induction false} PaymentStep(t: Tables, o: nat)
    requires o < |t.orders|
    ensures Next(t, SetPayment(o, Paid))
         == if NotYetPaid(t.orders[o]) && t.orders[o].fulfillment != Cancelled then Commit(t, MarkPaid(t, o)) else t
  {
  }

  /** Whether and how an order is marked paid, once its status allows it. */
  lemma {:induction false} MarkingPaid(t: Tables, o: nat)
    requires Ledger(t.room) && o < |t.orders|
    ensures var outcome := MarkPaid(t, o);
            var lost, short := !NothingLost(t.room.reservations, o), !OnHandFor(t.room, o);
            var unproven := t.orders[o].payload.payBy == InstaPay && !UnderReview(t, o);
      if lost then outcome == Err(StockReservationLost)
      else if short then outcome == Err(CannotConsume)
      else if unproven then outcome == Err(NoPendingReceipt)
      else outcome.Ok? && PaidAs(t, outcome.value, o)
  {
    LostMeansLost(t, o);
    OrderIsConsumedIff(t.room, o);
    UnderReviewIsPending(t, o);
    if MarkPaid(t, o).Ok? {
      AcceptsReceipts(t, o);
    }
  }

  lemma {:induction false} AcceptsReceipts(t: Tables, o: nat)
    requires o < |t.orders| && MarkPaid(t, o).Ok?
    ensures ReceiptsAccepted(t, MarkPaid(t, o).value, o)
  {
  }

  /** Staff can mark an order paid exactly when it is unpaid and not cancelled, none of its stock is lost, all of it
      is on hand, and an InstaPay order has a receipt under review. Nothing changes otherwise. */
  lemma {:induction false} MarkedPaidIff(t: Tables, o: nat)
    requires Reachable(t) && o < |t.orders|
    ensures var after := Next(t, SetPayment(o, Paid)); if CanBePaid(t, o) then PaidAs(t, after, o) else after == t
  {
    LedgerHolds(t);
    PaymentStep(t, o);
    MarkingPaid(t, o);
  }

  /** Any other payment status is only noted, and only on an order that is neither paid nor cancelled: awaiting
      payment unless it was already, failed unless it already had. Refunds are not set here. */
  lemma {:induction false} PaymentIsNoted(t: Tables, o: nat, target: Payment)
    requires o < |t.orders| && target != Paid
    ensures var order, after := t.orders[o], Next(t, SetPayment(o, target));
      after ==
        if && order.fulfillment != Cancelled && NotYetPaid(order)
           && (target == AwaitingPayment || (target == PaymentFailed && order.payment != PaymentFailed))
        then t.(orders := t.orders[o := order.(payment := target)])
        else t
  {
    assert t.orders[o := t.orders[o]] == t.orders;
  }

  /** A payment that is refused names its reason, stock first. */
  lemma {:induction false} RefusedPaymentsNameTheReason(t: Tables, o: nat)
    requires Ledger(t.room) && o < |t.orders| && NotYetPaid(t.orders[o]) && t.orders[o].fulfillment != Cancelled
    ensures var outcome := UpdatePayment(t, o, Paid);
      && (outcome == Err(StockReservationLost) <==> !NothingLost(t.room.reservations, o))
      && (outcome == Err(CannotConsume) <==> NothingLost(t.room.reservations, o) && !OnHandFor(t.room, o))
      && (outcome == Err(NoPendingReceipt) <==>
            NothingLost(t.room.reservations, o) && OnHandFor(t.room, o) && t.orders[o].payload.payBy == InstaPay && !UnderReview(t, o))
  {
    assert UpdatePayment(t, o, Paid) == MarkPaid(t, o);
    MarkingPaid(t, o);
  }
}

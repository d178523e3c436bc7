/** Stock and orders agree in every reachable state: counters are backed by rows, a committed order
    keeps its stock, and payment is what consumes it. */
module ShopStock {
  import opened Options
  import opened Stockroom
  import opened Shop
  import opened ShopHistory
  import OrderLines

  /** Statuses in which staff have committed to the order. */
  predicate IsCommitted(f: Fulfillment) { f == Confirmed || f == Preparing || f == Shipped || f == Delivered }

  predicate WasPaid(p: Payment) { p == Paid || p == PartiallyRefunded || p == Refunded }

  /** What an order's statuses say about each of its reservations. */
  ghost predicate RowFits(order: Order, r: Reservation) {
    && (order.fulfillment == Cancelled ==> !r.status.Active?)
    && (IsCommitted(order.fulfillment) ==> r.status.Consumed? || (r.status.Active? && r.expiresAt.None?))
    && (WasPaid(order.payment) <==> r.status.Consumed?)
  }

  ghost predicate RowsFit(orders: seq<Order>, reservations: seq<Reservation>) {
    forall i :: 0 <= i < |reservations| ==>
      reservations[i].orderId < |orders| && RowFits(orders[reservations[i].orderId], reservations[i])
  }

  ghost predicate StockInv(t: Tables) { Ledger(t.room) && RowsFit(t.orders, t.room.reservations) }

  /** An order row changed, its statuses aside from `o` did not. */
  lemma {:induction false} SameStatusesFit(orders: seq<Order>, o: nat, order: Order, reservations: seq<Reservation>)
    requires RowsFit(orders, reservations) && o < |orders|
    requires order.fulfillment == orders[o].fulfillment || (IsCommitted(order.fulfillment) && IsCommitted(orders[o].fulfillment))
    requires WasPaid(order.payment) <==> WasPaid(orders[o].payment)
    ensures RowsFit(orders[o := order], reservations)
  {
  }

  lemma {:induction false} AllStand(reservations: seq<Reservation>, o: nat)
    requires PositiveQuantities(reservations) && !CommitmentLost(reservations, o)
    ensures forall i :: 0 <= i < |reservations| && reservations[i].orderId == o ==> Standing(reservations[i])
  {
    CoverageIsPerReservation(reservations, o);
  }

  lemma {:induction false} ConfirmKeepsStock(t: Tables, o: nat)
    requires StockInv(t) && o < |t.orders| && t.orders[o].fulfillment == Pending && !CommitmentLost(t.room.reservations, o)
    ensures StockInv(Commit(t, UpdateFulfillment(t, o, Confirmed)))
  {
    PinKeepsLedger(t.room, o);
    AllStand(t.room.reservations, o);
  }

  lemma {:induction false} GivenUpRowsFit(orders: seq<Order>, o: nat, order: Order, before: seq<Reservation>, after: seq<Reservation>,
                                          ids: seq<nat>, status: ReservationStatus)
    requires RowsFit(orders, before) && o < |orders| && (status.Released? || status.Expired?)
    requires order.fulfillment == Cancelled && order.payment == orders[o].payment
    requires Restated(before, after, ids, status)
    requires forall i: nat :: i < |before| ==> (i in ids <==> ActiveFor(before[i], o))
    ensures RowsFit(orders[o := order], after)
  {
    forall i: nat | i < |after| ensures after[i].orderId < |orders| && RowFits(orders[o := order][after[i].orderId], after[i]) {
      assert RowFits(orders[before[i].orderId], before[i]);
      assert i in ids <==> ActiveFor(before[i], o);
    }
  }

  /** Releasing an order's active rows makes it safe to call it cancelled. */
  lemma {:induction false} ReleasedRowsFit(t: Tables, o: nat, status: ReservationStatus, order: Order)
    requires StockInv(t) && o < |t.orders| && (status.Released? || status.Expired?)
    requires order.fulfillment == Cancelled && order.payment == t.orders[o].payment
    ensures var room := ReleaseAll(t.room, ActiveIds(t.room.reservations, o), status);
            Ledger(room) && RowsFit(t.orders[o := order], room.reservations)
  {
    ReleaseAllKeepsLedger(t.room, ActiveIds(t.room.reservations, o), status);
    ReleaseAllRestates(t.room, ActiveIds(t.room.reservations, o), status);
    GivenUpRowsFit(t.orders, o, order, t.room.reservations,
                   ReleaseAll(t.room, ActiveIds(t.room.reservations, o), status).reservations,
                   ActiveIds(t.room.reservations, o), status);
  }

  lemma {:induction false} PaidRowsFit(t: Tables, o: nat)
    requires StockInv(t) && o < |t.orders| && !CommitmentLost(t.room.reservations, o) && t.orders[o].fulfillment != Cancelled
    ensures var room := ConsumeAll(t.room, ActiveIds(t.room.reservations, o));
            room.Some? ==> Ledger(room.value) && RowsFit(t.orders[o := t.orders[o].(payment := Paid)], room.value.reservations)
  {
    ConsumeAllKeepsLedger(t.room, ActiveIds(t.room.reservations, o));
    ConsumeAllRestates(t.room, ActiveIds(t.room.reservations, o));
    AllStand(t.room.reservations, o);
  }

  lemma {:induction false} FulfillmentKeepsStock(t: Tables, o: nat, target: Fulfillment)
    requires StockInv(t)
    ensures StockInv(Commit(t, UpdateFulfillment(t, o, target)))
  {
    if o < |t.orders| && MayFulfil(t.orders[o].fulfillment, target) {
      var order := t.orders[o];
      if target == Confirmed {
        if !CommitmentLost(t.room.reservations, o) {
          ConfirmKeepsStock(t, o);
        }
      } else if target == Cancelled {
        ReleasedRowsFit(t, o, Stockroom.Released, CancelByStaff(t, o).orders[o]);
      } else {
        SameStatusesFit(t.orders, o, order.(fulfillment := target), t.room.reservations);
      }
    }
  }

  lemma {:induction false} PaymentKeepsStock(t: Tables, o: nat, target: Payment)
    requires StockInv(t)
    ensures StockInv(Commit(t, UpdatePayment(t, o, target)))
  {
    if o < |t.orders| && t.orders[o].fulfillment != Cancelled && MayPay(t.orders[o].payment, target) {
      if target == Paid {
        if !CommitmentLost(t.room.reservations, o) {
          PaidRowsFit(t, o);
        }
      } else if NeverPaid(target) {
        SameStatusesFit(t.orders, o, t.orders[o].(payment := target), t.room.reservations);
      }
    }
  }

  lemma {:induction false} RefundKeepsStock(t: Tables, o: nat, amount: int, sameCurrency: bool, key: string)
    requires StockInv(t)
    ensures StockInv(Commit(t, RecordRefund(t, o, amount, sameCurrency, key)))
  {
    if RecordRefund(t, o, amount, sameCurrency, key).Ok? && o < |t.orders| {
      var after := Commit(t, RecordRefund(t, o, amount, sameCurrency, key));
      if after != t {
        SameStatusesFit(t.orders, o, after.orders[o], t.room.reservations);
      }
    }
  }

  lemma {:induction false} ExpiryKeepsStock(t: Tables, o: nat)
    requires StockInv(t)
    ensures StockInv(CancelDueToExpiry(t, o))
  {
    if o < |t.orders| && t.orders[o].fulfillment == Pending && t.orders[o].payment == Unpaid {
      ReleasedRowsFit(t, o, Stockroom.Expired, CancelDueToExpiry(t, o).orders[o]);
    }
  }

  lemma {:induction false} ReleaseExpiredKeepsStock(t: Tables, id: nat)
    requires StockInv(t)
    ensures StockInv(t.(room := ReleaseIfStillExpired(t.room, id, t.now)))
  {
    ReleaseKeepsLedger(t.room, id, Stockroom.Expired);
    if StillExpired(t.room, id, t.now) {
      assert RowFits(t.orders[t.room.reservations[id].orderId], t.room.reservations[id]);
    }
  }

  lemma {:induction false} AddedRowsFit(orders: seq<Order>, order: Order, before: Room, after: Room, demand: seq<StockLine>, expiresAt: Option<int>)
    requires RowsFit(orders, before.reservations) && Reserved(before, after, demand, |orders|, expiresAt)
    requires order.fulfillment == Pending && order.payment == Unpaid
    ensures RowsFit(orders + [order], after.reservations)
  {
    var n := |before.reservations|;
    forall i | 0 <= i < |after.reservations|
      ensures after.reservations[i].orderId < |orders| + 1
      ensures RowFits((orders + [order])[after.reservations[i].orderId], after.reservations[i])
    {
      if i < n {
        assert after.reservations[i] == after.reservations[..n][i] == before.reservations[i];
      } else {
        assert after.reservations[n + (i - n)]
            == Reservation(demand[i - n].stockItemId, |orders|, demand[i - n].quantity, Stockroom.Active, expiresAt);
      }
    }
  }

  lemma {:induction false} NewRowsFit(t: Tables, demand: seq<StockLine>, expiresAt: Option<int>, order: Order)
    requires StockInv(t) && AllPositive(demand) && order.fulfillment == Pending && order.payment == Unpaid
    ensures var room := ReserveAll(t.room, demand, |t.orders|, expiresAt);
            room.Some? ==> Ledger(room.value) && RowsFit(t.orders + [order], room.value.reservations)
  {
    ReserveAllKeepsLedger(t.room, demand, |t.orders|, expiresAt);
    ReserveAllAddsRows(t.room, demand, |t.orders|, expiresAt);
    var room := ReserveAll(t.room, demand, |t.orders|, expiresAt);
    if room.Some? {
      AddedRowsFit(t.orders, order, t.room, room.value, demand, expiresAt);
    }
  }

  lemma {:induction false} RequestKeepsStock(t: Tables, r: nat, placement: OrderLines.Placement)
    requires StockInv(t) && r < |t.requests| && (placement.Placed? ==> OrderLines.Orderable(placement.order))
    ensures StockInv(Proceed(t, r, placement))
  {
    RequestOutcome(t, r, placement);
    if CommitsOrder(t, r, placement) {
      var q := t.requests[r];
      AggregateKeepsDemand(placement.order.stockLines, "");
      NewRowsFit(t, Aggregate(placement.order.stockLines), DeadlineAt(t.now, q.ttl), NewOrder(q, q.phase.deadline, placement.order));
    }
  }

  /** The warehouse's own steps, and those that touch neither stock nor orders. */
  lemma {:induction false} WarehouseStepKeepsStock(t: Tables, step: Step)
    requires StockInv(t)
    requires !step.RequestStep? && !step.SetFulfillment? && !step.SetPayment? && !step.Refund? && !step.CancelExpired?
    ensures StockInv(Next(t, step))
  {
    if step.CreateItem? {
      CreateKeepsLedger(t.room, step.stockItemId, step.opening);
    } else if step.AdjustStock? {
      AdjustKeepsLedger(t.room, step.adjusted, step.delta);
    } else if step.ReleaseExpired? {
      ReleaseExpiredKeepsStock(t, step.reservation);
    } else {
      assert Next(t, step).room == t.room && Next(t, step).orders == t.orders;
    }
  }

  lemma {:induction false} StepKeepsStock(t: Tables, step: Step)
    requires StockInv(t) && Sensible(step)
    ensures StockInv(Next(t, step))
  {
    if step.RequestStep? {
      if step.r < |t.requests| {
        SensiblePricing(t, step);
        RequestKeepsStock(t, step.r, Priced(t, step.r, step.price));
      }
    } else if step.SetFulfillment? {
      FulfillmentKeepsStock(t, step.fulfilled, step.fulfillment);
    } else if step.SetPayment? {
      PaymentKeepsStock(t, step.paid, step.payment);
    } else if step.Refund? {
      RefundKeepsStock(t, step.refunded, step.amount, step.sameCurrency, step.refundKey);
    } else if step.CancelExpired? {
      ExpiryKeepsStock(t, step.candidate);
    } else {
      WarehouseStepKeepsStock(t, step);
    }
  }
}

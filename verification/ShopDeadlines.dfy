/** Deadlines of orders and of their reservations come from two clock reads; in every reachable state the
    reservation is the later one. */
module ShopDeadlines {
  import opened Options
  import opened Stockroom
  import opened Shop
  import opened ShopHistory
  import OrderLines

  /** The reservation expires no earlier than its order's own deadline. */
  ghost predicate Outlives(order: Order, r: Reservation) {
    r.expiresAt.Some? ==> order.deadline.Some? && order.deadline.value <= r.expiresAt.value
  }

  /** An admitted request's deadline lies at most its time to live ahead. */
  ghost predicate DeadlineFits(q: Request, now: int) {
    q.phase.Admitted? ==>
      if q.ttl.Some? then q.phase.deadline.Some? && q.phase.deadline.value <= now + q.ttl.value else q.phase.deadline.None?
  }

  ghost predicate RowsOutlive(orders: seq<Order>, reservations: seq<Reservation>) {
    forall i :: 0 <= i < |reservations| ==>
      reservations[i].orderId < |orders| && Outlives(orders[reservations[i].orderId], reservations[i])
  }

  ghost predicate DeadlineInv(t: Tables) {
    && RowsOutlive(t.orders, t.room.reservations)
    && forall r :: 0 <= r < |t.requests| ==> DeadlineFits(t.requests[r], t.now)
  }

  /** The rows are the same, and none expires that did not, or at another time. */
  ghost predicate SameExpiry(before: seq<Reservation>, after: seq<Reservation>) {
    && |after| == |before|
    && forall i :: 0 <= i < |before| ==>
         after[i].orderId == before[i].orderId && (after[i].expiresAt == before[i].expiresAt || after[i].expiresAt.None?)
  }

  lemma {:induction false} RowsStillOutlive(orders: seq<Order>, later: seq<Order>, before: seq<Reservation>, after: seq<Reservation>)
    requires RowsOutlive(orders, before) && OrdersAdvance(orders, later) && SameExpiry(before, after)
    ensures RowsOutlive(later, after)
  {
    forall i | 0 <= i < |after| ensures after[i].orderId < |later| && Outlives(later[after[i].orderId], after[i]) {
      assert Outlives(orders[before[i].orderId], before[i]);
      assert Advances(orders[before[i].orderId], later[before[i].orderId]);
    }
  }

  lemma {:induction false} FulfillmentKeepsExpiry(t: Tables, o: nat, target: Fulfillment)
    ensures SameExpiry(t.room.reservations, Commit(t, UpdateFulfillment(t, o, target)).room.reservations)
  {
    ReleaseAllRestates(t.room, ActiveIds(t.room.reservations, o), Stockroom.Released);
  }

  lemma {:induction false} PaymentKeepsExpiry(t: Tables, o: nat, target: Payment)
    ensures SameExpiry(t.room.reservations, Commit(t, UpdatePayment(t, o, target)).room.reservations)
  {
    ConsumeAllRestates(t.room, ActiveIds(t.room.reservations, o));
  }

  lemma {:induction false} CancelKeepsExpiry(t: Tables, o: nat)
    ensures SameExpiry(t.room.reservations, CancelDueToExpiry(t, o).room.reservations)
  {
    ReleaseAllRestates(t.room, ActiveIds(t.room.reservations, o), Stockroom.Expired);
  }

  lemma {:induction false} QuietKeepsExpiry(t: Tables, step: Step)
    requires !step.RequestStep?
    ensures SameExpiry(t.room.reservations, Next(t, step).room.reservations)
  {
    if step.SetFulfillment? {
      FulfillmentKeepsExpiry(t, step.fulfilled, step.fulfillment);
    } else if step.SetPayment? {
      PaymentKeepsExpiry(t, step.paid, step.payment);
    } else if step.CancelExpired? {
      CancelKeepsExpiry(t, step.candidate);
    }
  }

  lemma {:induction false} NewRowsOutlive(orders: seq<Order>, order: Order, before: Room, after: Room, demand: seq<StockLine>, expiresAt: Option<int>)
    requires RowsOutlive(orders, before.reservations) && Reserved(before, after, demand, |orders|, expiresAt)
    requires expiresAt.Some? ==> order.deadline.Some? && order.deadline.value <= expiresAt.value
    ensures RowsOutlive(orders + [order], after.reservations)
  {
    var n := |before.reservations|;
    forall i | 0 <= i < |after.reservations|
      ensures after.reservations[i].orderId < |orders| + 1
      ensures Outlives((orders + [order])[after.reservations[i].orderId], after.reservations[i])
    {
      if i < n {
        assert after.reservations[i] == after.reservations[..n][i] == before.reservations[i];
      } else {
        assert after.reservations[n + (i - n)]
            == Reservation(demand[i - n].stockItemId, |orders|, demand[i - n].quantity, Stockroom.Active, expiresAt);
      }
    }
  }

  lemma {:induction false} CallKeepsDeadlines(t: Tables, r: nat, placement: OrderLines.Placement)
    requires DeadlineInv(t) && r < |t.requests|
    ensures DeadlineInv(Proceed(t, r, placement))
  {
    var q := t.requests[r];
    assert DeadlineFits(q, t.now);
    RequestOutcome(t, r, placement);
    if CommitsOrder(t, r, placement) {
      var demand := Aggregate(placement.order.stockLines);
      ReserveAllAddsRows(t.room, demand, |t.orders|, DeadlineAt(t.now, q.ttl));
      NewRowsOutlive(t.orders, NewOrder(q, q.phase.deadline, placement.order), t.room, ReservedRoom(t, q, placement.order).value,
                     demand, DeadlineAt(t.now, q.ttl));
    } else {
      PhaseDeadline(t, r, placement);
    }
  }

  lemma {:induction false} TransactAnswers(t: Tables, r: nat, placement: OrderLines.Placement)
    requires r < |t.requests| && t.requests[r].phase.Admitted?
    ensures !Transact(t, r, placement).requests[r].phase.Admitted?
  {
    TransactOutcome(t, r, placement);
    if !CommitsOrder(t, r, placement) {
      RefusalAnswers(t, r, placement);
    }
  }

  lemma {:induction false} RefusalAnswers(t: Tables, r: nat, placement: OrderLines.Placement)
    requires r < |t.requests| && t.requests[r].phase.Admitted? && !CommitsOrder(t, r, placement)
    ensures !Transact(t, r, placement).requests[r].phase.Admitted?
  {
    var q := t.requests[r];
    if q.cartId !in t.carts || t.carts[q.cartId] != Shop.Active {
      assert !ClaimLost(t, q).Admitted?;
    } else if placement.Placed? && CouponFree(t, placement.order.couponId) && OrderOfKey(t.orders, q.key) == |t.orders| && CanAttach(t, q) {
      assert ReservedRoom(t, q, placement.order).None?;
    }
  }

  lemma {:induction false} PhaseDeadline(t: Tables, r: nat, placement: OrderLines.Placement)
    requires r < |t.requests|
    ensures DeadlineFits(Proceed(t, r, placement).requests[r], t.now)
  {
    var q := t.requests[r];
    match q.phase {
      case Admitted(_) => TransactAnswers(t, r, placement);
      case Arrived => assert !LookUpKey(t, q).Admitted?;
      case KeyUnknown => assert DeadlineFits(q.(phase := CheckReceipt(t, q)), t.now);
      case _ =>
    }
  }

  lemma {:induction false} TimeOnlyHelps(t: Tables, step: Step)
    requires !step.RequestStep?
    ensures Next(t, step).now >= t.now
  {
    if step.SetFulfillment? {
      FulfillmentTouches(t, step.fulfilled, step.fulfillment);
    } else if step.SetPayment? {
      PaymentTouches(t, step.paid, step.payment);
    }
  }

  lemma {:induction false} StepKeepsDeadlines(t: Tables, step: Step)
    requires DeadlineInv(t) && Sensible(step)
    ensures DeadlineInv(Next(t, step))
  {
    if step.RequestStep? {
      if step.r < |t.requests| {
        CallKeepsDeadlines(t, step.r, Priced(t, step.r, step.price));
      }
    } else {
      var after := Next(t, step);
      StepAdvances(t, step);
      QuietKeepsExpiry(t, step);
      OnlyRequestsAndCarts(t, step);
      TimeOnlyHelps(t, step);
      RowsStillOutlive(t.orders, after.orders, t.room.reservations, after.room.reservations);
      forall r | 0 <= r < |after.requests| ensures DeadlineFits(after.requests[r], after.now) {
        if r < |t.requests| {
          RequestsStay(t, step, r);
          assert DeadlineFits(t.requests[r], t.now);
        }
      }
    }
  }
}

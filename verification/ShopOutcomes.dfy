/** What staff actions and sweeps leave behind in every reachable state, table by table: cancelling gives up
    exactly the order's stock and its coupon use, and overdue orders are cancelled
    (src/modules/orders/orders.service.ts). */
module ShopOutcomes {
  import opened Options
  import opened Sums
  import opened Stockroom
  import opened Shop
  import opened ShopCoupons
  import opened ShopRuns
  import opened ShopOrders

  // ------------------------------------------------------------ giving up an order's stock

  /** Units of this stock item that the order holds. */
  function HeldFor(o: nat, id: string): Reservation -> int {
    (r: Reservation) => if r.orderId == o && r.stockItemId == id && r.status == Stockroom.Active then r.quantity else 0
  }

  /** The order's active rows got the status; nothing else changed. */
  ghost predicate RowsGivenUp(before: seq<Reservation>, after: seq<Reservation>, o: nat, status: ReservationStatus) {
    && |after| == |before|
    && forall i :: 0 <= i < |before| ==>
         after[i] == if before[i].orderId == o && before[i].status == Stockroom.Active then before[i].(status := status) else before[i]
  }

  /** Each item's counter fell by exactly what the order held of it. */
  ghost predicate HoldsGivenUp(before: Room, after: Room, o: nat) {
    && after.stock.Keys == before.stock.Keys
    && forall id :: id in before.stock ==>
         after.stock[id] == before.stock[id].(reserved := before.stock[id].reserved - SumBy(before.reservations, HeldFor(o, id)))
  }

  lemma {:induction false} HeldSplits(before: seq<Reservation>, after: seq<Reservation>, o: nat, status: ReservationStatus, id: string)
    requires RowsGivenUp(before, after, o, status) && status != Stockroom.Active
    ensures SumBy(before, HeldOn(id)) == SumBy(after, HeldOn(id)) + SumBy(before, HeldFor(o, id))
  {
    if before != [] {
      assert forall i :: 0 <= i < |before[1..]| ==> before[1..][i] == before[i + 1] && after[1..][i] == after[i + 1];
      HeldSplits(before[1..], after[1..], o, status, id);
    }
  }

  lemma {:induction false} ReleaseKeepsItems(room: Room, ids: seq<nat>, status: ReservationStatus, id: string)
    requires id in room.stock
    ensures var after := ReleaseAll(room, ids, status);
      id in after.stock && after.stock[id] == room.stock[id].(reserved := after.stock[id].reserved)
    decreases |ids|
  {
    if ids != [] {
      ReleaseKeepsItems(Release(room, ids[0], status), ids[1..], status, id);
    }
  }

  lemma {:induction false} ReleasingGivesUp(room: Room, o: nat, status: ReservationStatus)
    requires Ledger(room) && status != Stockroom.Active
    ensures var after := ReleaseAll(room, ActiveIds(room.reservations, o), status);
      StockGivenUp(room, after, o, status)
  {
    var ids := ActiveIds(room.reservations, o);
    var after := ReleaseAll(room, ids, status);
    ReleaseAllRestates(room, ids, status);
    ReleaseAllKeepsLedger(room, ids, status);
    forall i: nat | i < |room.reservations|
      ensures after.reservations[i] == if ActiveFor(room.reservations[i], o) then room.reservations[i].(status := status) else room.reservations[i]
    {
      assert i in ids <==> ActiveFor(room.reservations[i], o);
    }
    forall id | id in room.stock
      ensures after.stock[id] == room.stock[id].(reserved := room.stock[id].reserved - SumBy(room.reservations, HeldFor(o, id)))
    {
      ReleaseKeepsItems(room, ids, status, id);
      assert Accounted(room, id) && Accounted(after, id);
      HeldSplits(room.reservations, after.reservations, o, status, id);
    }
  }

  // ------------------------------------------------------------ cancelling

  predicate NotYetPaid(order: Order) {
    order.payment == Unpaid || order.payment == AwaitingPayment || order.payment == PaymentFailed
  }

  /** A coupon use that is given back lowers the coupon's count by one, never below the count it started with. */
  ghost predicate UseReturned(before: map<string, Coupon>, after: map<string, Coupon>, couponId: Option<string>) {
    if couponId.None? then after == before
    else
      var id := couponId.value;
      && id in before && before[id].used > before[id].start >= 0
      && after == before[id := before[id].(used := before[id].used - 1)]
  }

  /** The use a cancelled order gives back: that of its coupon, if it was never paid. */
  function ReturnedBy(order: Order): Option<string> { if NotYetPaid(order) then order.couponId else None }

  ghost predicate StockGivenUp(before: Room, after: Room, o: nat, status: ReservationStatus) {
    && RowsGivenUp(before.reservations, after.reservations, o, status)
    && HoldsGivenUp(before, after, o)
    && after.movements == before.movements
  }

  /** Cancelling order `o` did exactly this: the order is cancelled, its active rows have the status and its holds
      are gone; a coupon it used gets that use back, if the order was never paid. */
  ghost predicate CancelledAs(before: Tables, after: Tables, o: nat, status: ReservationStatus)
    requires o < |before.orders|
  {
    var order := before.orders[o];
    && after == before.(orders := after.orders, room := after.room, coupons := after.coupons)
    && after.orders == before.orders[o := order.(fulfillment := Cancelled, couponReleased := ReturnedBy(order).Some?)]
    && StockGivenUp(before.room, after.room, o, status)
    && UseReturned(before.coupons, after.coupons, ReturnedBy(order))
  }

  /** An order that is not cancelled yet still holds its coupon, so the use can be given back. */
  lemma {:induction false} UseCanBeReturned(t: Tables, o: nat)
    requires CouponInv(t) && o < |t.orders| && t.orders[o].fulfillment != Cancelled
    ensures !t.orders[o].couponReleased && UseReturned(t.coupons, GiveCouponBack(t.coupons, t.orders[o].couponId), t.orders[o].couponId)
  {
    assert ReleasedRightly(t.orders[o]);
    if t.orders[o].couponId.Some? {
      ClampNeverBites(t, o);
    }
  }

  predicate BeforeShipping(order: Order) {
    order.fulfillment == Pending || order.fulfillment == Confirmed || order.fulfillment == Preparing
  }

  lemma {:induction false} StaffCancelStep(t: Tables, o: nat)
    ensures Next(t, SetFulfillment(o, Cancelled)) == if o < |t.orders| && BeforeShipping(t.orders[o]) then CancelByStaff(t, o) else t
  {
  }

  lemma {:induction false} StaffCancelReturnsUse(t: Tables, o: nat)
    requires CouponInv(t) && o < |t.orders| && t.orders[o].fulfillment != Cancelled
    ensures var order, after := t.orders[o], CancelByStaff(t, o);
      && after == t.(orders := after.orders, room := after.room, coupons := after.coupons)
      && after.orders == t.orders[o := order.(fulfillment := Cancelled, couponReleased := ReturnedBy(order).Some?)]
      && UseReturned(t.coupons, after.coupons, ReturnedBy(order))
  {
    UseCanBeReturned(t, o);
  }

  /** Staff can cancel every order before it is shipped, paid or not; any other order stays as it is. */
  lemma {:induction false} StaffCancels(t: Tables, o: nat)
    requires Reachable(t)
    ensures var after := Next(t, SetFulfillment(o, Cancelled));
      if o < |t.orders| && BeforeShipping(t.orders[o]) then CancelledAs(t, after, o, Stockroom.Released) else after == t
  {
    StaffCancelStep(t, o);
    if o < |t.orders| && BeforeShipping(t.orders[o]) {
      StockAndCoupons(t);
      StaffCancelReturnsUse(t, o);
      ReleasingGivesUp(t.room, o, Stockroom.Released);
    }
  }

  lemma {:induction false} StockAndCoupons(t: Tables)
    requires Reachable(t)
    ensures Ledger(t.room) && CouponInv(t)
  {
    ReachableInv(t);
  }

  // ------------------------------------------------------------ the expiry sweep

  /** Pending and unpaid. */
  predicate Awaited(order: Order) { order.fulfillment == Pending && order.payment == Unpaid }

  lemma {:induction false} OverdueIsCandidate(orders: seq<Order>, now: int, o: nat)
    requires o < |orders| && Awaited(orders[o])
    requires orders[o].deadline.Some? && orders[o].deadline.value < now
    ensures o in Candidates(orders, now)
  {
    if o < |orders| - 1 {
      OverdueIsCandidate(orders[..|orders| - 1], now, o);
    }
  }

  lemma {:induction false} CandidatesStay(t: Tables, steps: seq<Step>, o: nat)
    requires o in t.expiring
    ensures o in Run(t, steps).expiring
    decreases |steps|
  {
    if steps != [] {
      ClockAndCandidates(t, steps[0]);
      CandidatesStay(Next(t, steps[0]), steps[1..], o);
    }
  }

  lemma {:induction false} RunIsReachable(t: Tables, steps: seq<Step>)
    requires Reachable(t) && AllSensible(steps)
    ensures Reachable(Run(t, steps))
    decreases |steps|
  {
    if steps != [] {
      LaterSteps(steps);
      StepStaysReachable(t, steps[0]);
      RunIsReachable(Next(t, steps[0]), steps[1..]);
    }
  }

  lemma {:induction false} ExpiryStep(t: Tables, o: nat)
    requires o in t.expiring && o < |t.orders|
    ensures Next(t, CancelExpired(o)) == CancelDueToExpiry(t, o)
    ensures !Awaited(t.orders[o]) ==> Next(t, CancelExpired(o)) == t
  {
  }

  lemma {:induction false} ExpiryReturnsUse(t: Tables, o: nat)
    requires CouponInv(t) && o < |t.orders| && Awaited(t.orders[o])
    ensures var order, after := t.orders[o], CancelDueToExpiry(t, o);
      && after == t.(orders := after.orders, room := after.room, coupons := after.coupons)
      && after.orders == t.orders[o := order.(fulfillment := Cancelled, couponReleased := ReturnedBy(order).Some?)]
      && UseReturned(t.coupons, after.coupons, ReturnedBy(order))
  {
    UseCanBeReturned(t, o);
  }

  /** Cancelling a selected order: it is cancelled if it is still pending and unpaid, and left alone otherwise. */
  lemma {:induction false} SelectedIsCancelled(t: Tables, o: nat)
    requires Reachable(t) && o in t.expiring && o < |t.orders|
    ensures var after := Next(t, CancelExpired(o));
      if Awaited(t.orders[o]) then CancelledAs(t, after, o, Stockroom.Expired) else after == t
  {
    ExpiryStep(t, o);
    if Awaited(t.orders[o]) {
      StockAndCoupons(t);
      ExpiryReturnsUse(t, o);
      ReleasingGivesUp(t.room, o, Stockroom.Expired);
    }
  }

  /** A sweep finds every overdue order. Whatever runs between its selection and its cancellation, an order that was
      pending, unpaid and past its deadline at the selection is cancelled if it is still pending and unpaid, with
      all that belongs to it, and untouched if it was paid, confirmed or cancelled in between. */
  lemma {:induction false} SweepCancelsOverdue(t: Tables, between: seq<Step>, o: nat)
    requires Reachable(t) && AllSensible(between) && o < |t.orders|
    requires Awaited(t.orders[o])
    requires t.orders[o].deadline.Some? && t.orders[o].deadline.value < t.now
    ensures var later := Run(Next(t, SelectExpired), between);
            var after := Next(later, CancelExpired(o));
      && o < |later.orders|
      && if Awaited(later.orders[o])
         then CancelledAs(later, after, o, Stockroom.Expired)
         else after == later
  {
    OverdueIsCandidate(t.orders, t.now, o);
    StepStaysReachable(t, SelectExpired);
    var selected := Next(t, SelectExpired);
    RunIsReachable(selected, between);
    CandidatesStay(selected, between, o);
    OrdersOnlyMoveForward(selected, between, o);
    SelectedIsCancelled(Run(selected, between), o);
  }

  /** With nothing in between: one sweep cancels an overdue order, expires its active rows, lowers each counter by
      exactly what it held, and gives its coupon use back. */
  lemma {:induction false} OverdueIsSwept(t: Tables, o: nat)
    requires Reachable(t) && o < |t.orders|
    requires Awaited(t.orders[o])
    requires t.orders[o].deadline.Some? && t.orders[o].deadline.value < t.now
    ensures var after := Run(t, [SelectExpired] + [CancelExpired(o)]);
      CancelledAs(t.(expiring := after.expiring), after, o, Stockroom.Expired)
  {
    SweepCancelsOverdue(t, [], o);
    RunStep(t, SelectExpired, [CancelExpired(o)]);
    assert [CancelExpired(o)][1..] == [];
  }
}

/** The whole protocol: one invariant over every reachable state, and what holds along every run. */
module ShopRuns {
  import opened Sums
  import opened Stockroom
  import opened Shop
  import opened ShopHistory
  import opened ShopStock
  import opened ShopCoupons
  import opened ShopCheckout
  import opened ShopPayments
  import opened ShopDeadlines
  import OrderLines

  /** A sweep's candidates stay overdue: deadlines never change and the clock never goes back. */
  ghost predicate OverdueInv(t: Tables) {
    forall i :: 0 <= i < |t.expiring| ==>
      && t.expiring[i] < |t.orders|
      && t.orders[t.expiring[i]].deadline.Some? && t.orders[t.expiring[i]].deadline.value < t.now
  }

  ghost predicate Inv(t: Tables) {
    && StockInv(t) && CouponInv(t) && CheckoutInv(t) && ProofInv(t) && RefundInv(t) && ReturnInv(t) && OverdueInv(t)
    && DeadlineInv(t)
  }

  lemma {:induction false} ClockAndCandidates(t: Tables, step: Step)
    ensures Next(t, step).now >= t.now
    ensures Next(t, step).expiring == if step == SelectExpired then t.expiring + Candidates(t.orders, t.now) else t.expiring
  {
    if step.RequestStep? {
      if step.r < |t.requests| {
        RequestOutcome(t, step.r, Priced(t, step.r, step.price));
      }
    }
  }

  lemma {:induction false} StepKeepsOverdue(t: Tables, step: Step)
    requires OverdueInv(t)
    ensures OverdueInv(Next(t, step))
  {
    var after := Next(t, step);
    ClockAndCandidates(t, step);
    StepAdvances(t, step);
    forall i | 0 <= i < |after.expiring|
      ensures after.expiring[i] < |after.orders|
      ensures after.orders[after.expiring[i]].deadline.Some? && after.orders[after.expiring[i]].deadline.value < after.now
    {
      if i >= |t.expiring| {
        assert after.expiring[i] in Candidates(t.orders, t.now);
      }
      assert Advances(t.orders[after.expiring[i]], after.orders[after.expiring[i]]);
    }
  }

  /** Every committed transaction keeps the invariant, whatever it interleaves with. */
  lemma {:induction false} StepKeepsInv(t: Tables, step: Step)
    requires Inv(t) && Sensible(step)
    ensures Inv(Next(t, step))
  {
    StepKeepsStock(t, step);
    StepKeepsCoupons(t, step);
    StepKeepsCheckout(t, step);
    StepKeepsProof(t, step);
    StepKeepsRefunds(t, step);
    StepKeepsReturns(t, step);
    StepKeepsOverdue(t, step);
    StepKeepsDeadlines(t, step);
  }

  lemma {:induction false} LaterSteps(steps: seq<Step>)
    requires AllSensible(steps) && steps != []
    ensures Sensible(steps[0]) && AllSensible(steps[1..])
  {
    assert forall i :: 0 <= i < |steps[1..]| ==> steps[1..][i] == steps[i + 1];
  }

  lemma {:induction false} RunKeepsInv(t: Tables, steps: seq<Step>)
    requires Inv(t) && AllSensible(steps)
    ensures Inv(Run(t, steps))
    decreases |steps|
  {
    if steps != [] {
      LaterSteps(steps);
      StepKeepsInv(t, steps[0]);
      RunKeepsInv(Next(t, steps[0]), steps[1..]);
    }
  }

  lemma {:induction false} EmptyTables(t: Tables)
    requires t.room.stock == map[] && t.room.reservations == [] && t.room.movements == [] && t.orders == [] && t.coupons == map[]
    requires t.carts == map[] && t.receipts == map[] && t.refunds == [] && t.itemReturns == [] && t.requests == [] && t.expiring == []
    ensures Inv(t) && Backed(t.room)
  {
    assert StockInv(t) && CouponInv(t) && CheckoutInv(t);
    assert ProofInv(t) && RefundInv(t) && ReturnInv(t);
  }

  /** The tables after some run from the empty ones. */
  ghost predicate Reachable(t: Tables) {
    exists steps :: AllSensible(steps) && t == Run(EMPTY, steps)
  }

  lemma {:induction false} ReachableInv(t: Tables)
    requires Reachable(t)
    ensures Inv(t)
  {
    var steps :| AllSensible(steps) && t == Run(EMPTY, steps);
    EmptyTables(EMPTY);
    RunKeepsInv(EMPTY, steps);
  }

  // ------------------------------------------------------------ reachable states

  /** Stock: every counter equals the rows behind it, and every active reservation can be released in
      full, so the guarded decrement is never skipped. */
  lemma {:induction false} CountersMatchRows(t: Tables, id: string, r: nat)
    requires Reachable(t)
    ensures var room := t.room;
      && (id in room.stock ==>
            && room.stock[id].reserved == SumBy(room.reservations, HeldOn(id))
            && room.stock[id].onHand == room.stock[id].opening + SumBy(room.movements, MovedOn(id)) >= 0)
      && (IsActive(room, r) ==>
            var row := room.reservations[r];
            && row.stockItemId in room.stock
            && GiveBack(room.stock, row)[row.stockItemId].reserved == room.stock[row.stockItemId].reserved - row.quantity)
  {
    ReachableInv(t);
    var room := t.room;
    if id in room.stock {
      assert Accounted(room, id);
    }
    if IsActive(room, r) {
      ActiveIsHeld(room, r);
    }
  }

  /** A committed order never loses stock, a cancelled one holds none, and exactly the orders that were
      ever paid have consumed theirs. */
  lemma {:induction false} OrdersKeepTheirStock(t: Tables, r: nat)
    requires Reachable(t) && r < |t.room.reservations|
    ensures var row := t.room.reservations[r];
      && row.orderId < |t.orders|
      && (IsCommitted(t.orders[row.orderId].fulfillment) ==> row.status.Consumed? || (row.status.Active? && row.expiresAt.None?))
      && (t.orders[row.orderId].fulfillment == Cancelled ==> !row.status.Active?)
      && (WasPaid(t.orders[row.orderId].payment) <==> row.status.Consumed?)
  {
    ReachableInv(t);
    assert RowFits(t.orders[t.room.reservations[r].orderId], t.room.reservations[r]);
  }

  /** However long ago a sweep selected a reservation, releasing it now leaves a committed order's
      stock alone. */
  lemma {:induction false} SweepSparesCommittedOrders(t: Tables, r: nat)
    requires Reachable(t) && r < |t.room.reservations|
    requires var o := t.room.reservations[r].orderId; o < |t.orders| && IsCommitted(t.orders[o].fulfillment)
    ensures Next(t, ReleaseExpired(r)) == t
  {
    OrdersKeepTheirStock(t, r);
  }

  /** Stock is never given up before its order is overdue itself: when a sweep can release a reservation, the
      order is still uncommitted and its own deadline has passed. */
  lemma {:induction false} StockOutlivesDeadline(t: Tables, r: nat)
    requires Reachable(t) && StillExpired(t.room, r, t.now)
    ensures var o := t.room.reservations[r].orderId;
      && o < |t.orders| && t.orders[o].fulfillment == Pending
      && t.orders[o].deadline.Some? && t.orders[o].deadline.value < t.now
  {
    ReachableInv(t);
    var row := t.room.reservations[r];
    assert RowFits(t.orders[row.orderId], row);
    assert Outlives(t.orders[row.orderId], row);
  }

  /** The triage of a reachable order: fully covered exactly when no reservation of it was lost. */
  lemma {:induction false} TriageSeesEveryLoss(t: Tables, o: nat)
    requires Reachable(t)
    ensures var rows := t.room.reservations;
      FullyCovered(rows, o) <==> forall i :: 0 <= i < |rows| && rows[i].orderId == o ==> Standing(rows[i])
  {
    ReachableInv(t);
    CoverageIsPerReservation(t.room.reservations, o);
  }

  /** Coupons: usage is the starting count plus the orders that hold the coupon, within the limit, and
      is given back exactly for orders cancelled without ever being paid. */
  lemma {:induction false} CouponUsageIsOrders(t: Tables, id: string, o: nat)
    requires Reachable(t)
    ensures id in t.coupons ==>
      && t.coupons[id].used == t.coupons[id].start + SumBy(t.orders, Holds(id))
      && (t.coupons[id].limit.Some? ==> t.coupons[id].used <= t.coupons[id].limit.value)
    ensures o < |t.orders| ==>
      (t.orders[o].couponReleased <==>
         t.orders[o].couponId.Some? && t.orders[o].fulfillment == Cancelled && NeverPaid(t.orders[o].payment))
  {
    ReachableInv(t);
    if id in t.coupons {
      assert CouponAccounted(t.orders, id, t.coupons[id]);
    }
    if o < |t.orders| {
      assert ReleasedRightly(t.orders[o]);
    }
  }

  predicate BothDone(t: Tables, r: nat, s: nat) {
    r < |t.requests| && s < |t.requests| && t.requests[r].phase.Done? && t.requests[s].phase.Done?
  }

  /** Checkout: each success is the request's own order, all successes on a cart are one order, and a
      cart is ordered exactly when one order has it. */
  lemma {:induction false} CheckoutIsIdempotent(t: Tables, r: nat, s: nat, cartId: string)
    requires Reachable(t)
    ensures r < |t.requests| && t.requests[r].phase.Done? ==>
      t.requests[r].phase.orderId < |t.orders| && Answers(t.orders[t.requests[r].phase.orderId], t.requests[r])
    ensures BothDone(t, r, s) && t.requests[r].cartId == t.requests[s].cartId ==> t.requests[r].phase == t.requests[s].phase
    ensures cartId in t.carts ==>
      (t.carts[cartId] == Ordered <==> exists o :: 0 <= o < |t.orders| && t.orders[o].cartId == cartId)
    ensures forall i, j :: 0 <= i < j < |t.orders| ==> t.orders[i].cartId != t.orders[j].cartId
  {
    ReachableInv(t);
    if r < |t.requests| {
      assert PhaseHolds(t.orders, t.requests[r]);
    }
    if BothDone(t, r, s) && t.requests[r].cartId == t.requests[s].cartId {
      OneOrderPerCart(t, r, s);
    }
    if cartId in t.carts && t.carts[cartId] == Ordered {
      assert t.orders[OrderOfCart(t.orders, cartId)].cartId == cartId;
    }
  }

  /** After any run, a request whose twin became an order ends with that order, however the remaining
      steps interleave. */
  lemma {:induction false} RetriesConverge(t: Tables, more: seq<Step>, r: nat, o: nat)
    requires Reachable(t) && AllSensible(more)
    requires r < |t.requests| && o < |t.orders| && Answers(t.orders[o], t.requests[r]) && !t.requests[r].phase.Failed?
    requires Turns(more, r) >= CallsLeft(t.requests[r].phase)
    ensures var after := Run(t, more); r < |after.requests| && after.requests[r].phase == Done(o)
  {
    ReachableInv(t);
    IdenticalRequestsGetTheSameOrder(t, more, r, o);
  }

  /** InstaPay orders are prepared only when paid, and paid only on an accepted receipt. */
  lemma {:induction false} InstaPayNeedsProof(t: Tables, o: nat)
    requires Reachable(t) && o < |t.orders| && t.orders[o].payload.payBy.InstaPay?
    ensures InPreparation(t.orders[o].fulfillment) ==> WasPaid(t.orders[o].payment)
    ensures WasPaid(t.orders[o].payment) ==> HasAccepted(t.receipts, o)
  {
    ReachableInv(t);
    assert ProofFits(t.orders[o], o, t.receipts);
  }

  /** Refunds stay within the total and decide the refund status; keys are used once; returns never
      exceed what was bought. */
  lemma {:induction false} RefundsStayWithinTotal(t: Tables, o: nat, item: nat)
    requires Reachable(t) && o < |t.orders|
    ensures var refunded := SumBy(t.refunds, RefundOn(o));
      && 0 <= refunded <= t.orders[o].total
      && (t.orders[o].payment == Refunded <==> refunded > 0 && refunded == t.orders[o].total)
      && (t.orders[o].payment == PartiallyRefunded <==> 0 < refunded < t.orders[o].total)
      && (forall i, j :: 0 <= i < j < |t.refunds| ==> t.refunds[i].key != t.refunds[j].key)
      && (item < |t.orders[o].quantities| ==>
            0 <= SumBy(t.itemReturns, ReturnOn(o, item)) <= t.orders[o].quantities[item])
  {
    ReachableInv(t);
    assert RefundsFit(t.orders[o], SumBy(t.refunds, RefundOn(o)));
  }

  // ------------------------------------------------------------ along a run

  /** An order cancelled before it was paid is final: nothing about it changes again. */
  lemma {:induction false} CancelledUnpaidIsFinal(t: Tables, steps: seq<Step>, o: nat)
    requires o < |t.orders| && t.orders[o].fulfillment == Cancelled && NeverPaid(t.orders[o].payment)
    ensures o < |Run(t, steps).orders| && Run(t, steps).orders[o] == t.orders[o]
    decreases |steps|
  {
    if steps != [] {
      StepAdvances(t, steps[0]);
      assert Advances(t.orders[o], Next(t, steps[0]).orders[o]);
      CancelledUnpaidIsFinal(Next(t, steps[0]), steps[1..], o);
    }
  }

  /** How far an order has come; cancelled orders have left the line. */
  function Stage(f: Fulfillment): nat {
    match f
    case Pending => 0
    case Confirmed => 1
    case Preparing => 2
    case Shipped => 3
    case Delivered => 4
    case Cancelled => 5
  }

  function PaidStage(p: Payment): nat {
    match p
    case Unpaid => 0
    case AwaitingPayment => 0
    case PaymentFailed => 0
    case Paid => 1
    case PartiallyRefunded => 2
    case Refunded => 3
  }

  /** Statuses only move forward: what was bought, the deadline and the coupon never change, no stage is
      undone, a shipped order is never cancelled, and payment goes from paid to refunded, never back. */
  lemma {:induction false} OrdersOnlyMoveForward(t: Tables, steps: seq<Step>, o: nat)
    requires o < |t.orders|
    ensures o < |Run(t, steps).orders|
    ensures var before, after := t.orders[o], Run(t, steps).orders[o];
      && SameIdentity(before, after)
      && Stage(before.fulfillment) <= Stage(after.fulfillment)
      && (before.fulfillment.Shipped? || before.fulfillment.Delivered? ==> !after.fulfillment.Cancelled?)
      && PaidStage(before.payment) <= PaidStage(after.payment)
    decreases |steps|
  {
    if steps != [] {
      StepAdvances(t, steps[0]);
      assert Advances(t.orders[o], Next(t, steps[0]).orders[o]);
      OrdersOnlyMoveForward(Next(t, steps[0]), steps[1..], o);
    }
  }

  lemma {:induction false} Forward(t: Tables, o: nat, target: Fulfillment)
    requires o < |t.orders| && MayFulfil(t.orders[o].fulfillment, target) && target != Cancelled
    requires target == Confirmed ==> !CommitmentLost(t.room.reservations, o)
    requires target == Preparing ==> t.orders[o].payload.payBy.CashOnDelivery? || t.orders[o].payment == Paid
    ensures Next(t, SetFulfillment(o, target)).orders == t.orders[o := t.orders[o].(fulfillment := target)]
  {
  }

  function WayToDelivery(o: nat): seq<Step> {
    [SetFulfillment(o, Confirmed)] + ([SetFulfillment(o, Preparing)] + ([SetFulfillment(o, Shipped)] + ([SetFulfillment(o, Delivered)] + [])))
  }

  lemma {:induction false} RunStep(t: Tables, step: Step, rest: seq<Step>)
    ensures Run(t, [step] + rest) == Run(Next(t, step), rest)
  {
    assert ([step] + rest)[1..] == rest;
  }

  /** An order whose stock is not lost, and that is paid or pays on delivery, can be taken all the way. */
  lemma {:induction false} OrdersCanBeDelivered(t: Tables, o: nat)
    requires o < |t.orders| && t.orders[o].fulfillment == Pending && !CommitmentLost(t.room.reservations, o)
    requires t.orders[o].payload.payBy.CashOnDelivery? || t.orders[o].payment == Paid
    ensures Run(t, WayToDelivery(o)).orders == t.orders[o := t.orders[o].(fulfillment := Delivered)]
  {
    var last: seq<Step> := [SetFulfillment(o, Delivered)] + [];
    var third := [SetFulfillment(o, Shipped)] + last;
    var second := [SetFulfillment(o, Preparing)] + third;
    Forward(t, o, Confirmed);
    RunStep(t, SetFulfillment(o, Confirmed), second);
    var confirmed := Next(t, SetFulfillment(o, Confirmed));
    Forward(confirmed, o, Preparing);
    RunStep(confirmed, SetFulfillment(o, Preparing), third);
    var preparing := Next(confirmed, SetFulfillment(o, Preparing));
    Forward(preparing, o, Shipped);
    RunStep(preparing, SetFulfillment(o, Shipped), last);
    var shipped := Next(preparing, SetFulfillment(o, Shipped));
    Forward(shipped, o, Delivered);
    RunStep(shipped, SetFulfillment(o, Delivered), []);
    assert Run(Next(shipped, SetFulfillment(o, Delivered)), []) == Next(shipped, SetFulfillment(o, Delivered));
  }

  /** An attached receipt is never deleted or attached elsewhere, and is reviewed at most once. */
  lemma {:induction false} AttachedReceiptStays(t: Tables, steps: seq<Step>, id: string)
    requires Inv(t) && AllSensible(steps) && id in t.receipts && t.receipts[id].orderId.Some?
    ensures id in Run(t, steps).receipts
    ensures Run(t, steps).receipts[id].orderId == t.receipts[id].orderId && Run(t, steps).receipts[id].cartId == t.receipts[id].cartId
    ensures t.receipts[id].status != PendingReview ==> Run(t, steps).receipts[id].status == t.receipts[id].status
    decreases |steps|
  {
    if steps != [] {
      LaterSteps(steps);
      StepAdvances(t, steps[0]);
      StepKeepsInv(t, steps[0]);
      assert ReceiptStays(t.receipts[id], Next(t, steps[0]).receipts[id]);
      AttachedReceiptStays(Next(t, steps[0]), steps[1..], id);
    }
  }

  /** The sweep cancels only orders that are overdue, pending and unpaid at that moment, although its
      transaction does not look at the deadline again. */
  lemma {:induction false} SweepCancelsOnlyOverdue(t: Tables, candidate: nat, o: nat)
    requires Reachable(t) && o < |t.orders|
    requires Next(t, CancelExpired(candidate)).orders[o] != t.orders[o]
    ensures o == candidate && t.orders[o].fulfillment == Pending && t.orders[o].payment == Unpaid
    ensures t.orders[o].deadline.Some? && t.orders[o].deadline.value < t.now
  {
    ReachableInv(t);
    assert candidate in t.expiring;
    var i :| 0 <= i < |t.expiring| && t.expiring[i] == candidate;
  }

  // ------------------------------------------------------------ runs without shrinkage

  ghost predicate NoShrinkage(steps: seq<Step>) {
    forall i :: 0 <= i < |steps| ==> steps[i].AdjustStock? ==> steps[i].delta >= 0
  }

  lemma {:induction false} FulfillmentKeepsBacked(t: Tables, o: nat, target: Fulfillment)
    requires StockInv(t) && Backed(t.room)
    ensures Backed(Commit(t, UpdateFulfillment(t, o, target)).room)
  {
    ReleaseAllKeepsBacked(t.room, ActiveIds(t.room.reservations, o), Stockroom.Released);
  }

  lemma {:induction false} PaymentKeepsBacked(t: Tables, o: nat, target: Payment)
    requires StockInv(t) && Backed(t.room)
    ensures Backed(Commit(t, UpdatePayment(t, o, target)).room)
  {
    ConsumeAllKeepsBacked(t.room, ActiveIds(t.room.reservations, o));
  }

  lemma {:induction false} ExpiryKeepsBacked(t: Tables, o: nat)
    requires StockInv(t) && Backed(t.room)
    ensures Backed(CancelDueToExpiry(t, o).room)
  {
    ReleaseAllKeepsBacked(t.room, ActiveIds(t.room.reservations, o), Stockroom.Expired);
  }

  lemma {:induction false} RequestKeepsBacked(t: Tables, r: nat, placement: OrderLines.Placement)
    requires Backed(t.room) && r < |t.requests|
    ensures Backed(Proceed(t, r, placement).room)
  {
    RequestOutcome(t, r, placement);
    if CommitsOrder(t, r, placement) {
      ReserveAllKeepsBacked(t.room, Aggregate(placement.order.stockLines), |t.orders|, DeadlineAt(t.now, t.requests[r].ttl));
    }
  }

  predicate TouchesStock(step: Step) {
    || step.RequestStep? || step.SetFulfillment? || step.SetPayment? || step.CancelExpired?
    || step.ReleaseExpired? || step.AdjustStock? || step.CreateItem?
  }

  lemma {:induction false} OthersLeaveStock(t: Tables, step: Step)
    requires !TouchesStock(step)
    ensures Next(t, step).room == t.room
  {
  }

  lemma {:induction false} StepKeepsBacked(t: Tables, step: Step)
    requires StockInv(t) && Backed(t.room) && (step.AdjustStock? ==> step.delta >= 0)
    ensures Backed(Next(t, step).room)
  {
    if step.RequestStep? {
      if step.r < |t.requests| {
        RequestKeepsBacked(t, step.r, Priced(t, step.r, step.price));
      }
    } else if step.SetFulfillment? {
      FulfillmentKeepsBacked(t, step.fulfilled, step.fulfillment);
    } else if step.SetPayment? {
      PaymentKeepsBacked(t, step.paid, step.payment);
    } else if step.CancelExpired? {
      ExpiryKeepsBacked(t, step.candidate);
    } else if step.ReleaseExpired? {
      ReleaseKeepsBacked(t.room, step.reservation, Stockroom.Expired);
    } else if !step.AdjustStock? && !step.CreateItem? {
      OthersLeaveStock(t, step);
    }
  }

  lemma {:induction false} RunKeepsBacked(t: Tables, steps: seq<Step>)
    requires Inv(t) && AllSensible(steps) && NoShrinkage(steps) && Backed(t.room)
    ensures Backed(Run(t, steps).room)
    decreases |steps|
  {
    if steps != [] {
      LaterSteps(steps);
      assert forall i :: 0 <= i < |steps[1..]| ==> steps[1..][i] == steps[i + 1];
      StepKeepsInv(t, steps[0]);
      StepKeepsBacked(t, steps[0]);
      RunKeepsBacked(Next(t, steps[0]), steps[1..]);
    }
  }

  lemma {:induction false} BackedOrdersCanBePaid(t: Tables, o: nat)
    requires Ledger(t.room) && Backed(t.room)
    ensures UpdatePayment(t, o, Paid) != Err(CannotConsume)
  {
    OrderCanBeConsumed(t.room, o);
  }

  lemma {:induction false} ConsumedLeavesNoneActive(room: Room, o: nat)
    requires ConsumeAll(room, ActiveIds(room.reservations, o)).Some?
    ensures ActiveIds(ConsumeAll(room, ActiveIds(room.reservations, o)).value.reservations, o) == []
  {
    var ids := ActiveIds(room.reservations, o);
    ConsumeAllRestates(room, ids);
    var rows := ConsumeAll(room, ids).value.reservations;
    forall id: nat | id < |rows| ensures !ActiveFor(rows[id], o) {
      assert id in ids <==> ActiveFor(room.reservations[id], o);
    }
    NoneActive(rows, o);
  }

  /** While every hold is backed, an open order whose stock is not lost can be marked paid, given a receipt
      to review when it pays by InstaPay; its stock is then consumed. */
  lemma {:induction false} CoveredOrdersCanBePaid(t: Tables, o: nat)
    requires Ledger(t.room) && Backed(t.room) && o < |t.orders|
    requires t.orders[o].fulfillment != Cancelled && NeverPaid(t.orders[o].payment) && !CommitmentLost(t.room.reservations, o)
    requires t.orders[o].payload.payBy.InstaPay? ==> HasPending(t.receipts, o)
    ensures UpdatePayment(t, o, Paid).Ok? && UpdatePayment(t, o, Paid).value.orders[o].payment == Paid
    ensures ActiveIds(UpdatePayment(t, o, Paid).value.room.reservations, o) == []
  {
    OrderCanBeConsumed(t.room, o);
    ConsumedLeavesNoneActive(t.room, o);
  }

  lemma {:induction false} NoneActive(rows: seq<Reservation>, o: nat)
    requires forall id: nat :: id < |rows| ==> !ActiveFor(rows[id], o)
    ensures ActiveIds(rows, o) == []
  {
    if rows != [] {
      NoneActive(rows[..|rows| - 1], o);
    }
  }

  /** The tables after some run in which stock is never adjusted downwards. */
  ghost predicate ReachableUnshrunk(t: Tables) {
    exists steps :: AllSensible(steps) && NoShrinkage(steps) && t == Run(EMPTY, steps)
  }

  /** Without negative adjustments the shop never oversells: every hold is backed by stock on hand, and
      marking an order paid is never refused for lack of stock. */
  lemma {:induction false} NeverOversold(t: Tables, o: nat)
    requires ReachableUnshrunk(t)
    ensures Backed(t.room) && UpdatePayment(t, o, Paid) != Err(CannotConsume)
  {
    var steps :| AllSensible(steps) && NoShrinkage(steps) && t == Run(EMPTY, steps);
    EmptyTables(EMPTY);
    RunKeepsInv(EMPTY, steps);
    RunKeepsBacked(EMPTY, steps);
    BackedOrdersCanBePaid(t, o);
  }
}

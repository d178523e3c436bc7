/** Coupon usage is exactly the orders that hold it, in every reachable state. */
module ShopCoupons {
  import opened Options
  import opened Sums
  import opened Shop
  import opened ShopHistory
  import OrderLines

  function Holds(couponId: string): Order -> int {
    (order: Order) => if order.couponId == Some(couponId) && !order.couponReleased then 1 else 0
  }

  ghost predicate CouponAccounted(orders: seq<Order>, couponId: string, c: Coupon) {
    && c.start >= 0
    && c.used == c.start + SumBy(orders, Holds(couponId))
    && (c.limit.Some? ==> c.used <= c.limit.value)
  }

  /** Usage is given back exactly for cancelled orders that were never paid. */
  ghost predicate ReleasedRightly(order: Order) {
    order.couponReleased <==> order.couponId.Some? && order.fulfillment == Cancelled && NeverPaid(order.payment)
  }

  ghost predicate KnownCoupons(orders: seq<Order>, coupons: map<string, Coupon>) {
    forall i :: 0 <= i < |orders| ==>
      (orders[i].couponId.Some? ==> orders[i].couponId.value in coupons) && ReleasedRightly(orders[i])
  }

  ghost predicate CouponInv(t: Tables) {
    && KnownCoupons(t.orders, t.coupons)
    && forall id :: id in t.coupons ==> CouponAccounted(t.orders, id, t.coupons[id])
  }

  /** An order row changed without changing what it says about its coupon. */
  lemma {:induction false} SameHolder(t: Tables, after: Tables, o: nat, order: Order)
    requires CouponInv(t) && o < |t.orders| && after.orders == t.orders[o := order] && after.coupons == t.coupons
    requires order.couponId == t.orders[o].couponId && order.couponReleased == t.orders[o].couponReleased && ReleasedRightly(order)
    ensures CouponInv(after)
  {
    forall id | id in after.coupons ensures CouponAccounted(after.orders, id, after.coupons[id]) {
      assert CouponAccounted(t.orders, id, t.coupons[id]);
      SumUpdate(t.orders, o, order, Holds(id));
    }
  }

  /** An order that still holds a coupon is counted in it, so giving it back never meets the floor. */
  lemma {:induction false} ClampNeverBites(t: Tables, o: nat)
    requires CouponInv(t) && o < |t.orders| && t.orders[o].couponId.Some? && !t.orders[o].couponReleased
    ensures var id := t.orders[o].couponId.value;
      && id in t.coupons && t.coupons[id].used > t.coupons[id].start >= 0
      && GiveCouponBack(t.coupons, t.orders[o].couponId) == t.coupons[id := t.coupons[id].(used := t.coupons[id].used - 1)]
  {
    var id := t.orders[o].couponId.value;
    assert CouponAccounted(t.orders, id, t.coupons[id]);
    assert t.orders[o] in t.orders;
    SumPositive(t.orders, t.orders[o], Holds(id));
  }

  /** Cancelling a never-paid order gives its coupon back once. */
  lemma {:induction false} CancelGivesBack(t: Tables, after: Tables, o: nat, order: Order)
    requires CouponInv(t) && o < |t.orders| && after.orders == t.orders[o := order]
    requires t.orders[o].fulfillment != Cancelled && order.fulfillment == Cancelled && order.payment == t.orders[o].payment
    requires order.couponId == t.orders[o].couponId
    requires order.couponReleased == (order.couponId.Some? && NeverPaid(order.payment))
    requires after.coupons == if order.couponReleased then GiveCouponBack(t.coupons, order.couponId) else t.coupons
    ensures CouponInv(after)
  {
    assert ReleasedRightly(t.orders[o]);
    if order.couponReleased {
      ClampNeverBites(t, o);
    }
    forall id | id in after.coupons ensures CouponAccounted(after.orders, id, after.coupons[id]) {
      assert CouponAccounted(t.orders, id, t.coupons[id]);
      SumUpdate(t.orders, o, order, Holds(id));
    }
  }

  lemma {:induction false} NewOrderIsCounted(t: Tables, after: Tables, order: Order)
    requires CouponInv(t) && after.orders == t.orders + [order] && CouponFree(t, order.couponId)
    requires !order.couponReleased && order.fulfillment == Pending
    requires after.coupons == UseCoupon(t.coupons, order.couponId)
    ensures CouponInv(after)
  {
    forall id | id in after.coupons ensures CouponAccounted(after.orders, id, after.coupons[id]) {
      assert CouponAccounted(t.orders, id, t.coupons[id]);
      SumSnoc(t.orders, order, Holds(id));
    }
  }

  lemma {:induction false} NewCouponIsCounted(t: Tables, couponId: string, limit: Option<int>, start: nat)
    requires CouponInv(t) && (limit.Some? ==> start <= limit.value)
    ensures CouponInv(Next(t, CreateCoupon(couponId, limit, start)))
  {
    var after := Next(t, CreateCoupon(couponId, limit, start));
    forall id | id in after.coupons ensures CouponAccounted(after.orders, id, after.coupons[id]) {
      if id in t.coupons {
        assert CouponAccounted(t.orders, id, t.coupons[id]);
      } else {
        forall order | order in t.orders ensures Holds(id)(order) == 0 {
          var i :| 0 <= i < |t.orders| && t.orders[i] == order;
        }
        SumZero(t.orders, Holds(id));
      }
    }
  }

  lemma {:induction false} FulfillmentKeepsCoupons(t: Tables, o: nat, target: Fulfillment)
    requires CouponInv(t)
    ensures CouponInv(Commit(t, UpdateFulfillment(t, o, target)))
  {
    if o < |t.orders| && MayFulfil(t.orders[o].fulfillment, target) {
      var order := t.orders[o];
      assert ReleasedRightly(order);
      var after := Commit(t, UpdateFulfillment(t, o, target));
      if target == Cancelled {
        CancelGivesBack(t, after, o, after.orders[o]);
      } else if after != t {
        SameHolder(t, after, o, order.(fulfillment := target));
      }
    }
  }

  lemma {:induction false} PaymentKeepsCoupons(t: Tables, o: nat, target: Payment)
    requires CouponInv(t)
    ensures CouponInv(Commit(t, UpdatePayment(t, o, target)))
  {
    var after := Commit(t, UpdatePayment(t, o, target));
    if o < |t.orders| && after != t {
      assert ReleasedRightly(t.orders[o]);
      SameHolder(t, after, o, t.orders[o].(payment := target));
    }
  }

  lemma {:induction false} RefundKeepsCoupons(t: Tables, o: nat, amount: int, sameCurrency: bool, key: string)
    requires CouponInv(t)
    ensures CouponInv(Commit(t, RecordRefund(t, o, amount, sameCurrency, key)))
  {
    var after := Commit(t, RecordRefund(t, o, amount, sameCurrency, key));
    if o < |t.orders| && after != t {
      assert ReleasedRightly(t.orders[o]);
      SameHolder(t, after, o, after.orders[o]);
    }
  }

  lemma {:induction false} ExpiryKeepsCoupons(t: Tables, o: nat)
    requires CouponInv(t)
    ensures CouponInv(CancelDueToExpiry(t, o))
  {
    if o < |t.orders| && t.orders[o].fulfillment == Pending && t.orders[o].payment == Unpaid {
      assert ReleasedRightly(t.orders[o]);
      CancelGivesBack(t, CancelDueToExpiry(t, o), o, CancelDueToExpiry(t, o).orders[o]);
    }
  }

  lemma {:induction false} RequestKeepsCoupons(t: Tables, r: nat, placement: OrderLines.Placement)
    requires CouponInv(t) && r < |t.requests|
    ensures CouponInv(Proceed(t, r, placement))
  {
    RequestOutcome(t, r, placement);
    if CommitsOrder(t, r, placement) {
      NewOrderIsCounted(t, Proceed(t, r, placement), NewOrder(t.requests[r], t.requests[r].phase.deadline, placement.order));
    }
  }

  predicate ConcernsCoupons(step: Step) {
    step.CreateCoupon? || step.RequestStep? || step.SetFulfillment? || step.SetPayment? || step.Refund? || step.CancelExpired?
  }

  lemma {:induction false} OthersKeepCoupons(t: Tables, step: Step)
    requires CouponInv(t) && !ConcernsCoupons(step)
    ensures CouponInv(Next(t, step))
  {
    assert Next(t, step).coupons == t.coupons && Next(t, step).orders == t.orders;
  }

  lemma {:induction false} StepKeepsCoupons(t: Tables, step: Step)
    requires CouponInv(t) && Sensible(step)
    ensures CouponInv(Next(t, step))
  {
    if step.CreateCoupon? {
      NewCouponIsCounted(t, step.couponId, step.limit, step.start);
    } else if step.RequestStep? {
      if step.r < |t.requests| {
        RequestKeepsCoupons(t, step.r, Priced(t, step.r, step.price));
      }
    } else if step.SetFulfillment? {
      FulfillmentKeepsCoupons(t, step.fulfilled, step.fulfillment);
    } else if step.SetPayment? {
      PaymentKeepsCoupons(t, step.paid, step.payment);
    } else if step.Refund? {
      RefundKeepsCoupons(t, step.refunded, step.amount, step.sameCurrency, step.refundKey);
    } else if step.CancelExpired? {
      ExpiryKeepsCoupons(t, step.candidate);
    } else {
      OthersKeepCoupons(t, step);
    }
  }
}

/** Checkout is idempotent under every interleaving of requests. */
module ShopCheckout {
  import opened Options
  import opened Shop
  import opened ShopHistory
  import OrderLines
  import Stockroom

  /** The order is what the request asked for: its cart, its key and its payload. */
  ghost predicate Answers(order: Order, q: Request) {
    order.cartId == q.cartId && order.key == q.key && order.payload == q.payload
  }

  ghost predicate DistinctOrders(orders: seq<Order>) {
    forall i, j :: 0 <= i < j < |orders| ==> orders[i].key != orders[j].key && orders[i].cartId != orders[j].cartId
  }

  /** A cart is ordered exactly when an order has its id. */
  ghost predicate CartsFollowOrders(orders: seq<Order>, carts: map<string, CartStatus>) {
    && (forall i :: 0 <= i < |orders| ==> orders[i].cartId in carts && carts[orders[i].cartId] == Ordered)
    && (forall id :: id in carts && carts[id] == Ordered ==> OrderOfCart(orders, id) < |orders|)
  }

  /** Each order's receipt is still there, and attached to it. */
  ghost predicate OwnReceipts(orders: seq<Order>, receipts: map<string, Receipt>) {
    forall i :: 0 <= i < |orders| ==> WellFormed(orders[i].payload) && OwnReceipt(orders[i], i, receipts)
  }

  ghost predicate OwnReceipt(order: Order, i: nat, receipts: map<string, Receipt>) {
    order.payload.receiptId.Some? ==>
      && order.payload.receiptId.value in receipts
      && receipts[order.payload.receiptId.value].orderId == Some(i)
      && receipts[order.payload.receiptId.value].cartId == order.cartId
      && receipts[order.payload.receiptId.value].expiresAt.None?
  }

  /** What a request's phase says about the orders. */
  ghost predicate PhaseHolds(orders: seq<Order>, q: Request) {
    match q.phase
    case Arrived => true
    case KeyUnknown => true
    case ReceiptTaken => WellFormed(q.payload)
    case Admitted(_) => WellFormed(q.payload)
    case KeyConflict => exists i :: 0 <= i < |orders| && orders[i].key == q.key && orders[i].cartId != q.cartId
    case Done(o) => o < |orders| && Answers(orders[o], q)
    case Failed(_) => true
  }

  ghost predicate CheckoutInv(t: Tables) {
    && DistinctOrders(t.orders)
    && CartsFollowOrders(t.orders, t.carts)
    && OwnReceipts(t.orders, t.receipts)
    && forall r :: 0 <= r < |t.requests| ==> PhaseHolds(t.orders, t.requests[r])
  }

  lemma {:induction false} PhaseSurvives(before: seq<Order>, after: seq<Order>, q: Request)
    requires OrdersAdvance(before, after) && PhaseHolds(before, q)
    ensures PhaseHolds(after, q)
  {
    if q.phase.KeyConflict? {
      var i :| 0 <= i < |before| && before[i].key == q.key && before[i].cartId != q.cartId;
      assert after[i].key == q.key && after[i].cartId != q.cartId;
    }
  }

  lemma {:induction false} OrderOfCartIsIt(orders: seq<Order>, i: nat)
    requires DistinctOrders(orders) && i < |orders|
    ensures OrderOfCart(orders, orders[i].cartId) == i && OrderOfKey(orders, orders[i].key) == i
  {
  }

  lemma {:induction false} CartsSurvive(before: seq<Order>, after: seq<Order>, carts: map<string, CartStatus>)
    requires OrdersAdvance(before, after) && |after| == |before| && CartsFollowOrders(before, carts)
    ensures CartsFollowOrders(after, carts)
  {
    forall id | id in carts && carts[id] == Ordered ensures OrderOfCart(after, id) < |after| {
      var i := OrderOfCart(before, id);
      assert after[i].cartId == id;
    }
  }

  lemma {:induction false} OwnReceiptsSurvive(before: seq<Order>, after: seq<Order>, receipts: map<string, Receipt>, later: map<string, Receipt>)
    requires OwnReceipts(before, receipts) && OrdersAdvance(before, after) && |after| == |before| && ReceiptsStay(receipts, later)
    ensures OwnReceipts(after, later)
  {
    forall i | 0 <= i < |after| ensures WellFormed(after[i].payload) && OwnReceipt(after[i], i, later) {
      assert OwnReceipt(before[i], i, receipts);
      assert Advances(before[i], after[i]);
    }
  }

  /** A step that neither creates an order nor moves a request forward. */
  lemma {:induction false} QuietStepKeeps(t: Tables, step: Step)
    requires CheckoutInv(t) && !step.RequestStep? && !step.CreateCart? && !step.Submit?
    ensures CheckoutInv(Next(t, step))
  {
    var after := Next(t, step);
    StepAdvances(t, step);
    OnlyRequestsAndCarts(t, step);
    OwnReceiptsSurvive(t.orders, after.orders, t.receipts, after.receipts);
    CartsSurvive(t.orders, after.orders, t.carts);
    forall r | 0 <= r < |after.requests| ensures PhaseHolds(after.orders, after.requests[r]) {
      PhaseSurvives(t.orders, after.orders, t.requests[r]);
    }
  }

  lemma {:induction false} NewOrderIsDistinct(orders: seq<Order>, carts: map<string, CartStatus>, order: Order)
    requires DistinctOrders(orders) && CartsFollowOrders(orders, carts)
    requires OrderOfKey(orders, order.key) == |orders| && order.cartId in carts && carts[order.cartId] == Active
    ensures DistinctOrders(orders + [order])
  {
  }

  lemma {:induction false} ClaimedCartFollows(orders: seq<Order>, carts: map<string, CartStatus>, order: Order)
    requires CartsFollowOrders(orders, carts)
    ensures CartsFollowOrders(orders + [order], carts[order.cartId := Ordered])
  {
    var after := orders + [order];
    forall id | id in carts && carts[id] == Ordered ensures OrderOfCart(after, id) < |after| {
      assert after[OrderOfCart(orders, id)].cartId == id;
    }
    assert after[|orders|].cartId == order.cartId;
  }

  lemma {:induction false} AttachedIsOwn(t: Tables, q: Request, order: Order)
    requires OwnReceipts(t.orders, t.receipts) && Answers(order, q) && WellFormed(q.payload) && CanAttach(t, q)
    ensures OwnReceipts(t.orders + [order], Attach(t.receipts, q.payload.receiptId, |t.orders|))
  {
    var orders, receipts := t.orders + [order], Attach(t.receipts, q.payload.receiptId, |t.orders|);
    forall i | 0 <= i < |orders| ensures WellFormed(orders[i].payload) && OwnReceipt(orders[i], i, receipts) {
      if i < |t.orders| {
        assert OwnReceipt(t.orders[i], i, t.receipts);
      }
    }
  }

  /** The new order is the only one with its key and its cart. */
  lemma {:induction false} PlacedKeepsCheckout(t: Tables, q: Request, order: Order, after: Tables)
    requires CheckoutInv(t) && Answers(order, q) && WellFormed(q.payload)
    requires q.cartId in t.carts && t.carts[q.cartId] == Active
    requires OrderOfKey(t.orders, q.key) == |t.orders| && CanAttach(t, q)
    requires after.orders == t.orders + [order] && after.carts == t.carts[q.cartId := Ordered]
    requires after.receipts == Attach(t.receipts, q.payload.receiptId, |t.orders|)
    ensures DistinctOrders(after.orders) && CartsFollowOrders(after.orders, after.carts) && OwnReceipts(after.orders, after.receipts)
    ensures OrdersAdvance(t.orders, after.orders)
  {
    NewOrderIsDistinct(t.orders, t.carts, order);
    ClaimedCartFollows(t.orders, t.carts, order);
    AttachedIsOwn(t, q, order);
    SameAdvances(t.orders, after.orders);
  }

  lemma {:induction false} PhaseStepKeeps(t: Tables, r: nat, phase: Phase)
    requires CheckoutInv(t) && r < |t.requests| && PhaseHolds(t.orders, t.requests[r].(phase := phase))
    ensures CheckoutInv(WithPhase(t, r, phase))
  {
  }

  /** Every answer a single call gives is true of the orders it read. */
  lemma {:induction false} AnswersHold(t: Tables, q: Request)
    requires CheckoutInv(t)
    ensures PhaseHolds(t.orders, q.(phase := LookUpKey(t, q)))
    ensures PhaseHolds(t.orders, q.(phase := CheckReceipt(t, q)))
    ensures PhaseHolds(t.orders, q.(phase := RecoverByCart(t, q)))
    ensures PhaseHolds(t.orders, q.(phase := RecoverByKey(t, q)))
    ensures PhaseHolds(t.orders, q.(phase := ClaimLost(t, q)))
  {
  }

  lemma {:induction false} CommittedKeepsCheckout(t: Tables, r: nat, placed: OrderLines.PlacedOrder, room: Stockroom.Room)
    requires CheckoutInv(t) && r < |t.requests| && t.requests[r].phase.Admitted? && CanAttach(t, t.requests[r])
    requires t.requests[r].cartId in t.carts && t.carts[t.requests[r].cartId] == Active
    requires OrderOfKey(t.orders, t.requests[r].key) == |t.orders|
    ensures CheckoutInv(WithPhase(Placed(t, t.requests[r], placed, room), r, Done(|t.orders|)))
  {
    var q := t.requests[r];
    var after := WithPhase(Placed(t, q, placed, room), r, Done(|t.orders|));
    assert PhaseHolds(t.orders, q);
    PlacedKeepsCheckout(t, q, NewOrder(q, q.phase.deadline, placed), after);
    forall s | 0 <= s < |after.requests| ensures PhaseHolds(after.orders, after.requests[s]) {
      if s != r {
        PhaseSurvives(t.orders, after.orders, t.requests[s]);
      }
    }
  }

  lemma {:induction false} TransactKeepsCheckout(t: Tables, r: nat, placement: OrderLines.Placement)
    requires CheckoutInv(t) && r < |t.requests| && t.requests[r].phase.Admitted?
    ensures CheckoutInv(Transact(t, r, placement))
  {
    var q := t.requests[r];
    TransactOutcome(t, r, placement);
    if CommitsOrder(t, r, placement) {
      CommittedKeepsCheckout(t, r, placement.order, ReservedRoom(t, q, placement.order).value);
    } else {
      RefusalHolds(t, r, placement);
      PhaseStepKeeps(t, r, Transact(t, r, placement).requests[r].phase);
    }
  }

  lemma {:induction false} RefusalHolds(t: Tables, r: nat, placement: OrderLines.Placement)
    requires CheckoutInv(t) && r < |t.requests| && t.requests[r].phase.Admitted? && !CommitsOrder(t, r, placement)
    ensures PhaseHolds(t.orders, Transact(t, r, placement).requests[r])
  {
    var q := t.requests[r];
    AnswersHold(t, q);
    if q.cartId in t.carts && t.carts[q.cartId] == Active {
      ConflictIsForeign(t, q);
    }
  }

  lemma {:induction false} RequestKeepsCheckout(t: Tables, r: nat, placement: OrderLines.Placement)
    requires CheckoutInv(t) && r < |t.requests|
    ensures CheckoutInv(Proceed(t, r, placement))
  {
    var q := t.requests[r];
    AnswersHold(t, q);
    match q.phase {
      case Arrived => PhaseStepKeeps(t, r, LookUpKey(t, q));
      case KeyUnknown => PhaseStepKeeps(t, r, CheckReceipt(t, q));
      case ReceiptTaken => PhaseStepKeeps(t, r, RecoverByCart(t, q));
      case Admitted(_) => TransactKeepsCheckout(t, r, placement);
      case KeyConflict => PhaseStepKeeps(t, r, RecoverByKey(t, q));
      case _ =>
    }
  }

  /** When the key is taken and the cart is still active, the key belongs to another cart's order. */
  lemma {:induction false} ConflictIsForeign(t: Tables, q: Request)
    requires CheckoutInv(t) && q.cartId in t.carts && t.carts[q.cartId] == Active
    ensures var o := OrderOfKey(t.orders, q.key); o < |t.orders| ==> t.orders[o].cartId != q.cartId
  {
  }

  lemma {:induction false} StepKeepsCheckout(t: Tables, step: Step)
    requires CheckoutInv(t) && Sensible(step)
    ensures CheckoutInv(Next(t, step))
  {
    if step.RequestStep? {
      if step.r < |t.requests| {
        RequestKeepsCheckout(t, step.r, Priced(t, step.r, step.price));
      }
    } else if !step.CreateCart? && !step.Submit? {
      QuietStepKeeps(t, step);
    }
  }

  // ------------------------------------------------------------ what a response means

  /** All successes on one cart return the same order. */
  lemma {:induction false} OneOrderPerCart(t: Tables, r: nat, s: nat)
    requires CheckoutInv(t) && r < |t.requests| && s < |t.requests|
    requires t.requests[r].phase.Done? && t.requests[s].phase.Done? && t.requests[r].cartId == t.requests[s].cartId
    ensures t.requests[r].phase == t.requests[s].phase
    ensures Answers(t.orders[t.requests[r].phase.orderId], t.requests[r])
  {
    assert PhaseHolds(t.orders, t.requests[r]) && PhaseHolds(t.orders, t.requests[s]);
  }

  /** A cart is ordered exactly when one order, and only one, has its id. */
  lemma {:induction false} OrderedIffOneOrder(t: Tables, id: string)
    requires CheckoutInv(t) && id in t.carts
    ensures t.carts[id] == Ordered
       <==> exists o :: 0 <= o < |t.orders| && t.orders[o].cartId == id && forall i :: 0 <= i < |t.orders| && i != o ==> t.orders[i].cartId != id
  {
    if t.carts[id] == Ordered {
      var o := OrderOfCart(t.orders, id);
      assert t.orders[o].cartId == id;
    }
  }

  /** Recovering from a lost race for the key never hands out an order: the winner is another cart's. */
  lemma {:induction false} ConflictNeverReturnsAnOrder(t: Tables, r: nat, placement: OrderLines.Placement)
    requires CheckoutInv(t) && r < |t.requests| && t.requests[r].phase.KeyConflict?
    ensures Proceed(t, r, placement).requests[r].phase == Failed(IdempotencyKeyReused)
  {
    assert PhaseHolds(t.orders, t.requests[r]);
    var i :| 0 <= i < |t.orders| && t.orders[i].key == t.requests[r].key && t.orders[i].cartId != t.requests[r].cartId;
    OrderOfCartIsIt(t.orders, i);
  }

  /** Database calls a request may still need. */
  function CallsLeft(p: Phase): nat {
    match p
    case Arrived => 3
    case KeyUnknown => 2
    case ReceiptTaken => 1
    case Admitted(_) => 1
    case KeyConflict => 1
    case Done(_) => 0
    case Failed(_) => 0
  }

  /** A request identical to one that became order `o`, wherever it stands, moves towards `o` and never fails. */
  lemma {:induction false} TwinProceeds(t: Tables, r: nat, o: nat, placement: OrderLines.Placement)
    requires CheckoutInv(t) && r < |t.requests| && o < |t.orders| && Answers(t.orders[o], t.requests[r])
    requires !t.requests[r].phase.Failed?
    ensures var p := Proceed(t, r, placement).requests[r].phase;
      p == Done(o) || (!p.Failed? && !p.Done? && CallsLeft(p) < CallsLeft(t.requests[r].phase))
  {
    assert PhaseHolds(t.orders, t.requests[r]);
    OrderOfCartIsIt(t.orders, o);
    assert OwnReceipt(t.orders[o], o, t.receipts);
    if t.requests[r].phase.KeyConflict? {
      ConflictNeverReturnsAnOrder(t, r, placement);
      var i :| 0 <= i < |t.orders| && t.orders[i].key == t.requests[r].key && t.orders[i].cartId != t.requests[r].cartId;
      OrderOfCartIsIt(t.orders, i);
    }
    if t.requests[r].phase.Done? {
      OrderOfCartIsIt(t.orders, t.requests[r].phase.orderId);
    }
  }

  /** How often request `r` makes a call during the steps. */
  function Turns(steps: seq<Step>, r: nat): nat {
    if steps == [] then 0
    else (if steps[0].RequestStep? && steps[0].r == r then 1 else 0) + Turns(steps[1..], r)
  }

  /** One step of the run: the request stays a twin of the order, and makes progress when it is its turn. */
  lemma {:induction false} TwinStep(t: Tables, step: Step, r: nat, o: nat)
    requires CheckoutInv(t) && Sensible(step) && r < |t.requests| && o < |t.orders| && Answers(t.orders[o], t.requests[r])
    requires !t.requests[r].phase.Failed?
    ensures var next := Next(t, step);
      && r < |next.requests| && o < |next.orders| && Answers(next.orders[o], next.requests[r]) && !next.requests[r].phase.Failed?
      && CallsLeft(next.requests[r].phase) <= CallsLeft(t.requests[r].phase)
      && (step.RequestStep? && step.r == r && CallsLeft(t.requests[r].phase) > 0 ==>
            CallsLeft(next.requests[r].phase) < CallsLeft(t.requests[r].phase))
  {
    StepAdvances(t, step);
    RequestsStay(t, step, r);
    assert Advances(t.orders[o], Next(t, step).orders[o]);
    if step.RequestStep? && step.r == r {
      TwinProceeds(t, r, o, Priced(t, r, step.price));
    }
  }

  /** Retrying is safe: once an order exists for a request, every identical request that is still
      under way ends with that same order, whatever happens in between. */
  lemma {:induction false} IdenticalRequestsGetTheSameOrder(t: Tables, steps: seq<Step>, r: nat, o: nat)
    requires CheckoutInv(t) && AllSensible(steps)
    requires r < |t.requests| && o < |t.orders| && Answers(t.orders[o], t.requests[r]) && !t.requests[r].phase.Failed?
    requires Turns(steps, r) >= CallsLeft(t.requests[r].phase)
    ensures r < |Run(t, steps).requests| && Run(t, steps).requests[r].phase == Done(o)
    decreases |steps|
  {
    assert PhaseHolds(t.orders, t.requests[r]);
    if steps == [] {
      OrderOfCartIsIt(t.orders, o);
      OrderOfCartIsIt(t.orders, t.requests[r].phase.orderId);
    } else {
      var step := steps[0];
      assert Sensible(step);
      StepKeepsCheckout(t, step);
      TwinStep(t, step, r, o);
      assert forall i :: 0 <= i < |steps[1..]| ==> steps[1..][i] == steps[i + 1];
      IdenticalRequestsGetTheSameOrder(Next(t, step), steps[1..], r, o);
    }
  }
}

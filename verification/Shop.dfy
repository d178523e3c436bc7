/** The database behind orders, and every committed transaction on it as one step: checkout requests,
    staff actions and background sweeps interleave freely, and a transaction that throws leaves the
    tables as they were. Ids of orders, reservations and requests are positions in their tables. */
module Shop {
  import opened Options
  import opened Sums
  import BundlePricing
  import CartPricing
  import OrderLines
  import Stockroom

  datatype PaymentMethod = CashOnDelivery | InstaPay

  datatype Fulfillment = Pending | Confirmed | Preparing | Shipped | Delivered | Cancelled

  datatype Payment = Unpaid | AwaitingPayment | Paid | PaymentFailed | PartiallyRefunded | Refunded

  /** A checkout request's payload; it stands for its hash, which is taken to be injective. */
  datatype Payload = Payload(payBy: PaymentMethod, receiptId: Option<string>, expectedTotal: int, details: string)

  datatype Order = Order(
    key: string,
    payload: Payload,
    cartId: string,
    deadline: Option<int>,
    fulfillment: Fulfillment,
    payment: Payment,
    total: int,
    couponId: Option<string>,
    couponReleased: bool,
    quantities: seq<int>)

  /** `start` is the usage count the coupon was entered with. */
  datatype Coupon = Coupon(limit: Option<int>, start: int, used: int)

  datatype CartStatus = Active | Ordered

  /** A cart with its items, and what they read of the catalogue; no item has quantity zero. */
  type CartRow = c: CartPricing.Cart | forall i :: 0 <= i < |c.items| ==> c.items[i].quantity > 0
    witness CartPricing.Cart("", "", [], None)

  datatype ReceiptStatus = PendingReview | Accepted | Rejected

  datatype Receipt = Receipt(cartId: string, orderId: Option<nat>, status: ReceiptStatus, expiresAt: Option<int>)

  datatype RefundRow = RefundRow(orderId: nat, amount: int, key: string)

  datatype ReturnRow = ReturnRow(orderId: nat, item: nat, quantity: int)

  /** Where a checkout request stands between its separate database calls. */
  datatype Phase =
    | Arrived
    | KeyUnknown
    | ReceiptTaken
    | Admitted(deadline: Option<int>)
    | KeyConflict
    | Done(orderId: nat)
    | Failed(error: ShopError)

  datatype Request = Request(cartId: string, key: string, payload: Payload, ttl: Option<nat>, phase: Phase)

  datatype Tables = Tables(
    room: Stockroom.Room,
    orders: seq<Order>,
    coupons: map<string, Coupon>,
    carts: map<string, CartStatus>,
    receipts: map<string, Receipt>,
    refunds: seq<RefundRow>,
    itemReturns: seq<ReturnRow>,
    requests: seq<Request>,
    expiring: seq<nat>,
    now: int,
    contents: map<string, CartRow>)

  datatype ShopError =
    | NotFound
    | BadRequest
    | IdempotencyKeyReused
    | ReceiptNotFound
    | ReceiptAlreadyAttached
    | ReceiptExpired
    | CartAlreadyOrdered
    | NotPlaced
    | CouponLimitReached
    | InsufficientStock
    | InvalidTransition
    | PaymentNotConfirmed
    | StockReservationLost
    | CannotConsume
    | NoPendingReceipt
    | UseRefundsEndpoint
    | RefundExceedsPaid
    | ReturnExceedsPurchased

  datatype Result<T> = Ok(value: T) | Err(error: ShopError)

  /** A transaction commits its result, or rolls back. */
  function Commit(t: Tables, result: Result<Tables>): Tables {
    if result.Ok? then result.value else t
  }

  // ------------------------------------------------------------ lookups

  function OrderOfKey(orders: seq<Order>, key: string): (o: nat)
    ensures o <= |orders|
    ensures o < |orders| ==> orders[o].key == key
    ensures forall i :: 0 <= i < o ==> orders[i].key != key
  {
    if orders == [] || orders[0].key == key then 0 else 1 + OrderOfKey(orders[1..], key)
  }

  function OrderOfCart(orders: seq<Order>, cartId: string): (o: nat)
    ensures o <= |orders|
    ensures o < |orders| ==> orders[o].cartId == cartId
    ensures forall i :: 0 <= i < o ==> orders[i].cartId != cartId
  {
    if orders == [] || orders[0].cartId == cartId then 0 else 1 + OrderOfCart(orders[1..], cartId)
  }

  function RefundOfKey(refunds: seq<RefundRow>, key: string): (i: nat)
    ensures i <= |refunds|
    ensures i < |refunds| ==> refunds[i].key == key
    ensures forall j :: 0 <= j < i ==> refunds[j].key != key
  {
    if refunds == [] || refunds[0].key == key then 0 else 1 + RefundOfKey(refunds[1..], key)
  }

  // ------------------------------------------------------------ checkout requests

  function WithPhase(t: Tables, r: nat, phase: Phase): Tables
    requires r < |t.requests|
  {
    t.(requests := t.requests[r := t.requests[r].(phase := phase)])
  }

  /** First read: an order that already has the key is returned or refused. */
  function LookUpKey(t: Tables, q: Request): Phase {
    var o := OrderOfKey(t.orders, q.key);
    if o == |t.orders| then KeyUnknown
    else if t.orders[o].cartId != q.cartId || t.orders[o].payload != q.payload then Failed(IdempotencyKeyReused)
    else Done(o)
  }

  predicate WellFormed(p: Payload) { p.payBy.InstaPay? <==> p.receiptId.Some? }

  function DeadlineAt(now: int, ttl: Option<nat>): Option<int> {
    if ttl.Some? then Some(now + ttl.value) else None
  }

  /** Structural checks and the receipt pre-check; the deadline is fixed here. */
  function CheckReceipt(t: Tables, q: Request): Phase {
    if !WellFormed(q.payload) then Failed(BadRequest)
    else if q.payload.receiptId.None? then Admitted(DeadlineAt(t.now, q.ttl))
    else
      var id := q.payload.receiptId.value;
      if id !in t.receipts || t.receipts[id].cartId != q.cartId then Failed(ReceiptNotFound)
      else if t.receipts[id].orderId.Some? then ReceiptTaken
      else if t.receipts[id].expiresAt.Some? && t.receipts[id].expiresAt.value < t.now then Failed(ReceiptExpired)
      else Admitted(DeadlineAt(t.now, q.ttl))
  }

  /** The receipt was taken: perhaps by this very request's twin. */
  function RecoverByCart(t: Tables, q: Request): Phase {
    var o := OrderOfCart(t.orders, q.cartId);
    if o < |t.orders| && t.orders[o].key == q.key && t.orders[o].payload == q.payload then Done(o)
    else Failed(ReceiptAlreadyAttached)
  }

  /** The unique key constraint failed: another order won the key. */
  function RecoverByKey(t: Tables, q: Request): Phase {
    var o := OrderOfKey(t.orders, q.key);
    if o < |t.orders| && t.orders[o].cartId == q.cartId && t.orders[o].payload == q.payload then Done(o)
    else Failed(IdempotencyKeyReused)
  }

  /** The cart could not be claimed: it does not exist, or already became an order. */
  function ClaimLost(t: Tables, q: Request): Phase {
    var o := OrderOfCart(t.orders, q.cartId);
    if q.cartId !in t.carts then Failed(NotFound)
    else if o < |t.orders| && t.orders[o].key == q.key then
      if t.orders[o].payload == q.payload then Done(o) else Failed(IdempotencyKeyReused)
    else Failed(CartAlreadyOrdered)
  }

  predicate CouponFree(t: Tables, couponId: Option<string>) {
    couponId.Some? ==>
      && couponId.value in t.coupons
      && (t.coupons[couponId.value].limit.Some? ==> t.coupons[couponId.value].used < t.coupons[couponId.value].limit.value)
  }

  predicate CanAttach(t: Tables, q: Request) {
    q.payload.receiptId.Some? ==>
      var id := q.payload.receiptId.value;
      && id in t.receipts && t.receipts[id].cartId == q.cartId && t.receipts[id].orderId.None?
      && (t.receipts[id].expiresAt.None? || t.receipts[id].expiresAt.value > t.now)
  }

  function UseCoupon(coupons: map<string, Coupon>, couponId: Option<string>): map<string, Coupon> {
    if couponId.Some? && couponId.value in coupons
    then coupons[couponId.value := coupons[couponId.value].(used := coupons[couponId.value].used + 1)]
    else coupons
  }

  function Attach(receipts: map<string, Receipt>, receiptId: Option<string>, o: nat): map<string, Receipt> {
    if receiptId.Some? && receiptId.value in receipts
    then receipts[receiptId.value := receipts[receiptId.value].(orderId := Some(o), expiresAt := None)]
    else receipts
  }

  function Quantities(items: seq<OrderLines.OrderItem>): seq<int> {
    seq(|items|, i requires 0 <= i < |items| => items[i].quantity)
  }

  function NewOrder(q: Request, deadline: Option<int>, placed: OrderLines.PlacedOrder): Order {
    Order(q.key, q.payload, q.cartId, deadline, Pending, Unpaid, placed.total, placed.couponId, false, Quantities(placed.items))
  }

  /** What a cart holds; a cart that was never filled holds nothing. */
  function ContentsOf(contents: map<string, CartRow>, cartId: string): CartRow {
    if cartId in contents then contents[cartId] else CartPricing.Cart(cartId, "", [], None)
  }

  /** What the checkout transaction reads besides its cart: the active bundles, the shipping rate, and the clock,
      once to price the cart and once more to validate its coupon. */
  datatype Reading = Reading(bundles: seq<BundlePricing.Bundle>, rate: OrderLines.ShippingRate, pricedAt: int, validatedAt: int)

  /** Pricing with these readings, as a function of the cart and of the total the customer expects. */
  function PricingWith(reading: Reading): (CartRow, int) -> OrderLines.Placement {
    (cart: CartRow, expectedTotal: int) =>
      OrderLines.PlaceOrder(cart, reading.bundles, reading.pricedAt, reading.validatedAt, reading.rate, expectedTotal)
  }

  /** What a pricing makes of the request's cart. */
  function Priced(t: Tables, r: nat, price: (CartRow, int) -> OrderLines.Placement): OrderLines.Placement
    requires r < |t.requests|
  {
    price(ContentsOf(t.contents, t.requests[r].cartId), t.requests[r].payload.expectedTotal)
  }

  /** An order that is placed has everything the protocol relies on. */
  lemma {:induction false} PricedIsOrderable(t: Tables, r: nat, reading: Reading)
    requires r < |t.requests|
    ensures var placement := Priced(t, r, PricingWith(reading)); placement.Placed? ==> OrderLines.Orderable(placement.order)
  {
    if Priced(t, r, PricingWith(reading)).Placed? {
      OrderLines.PlacedOrdersAreOrderable(ContentsOf(t.contents, t.requests[r].cartId), reading.bundles, reading.pricedAt,
                                          reading.validatedAt, reading.rate, t.requests[r].payload.expectedTotal);
    }
  }

  /** The checkout transaction of an admitted request: claims the cart, prices it afresh (`placement`
      is what the pricing makes of it), uses the coupon, creates the order, attaches the
      receipt, reserves the stock. */
  function Transact(t: Tables, r: nat, placement: OrderLines.Placement): Tables
    requires r < |t.requests| && t.requests[r].phase.Admitted?
  {
    var q := t.requests[r];
    if q.cartId !in t.carts || t.carts[q.cartId] != Active then WithPhase(t, r, ClaimLost(t, q))
    else if placement.Refused? then WithPhase(t, r, Failed(NotPlaced))
    else if !CouponFree(t, placement.order.couponId) then WithPhase(t, r, Failed(CouponLimitReached))
    else if OrderOfKey(t.orders, q.key) < |t.orders| then WithPhase(t, r, KeyConflict)
    else if !CanAttach(t, q) then WithPhase(t, r, Failed(ReceiptAlreadyAttached))
    else
      var reserved := Stockroom.ReserveAll(t.room, Stockroom.Aggregate(placement.order.stockLines), |t.orders|, DeadlineAt(t.now, q.ttl));
      if reserved.None? then WithPhase(t, r, Failed(InsufficientStock))
      else WithPhase(Placed(t, q, placement.order, reserved.value), r, Done(|t.orders|))
  }

  function Placed(t: Tables, q: Request, placed: OrderLines.PlacedOrder, room: Stockroom.Room): Tables
    requires q.phase.Admitted?
  {
    t.(room := room,
       orders := t.orders + [NewOrder(q, q.phase.deadline, placed)],
       coupons := UseCoupon(t.coupons, placed.couponId),
       carts := t.carts[q.cartId := Ordered],
       receipts := Attach(t.receipts, q.payload.receiptId, |t.orders|))
  }

  /** A request's next own database call. */
  function Proceed(t: Tables, r: nat, placement: OrderLines.Placement): Tables
    requires r < |t.requests|
  {
    var q := t.requests[r];
    match q.phase
    case Arrived => WithPhase(t, r, LookUpKey(t, q))
    case KeyUnknown => WithPhase(t, r, CheckReceipt(t, q))
    case ReceiptTaken => WithPhase(t, r, RecoverByCart(t, q))
    case Admitted(_) => Transact(t, r, placement)
    case KeyConflict => WithPhase(t, r, RecoverByKey(t, q))
    case Done(_) => t
    case Failed(_) => t
  }

  // ------------------------------------------------------------ fulfilment

  predicate MayFulfil(from: Fulfillment, to: Fulfillment) {
    match from
    case Pending => to == Confirmed || to == Cancelled
    case Confirmed => to == Preparing || to == Cancelled
    case Preparing => to == Shipped || to == Cancelled
    case Shipped => to == Delivered
    case Delivered => false
    case Cancelled => false
  }

  predicate NeverPaid(p: Payment) { p == Unpaid || p == AwaitingPayment || p == PaymentFailed }

  predicate ReleasesCoupon(order: Order) {
    order.couponId.Some? && !order.couponReleased && NeverPaid(order.payment)
  }

  /** GREATEST(usageCount - 1, 0). */
  function GiveCouponBack(coupons: map<string, Coupon>, couponId: Option<string>): map<string, Coupon> {
    if couponId.Some? && couponId.value in coupons then
      var c := coupons[couponId.value];
      coupons[couponId.value := c.(used := if c.used - 1 > 0 then c.used - 1 else 0)]
    else coupons
  }

  function WithOrder(t: Tables, o: nat, order: Order): Tables
    requires o < |t.orders|
  {
    t.(orders := t.orders[o := order])
  }

  function UpdateFulfillment(t: Tables, o: nat, target: Fulfillment): Result<Tables> {
    if o >= |t.orders| then Err(NotFound)
    else
      var order := t.orders[o];
      if order.fulfillment == target then Ok(t)
      else if !MayFulfil(order.fulfillment, target) then Err(InvalidTransition)
      else if target == Preparing && order.payload.payBy.InstaPay? && order.payment != Paid then Err(PaymentNotConfirmed)
      else if target == Confirmed then
        if Stockroom.CommitmentLost(t.room.reservations, o) then Err(StockReservationLost)
        else Ok(WithOrder(t, o, order.(fulfillment := Confirmed)).(room := t.room.(reservations := Stockroom.Pin(t.room.reservations, o))))
      else if target == Cancelled then Ok(CancelByStaff(t, o))
      else Ok(WithOrder(t, o, order.(fulfillment := target)))
  }

  function CancelByStaff(t: Tables, o: nat): Tables
    requires o < |t.orders|
  {
    var order := t.orders[o];
    var releases := ReleasesCoupon(order);
    t.(room := Stockroom.ReleaseAll(t.room, Stockroom.ActiveIds(t.room.reservations, o), Stockroom.Released),
       orders := t.orders[o := order.(fulfillment := Cancelled, couponReleased := order.couponReleased || releases)],
       coupons := if releases then GiveCouponBack(t.coupons, order.couponId) else t.coupons)
  }

  // ------------------------------------------------------------ payment

  predicate MayPay(from: Payment, to: Payment) {
    match from
    case Unpaid => to == AwaitingPayment || to == Paid || to == PaymentFailed
    case AwaitingPayment => to == Paid || to == PaymentFailed
    case PaymentFailed => to == AwaitingPayment || to == Paid
    case Paid => to == PartiallyRefunded || to == Refunded
    case PartiallyRefunded => to == Refunded
    case Refunded => false
  }

  predicate Reviewable(r: Receipt, o: nat) { r.orderId == Some(o) && r.status == PendingReview }

  /** Every receipt of the order still under review becomes accepted. */
  function AcceptPending(receipts: map<string, Receipt>, o: nat): (accepted: map<string, Receipt>)
    ensures accepted.Keys == receipts.Keys
    ensures forall id :: id in receipts ==>
              accepted[id] == if Reviewable(receipts[id], o) then receipts[id].(status := Accepted) else receipts[id]
  {
    map id | id in receipts :: if Reviewable(receipts[id], o) then receipts[id].(status := Accepted) else receipts[id]
  }

  predicate HasPending(receipts: map<string, Receipt>, o: nat) { exists id :: id in receipts && Reviewable(receipts[id], o) }

  function UpdatePayment(t: Tables, o: nat, target: Payment): Result<Tables> {
    if target == PartiallyRefunded || target == Refunded then Err(UseRefundsEndpoint)
    else if o >= |t.orders| then Err(NotFound)
    else
      var order := t.orders[o];
      if order.payment == target then Ok(t)
      else if order.fulfillment == Cancelled then Err(InvalidTransition)
      else if !MayPay(order.payment, target) then Err(InvalidTransition)
      else if target == Paid then MarkPaid(t, o)
      else Ok(WithOrder(t, o, order.(payment := target)))
  }

  function MarkPaid(t: Tables, o: nat): Result<Tables>
    requires o < |t.orders|
  {
    if Stockroom.CommitmentLost(t.room.reservations, o) then Err(StockReservationLost)
    else
      var consumed := Stockroom.ConsumeAll(t.room, Stockroom.ActiveIds(t.room.reservations, o));
      if consumed.None? then Err(CannotConsume)
      else if t.orders[o].payload.payBy.InstaPay? && !HasPending(t.receipts, o) then Err(NoPendingReceipt)
      else
        Ok(WithOrder(t, o, t.orders[o].(payment := Paid)).(
             room := consumed.value,
             receipts := if t.orders[o].payload.payBy.InstaPay? then AcceptPending(t.receipts, o) else t.receipts))
  }

  // ------------------------------------------------------------ expiry

  predicate ExpiryCandidate(order: Order, now: int) {
    && order.fulfillment == Pending && order.payment == Unpaid
    && order.deadline.Some? && order.deadline.value < now
  }

  /** The sweep's selection: ids whose deadline has passed, to be cancelled one by one later. */
  function Candidates(orders: seq<Order>, now: int): (ids: seq<nat>)
    ensures forall id :: id in ids ==> id < |orders| && ExpiryCandidate(orders[id], now)
  {
    if orders == [] then []
    else
      var n := |orders| - 1;
      var before := Candidates(orders[..n], now);
      if ExpiryCandidate(orders[n], now) then before + [n] else before
  }

  /** The locked transaction rechecks the statuses, not the deadline. */
  function CancelDueToExpiry(t: Tables, o: nat): Tables {
    if o >= |t.orders| || t.orders[o].fulfillment != Pending || t.orders[o].payment != Unpaid then t
    else
      var order := t.orders[o];
      t.(orders := t.orders[o := order.(fulfillment := Cancelled, couponReleased := order.couponReleased || order.couponId.Some?)],
         room := Stockroom.ReleaseAll(t.room, Stockroom.ActiveIds(t.room.reservations, o), Stockroom.Expired),
         coupons := if order.couponId.Some? && !order.couponReleased then GiveCouponBack(t.coupons, order.couponId) else t.coupons)
  }

  // ------------------------------------------------------------ receipts

  /** Uploads for a cart are unattached; replacements come attached. The eligibility checks around
      both are advisory under concurrency, so neither is assumed here. */
  function AddReceipt(t: Tables, id: string, receipt: Receipt): Tables {
    if id in t.receipts then t else t.(receipts := t.receipts[id := receipt])
  }

  function RejectReceipt(t: Tables, o: nat, id: string): Result<Tables> {
    if id in t.receipts && Reviewable(t.receipts[id], o)
    then Ok(t.(receipts := t.receipts[id := t.receipts[id].(status := Rejected)]))
    else if id !in t.receipts || t.receipts[id].orderId != Some(o) then Err(NotFound)
    else Err(InvalidTransition)
  }

  predicate Disposable(r: Receipt, now: int) { r.orderId.None? && r.expiresAt.Some? && r.expiresAt.value < now }

  function DeleteReceipt(t: Tables, id: string): Tables {
    if id in t.receipts && Disposable(t.receipts[id], t.now) then t.(receipts := t.receipts - {id}) else t
  }

  // ------------------------------------------------------------ refunds and returns

  function RefundOn(o: nat): RefundRow -> int { (r: RefundRow) => if r.orderId == o then r.amount else 0 }

  /** A key seen before replays; otherwise the order must be paid, the currency its own, and the
      refunds within its total. */
  function RecordRefund(t: Tables, o: nat, amount: int, sameCurrency: bool, key: string): Result<Tables> {
    if amount < 1 then Err(BadRequest)
    else if o >= |t.orders| then Err(NotFound)
    else
      var existing := RefundOfKey(t.refunds, key);
      if existing < |t.refunds| then
        if t.refunds[existing].orderId != o then Err(IdempotencyKeyReused) else Ok(t)
      else if t.orders[o].payment != Paid && t.orders[o].payment != PartiallyRefunded then Err(InvalidTransition)
      else if !sameCurrency then Err(BadRequest)
      else
        var newTotal := SumBy(t.refunds, RefundOn(o)) + amount;
        if newTotal > t.orders[o].total then Err(RefundExceedsPaid)
        else
          var payment := if newTotal >= t.orders[o].total then Refunded else PartiallyRefunded;
          Ok(WithOrder(t, o, t.orders[o].(payment := payment)).(refunds := t.refunds + [RefundRow(o, amount, key)]))
  }

  function ReturnOn(o: nat, item: nat): ReturnRow -> int {
    (r: ReturnRow) => if r.orderId == o && r.item == item then r.quantity else 0
  }

  function RecordReturn(t: Tables, o: nat, item: nat, quantity: int): Result<Tables> {
    if quantity < 1 then Err(BadRequest)
    else if o >= |t.orders| || item >= |t.orders[o].quantities| then Err(NotFound)
    else if SumBy(t.itemReturns, ReturnOn(o, item)) + quantity > t.orders[o].quantities[item] then Err(ReturnExceedsPurchased)
    else Ok(t.(itemReturns := t.itemReturns + [ReturnRow(o, item, quantity)]))
  }

  // ------------------------------------------------------------ steps and runs

  datatype Step =
    | Wait(time: nat)
    | CreateCart(cartId: string)
    | ChangeCart(changed: string, held: CartRow)
    | CreateCoupon(couponId: string, limit: Option<int>, start: nat)
    | CreateItem(stockItemId: string, opening: nat)
    | AdjustStock(adjusted: string, delta: int)
    | UploadReceipt(upload: string, forCart: string, retention: nat)
    | ReplaceReceipt(replacement: string, forOrder: nat)
    | Reject(rejectedFor: nat, rejected: string)
    | DeleteExpiredReceipt(deleted: string)
    | Submit(request: Request)
    | RequestStep(r: nat, price: (CartRow, int) -> OrderLines.Placement)
    | SetFulfillment(fulfilled: nat, fulfillment: Fulfillment)
    | SetPayment(paid: nat, payment: Payment)
    | Refund(refunded: nat, amount: int, sameCurrency: bool, refundKey: string)
    | Return(returned: nat, item: nat, quantity: int)
    | SelectExpired
    | CancelExpired(candidate: nat)
    | ReleaseExpired(reservation: nat)

  /** What the callers make sure of: requests come in as such, and are priced by the shop's pricing. */
  ghost predicate Sensible(step: Step) {
    && (step.RequestStep? ==> exists reading :: step.price == PricingWith(reading))
    && (step.CreateCoupon? && step.limit.Some? ==> step.start <= step.limit.value)
    && (step.Submit? ==> step.request.phase == Arrived)
  }

  lemma {:induction false} SensiblePricing(t: Tables, step: Step)
    requires Sensible(step) && step.RequestStep? && step.r < |t.requests|
    ensures var placement := Priced(t, step.r, step.price); placement.Placed? ==> OrderLines.Orderable(placement.order)
  {
    var reading :| step.price == PricingWith(reading);
    PricedIsOrderable(t, step.r, reading);
  }

  function Next(t: Tables, step: Step): Tables {
    match step
    case Wait(time) => t.(now := t.now + time)
    case CreateCart(id) => if id in t.carts then t else t.(carts := t.carts[id := Active])
    case ChangeCart(id, held) => t.(contents := t.contents[id := held.(id := id)])
    case CreateCoupon(id, limit, start) => if id in t.coupons then t else t.(coupons := t.coupons[id := Coupon(limit, start, start)])
    case CreateItem(id, opening) => t.(room := Stockroom.CreateItem(t.room, id, opening))
    case AdjustStock(id, delta) => t.(room := Stockroom.Adjust(t.room, id, delta))
    case UploadReceipt(id, cartId, retention) => AddReceipt(t, id, Receipt(cartId, None, PendingReview, Some(t.now + retention)))
    case ReplaceReceipt(id, o) =>
      if o < |t.orders| then AddReceipt(t, id, Receipt(t.orders[o].cartId, Some(o), PendingReview, None)) else t
    case Reject(o, id) => Commit(t, RejectReceipt(t, o, id))
    case DeleteExpiredReceipt(id) => DeleteReceipt(t, id)
    case Submit(request) => t.(requests := t.requests + [request])
    case RequestStep(r, price) => if r < |t.requests| then Proceed(t, r, Priced(t, r, price)) else t
    case SetFulfillment(o, target) => Commit(t, UpdateFulfillment(t, o, target))
    case SetPayment(o, target) => Commit(t, UpdatePayment(t, o, target))
    case Refund(o, amount, sameCurrency, key) => Commit(t, RecordRefund(t, o, amount, sameCurrency, key))
    case Return(o, item, quantity) => Commit(t, RecordReturn(t, o, item, quantity))
    case SelectExpired => t.(expiring := t.expiring + Candidates(t.orders, t.now))
    case CancelExpired(id) => if id in t.expiring then CancelDueToExpiry(t, id) else t
    case ReleaseExpired(id) => t.(room := Stockroom.ReleaseIfStillExpired(t.room, id, t.now))
  }

  function Run(t: Tables, steps: seq<Step>): Tables
    decreases |steps|
  {
    if steps == [] then t else Run(Next(t, steps[0]), steps[1..])
  }

  const EMPTY := Tables(Stockroom.Room(map[], [], []), [], map[], map[], map[], [], [], [], [], 0, map[])

  ghost predicate AllSensible(steps: seq<Step>) { forall i :: 0 <= i < |steps| ==> Sensible(steps[i]) }
}

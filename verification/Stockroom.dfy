/** Stock counters, reservations and movements, and the conditional updates that move them
    (src/modules/inventory). A reservation's id is its position in the table. */
module Stockroom {
  import opened Options
  import opened Sums

  /** `opening` is the quantity on hand the item was created with. */
  datatype StockItem = StockItem(onHand: int, reserved: int, opening: int)

  datatype ReservationStatus = Active | Consumed | Released | Expired

  datatype Reservation = Reservation(stockItemId: string, orderId: nat, quantity: int, status: ReservationStatus, expiresAt: Option<int>)

  datatype Movement = Movement(stockItemId: string, delta: int)

  datatype Room = Room(stock: map<string, StockItem>, reservations: seq<Reservation>, movements: seq<Movement>)

  datatype StockLine = StockLine(stockItemId: string, quantity: int)

  // ------------------------------------------------------------ reserving

  /** Adds a line to the aggregated demand: extend its item's entry, or append one. */
  function AddLine(demand: seq<StockLine>, line: StockLine): seq<StockLine> {
    if demand == [] then [line]
    else if demand[0].stockItemId == line.stockItemId then
      [StockLine(line.stockItemId, demand[0].quantity + line.quantity)] + demand[1..]
    else [demand[0]] + AddLine(demand[1..], line)
  }

  /** All lines, one entry per stock item, in order of first appearance. */
  function Aggregate(lines: seq<StockLine>): seq<StockLine> {
    if lines == [] then []
    else AddLine(Aggregate(lines[..|lines| - 1]), lines[|lines| - 1])
  }

  predicate CanReserve(room: Room, line: StockLine) {
    && line.stockItemId in room.stock
    && room.stock[line.stockItemId].onHand - room.stock[line.stockItemId].reserved >= line.quantity
  }

  function Hold(room: Room, line: StockLine, orderId: nat, expiresAt: Option<int>): Room
    requires line.stockItemId in room.stock
  {
    var item := room.stock[line.stockItemId];
    room.(stock := room.stock[line.stockItemId := item.(reserved := item.reserved + line.quantity)],
          reservations := room.reservations + [Reservation(line.stockItemId, orderId, line.quantity, Active, expiresAt)])
  }

  /** One conditional update per entry; the first that fails rolls everything back. */
  function ReserveAll(room: Room, demand: seq<StockLine>, orderId: nat, expiresAt: Option<int>): Option<Room>
    decreases |demand|
  {
    if demand == [] then Some(room)
    else if !CanReserve(room, demand[0]) then None
    else ReserveAll(Hold(room, demand[0], orderId, expiresAt), demand[1..], orderId, expiresAt)
  }

  // ------------------------------------------------------------ consuming and releasing

  function IsActive(room: Room, id: nat): bool {
    id < |room.reservations| && room.reservations[id].status == Active
  }

  function WithStatus(room: Room, id: nat, status: ReservationStatus): seq<Reservation>
    requires id < |room.reservations|
  {
    room.reservations[id := room.reservations[id].(status := status)]
  }

  predicate CanConsume(room: Room, id: nat) {
    && IsActive(room, id)
    && var r := room.reservations[id];
    && r.stockItemId in room.stock
    && room.stock[r.stockItemId].onHand >= r.quantity
    && room.stock[r.stockItemId].reserved >= r.quantity
  }

  function Consume(room: Room, id: nat): Room
    requires CanConsume(room, id)
  {
    var r := room.reservations[id];
    var item := room.stock[r.stockItemId];
    Room(room.stock[r.stockItemId := item.(onHand := item.onHand - r.quantity, reserved := item.reserved - r.quantity)],
         WithStatus(room, id, Consumed),
         room.movements + [Movement(r.stockItemId, -r.quantity)])
  }

  function ConsumeAll(room: Room, ids: seq<nat>): Option<Room>
    decreases |ids|
  {
    if ids == [] then Some(room)
    else if !CanConsume(room, ids[0]) then None
    else ConsumeAll(Consume(room, ids[0]), ids[1..])
  }

  /** The counter follows only when it is large enough; otherwise the update affects no row. */
  function GiveBack(stock: map<string, StockItem>, r: Reservation): map<string, StockItem> {
    if r.stockItemId in stock && stock[r.stockItemId].reserved >= r.quantity then
      stock[r.stockItemId := stock[r.stockItemId].(reserved := stock[r.stockItemId].reserved - r.quantity)]
    else stock
  }

  function Release(room: Room, id: nat, status: ReservationStatus): Room {
    if !IsActive(room, id) then room
    else Room(GiveBack(room.stock, room.reservations[id]), WithStatus(room, id, status), room.movements)
  }

  function ReleaseAll(room: Room, ids: seq<nat>, status: ReservationStatus): Room
    decreases |ids|
  {
    if ids == [] then room else ReleaseAll(Release(room, ids[0], status), ids[1..], status)
  }

  /** Expired at the moment of the write: still active, and its deadline has passed. */
  predicate StillExpired(room: Room, id: nat, now: int) {
    IsActive(room, id) && room.reservations[id].expiresAt.Some? && room.reservations[id].expiresAt.value < now
  }

  function ReleaseIfStillExpired(room: Room, id: nat, now: int): Room {
    if StillExpired(room, id, now) then Release(room, id, Expired) else room
  }

  predicate ActiveFor(r: Reservation, orderId: nat) { r.orderId == orderId && r.status == Active }

  /** Ids of the order's active reservations, in table order. */
  function ActiveIds(reservations: seq<Reservation>, orderId: nat): (ids: seq<nat>)
    ensures forall id :: id in ids ==> id < |reservations| && ActiveFor(reservations[id], orderId)
    ensures forall id: nat :: id < |reservations| && ActiveFor(reservations[id], orderId) ==> id in ids
  {
    if reservations == [] then []
    else
      var n := |reservations| - 1;
      var before := ActiveIds(reservations[..n], orderId);
      if ActiveFor(reservations[n], orderId) then before + [n] else before
  }

  /** No expiry for the order's active reservations. */
  function Pin(reservations: seq<Reservation>, orderId: nat): (pinned: seq<Reservation>)
    ensures |pinned| == |reservations|
    ensures forall i :: 0 <= i < |reservations| ==>
              pinned[i] == if ActiveFor(reservations[i], orderId) then reservations[i].(expiresAt := None) else reservations[i]
  {
    seq(|reservations|, i requires 0 <= i < |reservations| =>
      if ActiveFor(reservations[i], orderId) then reservations[i].(expiresAt := None) else reservations[i])
  }

  // ------------------------------------------------------------ adjusting

  predicate CanAdjust(room: Room, id: string, delta: int) { id in room.stock && room.stock[id].onHand + delta >= 0 }

  function Adjust(room: Room, id: string, delta: int): Room {
    if !CanAdjust(room, id, delta) then room
    else room.(stock := room.stock[id := room.stock[id].(onHand := room.stock[id].onHand + delta)],
               movements := room.movements + [Movement(id, delta)])
  }

  function CreateItem(room: Room, id: string, onHand: nat): Room {
    if id in room.stock then room else room.(stock := room.stock[id := StockItem(onHand, 0, onHand)])
  }

  // ------------------------------------------------------------ coverage of an order

  function RequiredOf(orderId: nat, stockItemId: string): Reservation -> int {
    (r: Reservation) => if r.orderId == orderId && r.stockItemId == stockItemId then r.quantity else 0
  }

  predicate Standing(r: Reservation) { r.status == Active || r.status == Consumed }

  function CoveredOf(orderId: nat, stockItemId: string): Reservation -> int {
    (r: Reservation) => if r.orderId == orderId && r.stockItemId == stockItemId && Standing(r) then r.quantity else 0
  }

  /** Each stock item the order ever reserved is still covered in full. */
  predicate FullyCovered(reservations: seq<Reservation>, orderId: nat) {
    forall i :: 0 <= i < |reservations| && reservations[i].orderId == orderId ==>
      SumBy(reservations, CoveredOf(orderId, reservations[i].stockItemId))
      >= SumBy(reservations, RequiredOf(orderId, reservations[i].stockItemId))
  }

  predicate HasAny(reservations: seq<Reservation>, orderId: nat) {
    exists i :: 0 <= i < |reservations| && reservations[i].orderId == orderId
  }

  predicate HasConsumed(reservations: seq<Reservation>, orderId: nat) {
    exists i :: 0 <= i < |reservations| && reservations[i].orderId == orderId && reservations[i].status == Consumed
  }

  predicate CommitmentLost(reservations: seq<Reservation>, orderId: nat) {
    HasAny(reservations, orderId) && !FullyCovered(reservations, orderId)
  }

  ghost predicate PositiveQuantities(reservations: seq<Reservation>) {
    forall i :: 0 <= i < |reservations| ==> reservations[i].quantity > 0
  }

  ghost predicate ItemStanding(reservations: seq<Reservation>, orderId: nat, stockItemId: string) {
    forall i :: 0 <= i < |reservations| && reservations[i].orderId == orderId && reservations[i].stockItemId == stockItemId ==>
      Standing(reservations[i])
  }

  lemma {:induction false} UncoveredRowCosts(reservations: seq<Reservation>, orderId: nat, stockItemId: string)
    requires PositiveQuantities(reservations)
    ensures SumBy(reservations, CoveredOf(orderId, stockItemId)) <= SumBy(reservations, RequiredOf(orderId, stockItemId))
    ensures SumBy(reservations, CoveredOf(orderId, stockItemId)) == SumBy(reservations, RequiredOf(orderId, stockItemId))
         <==> ItemStanding(reservations, orderId, stockItemId)
  {
    if reservations != [] {
      var rest := reservations[1..];
      assert forall i :: 0 <= i < |rest| ==> rest[i] == reservations[i + 1];
      UncoveredRowCosts(rest, orderId, stockItemId);
    }
  }

  /** The aggregated comparison per stock item hides no lost row: the order is fully covered exactly
      when every reservation it ever had is active or consumed. */
  lemma {:induction false} CoverageIsPerReservation(reservations: seq<Reservation>, orderId: nat)
    requires PositiveQuantities(reservations)
    ensures FullyCovered(reservations, orderId)
       <==> forall i :: 0 <= i < |reservations| && reservations[i].orderId == orderId ==> Standing(reservations[i])
  {
    forall i | 0 <= i < |reservations| && reservations[i].orderId == orderId
      ensures SumBy(reservations, CoveredOf(orderId, reservations[i].stockItemId))
           >= SumBy(reservations, RequiredOf(orderId, reservations[i].stockItemId))
         <==> ItemStanding(reservations, orderId, reservations[i].stockItemId)
    {
      UncoveredRowCosts(reservations, orderId, reservations[i].stockItemId);
    }
  }

  // ------------------------------------------------------------ what the loops do to the rows

  function DemandOn(stockItemId: string): StockLine -> int {
    (l: StockLine) => if l.stockItemId == stockItemId then l.quantity else 0
  }

  ghost predicate DistinctItems(demand: seq<StockLine>) {
    forall i, j :: 0 <= i < j < |demand| ==> demand[i].stockItemId != demand[j].stockItemId
  }

  ghost predicate AllPositive(lines: seq<StockLine>) { forall i :: 0 <= i < |lines| ==> lines[i].quantity > 0 }

  ghost predicate Mentions(lines: seq<StockLine>, id: string) { exists i :: 0 <= i < |lines| && lines[i].stockItemId == id }

  lemma {:induction false} AddLineMerges(demand: seq<StockLine>, line: StockLine, id: string)
    requires DistinctItems(demand) && AllPositive(demand) && line.quantity > 0
    ensures var more := AddLine(demand, line);
      && DistinctItems(more) && AllPositive(more)
      && SumBy(more, DemandOn(id)) == SumBy(demand, DemandOn(id)) + DemandOn(id)(line)
      && (forall other :: Mentions(more, other) <==> Mentions(demand, other) || other == line.stockItemId)
  {
    var more := AddLine(demand, line);
    if demand == [] {
      SumOne(line, DemandOn(id));
      assert more[0] == line;
    } else if demand[0].stockItemId == line.stockItemId {
      assert more[1..] == demand[1..];
      forall other ensures Mentions(more, other) <==> Mentions(demand, other) || other == line.stockItemId {
        assert more[0].stockItemId == line.stockItemId;
        if Mentions(demand, other) {
          var i :| 0 <= i < |demand| && demand[i].stockItemId == other;
          assert more[i].stockItemId == other;
        }
      }
    } else {
      var rest := demand[1..];
      AddLineMerges(rest, line, id);
      assert more[1..] == AddLine(rest, line);
      forall other ensures Mentions(more, other) <==> Mentions(demand, other) || other == line.stockItemId {
        MentionsSplit(more, other);
        MentionsSplit(demand, other);
      }
      forall j | 0 < j < |more| ensures more[0].stockItemId != more[j].stockItemId {
        assert more[1..][j - 1] == more[j];
        assert Mentions(more[1..], more[j].stockItemId);
        if Mentions(rest, more[j].stockItemId) {
          var i :| 0 <= i < |rest| && rest[i].stockItemId == more[j].stockItemId;
          assert demand[i + 1] == rest[i];
        }
      }
    }
  }

  lemma {:induction false} MentionsSplit(lines: seq<StockLine>, id: string)
    requires lines != []
    ensures Mentions(lines, id) <==> lines[0].stockItemId == id || Mentions(lines[1..], id)
  {
    if Mentions(lines, id) && lines[0].stockItemId != id {
      var i :| 0 <= i < |lines| && lines[i].stockItemId == id;
      assert lines[1..][i - 1].stockItemId == id;
    }
  }

  /** Aggregating keeps each item's total demand and leaves one entry per item. */
  lemma {:induction false} AggregateKeepsDemand(lines: seq<StockLine>, id: string)
    requires AllPositive(lines)
    ensures var demand := Aggregate(lines);
      && DistinctItems(demand) && AllPositive(demand)
      && SumBy(demand, DemandOn(id)) == SumBy(lines, DemandOn(id))
      && (forall other :: Mentions(demand, other) <==> Mentions(lines, other))
  {
    if lines != [] {
      var n := |lines| - 1;
      AggregateKeepsDemand(lines[..n], id);
      AddLineMerges(Aggregate(lines[..n]), lines[n], id);
      assert lines == lines[..n] + [lines[n]];
      SumSnoc(lines[..n], lines[n], DemandOn(id));
      forall other ensures Mentions(lines, other) <==> Mentions(lines[..n], other) || other == lines[n].stockItemId {
        if Mentions(lines, other) && other != lines[n].stockItemId {
          var i :| 0 <= i < |lines| && lines[i].stockItemId == other;
          assert lines[..n][i].stockItemId == other;
        }
      }
    }
  }

  /** The new rows of a successful reservation. */
  ghost predicate Reserved(before: Room, after: Room, demand: seq<StockLine>, orderId: nat, expiresAt: Option<int>) {
    && |after.reservations| == |before.reservations| + |demand|
    && after.reservations[..|before.reservations|] == before.reservations
    && (forall i :: 0 <= i < |demand| ==>
          after.reservations[|before.reservations| + i] == Reservation(demand[i].stockItemId, orderId, demand[i].quantity, Active, expiresAt))
    && after.movements == before.movements
    && after.stock.Keys == before.stock.Keys
    && (forall id :: id in before.stock ==> after.stock[id].onHand == before.stock[id].onHand)
  }

  lemma {:induction false} ReserveAllAddsRows(room: Room, demand: seq<StockLine>, orderId: nat, expiresAt: Option<int>)
    ensures var r := ReserveAll(room, demand, orderId, expiresAt); r.Some? ==> Reserved(room, r.value, demand, orderId, expiresAt)
    decreases |demand|
  {
    if demand != [] && CanReserve(room, demand[0]) {
      var next := Hold(room, demand[0], orderId, expiresAt);
      ReserveAllAddsRows(next, demand[1..], orderId, expiresAt);
      var r := ReserveAll(room, demand, orderId, expiresAt);
      if r.Some? {
        var n := |room.reservations|;
        assert r.value.reservations[..n] == r.value.reservations[..n + 1][..n];
        assert r.value.reservations[n] == r.value.reservations[..n + 1][n];
        forall i | 0 <= i < |demand| ensures r.value.reservations[n + i]
          == Reservation(demand[i].stockItemId, orderId, demand[i].quantity, Active, expiresAt)
        {
          if i > 0 {
            assert demand[i] == demand[1..][i - 1];
          }
        }
      }
    }
  }

  ghost predicate Available(room: Room, id: string, quantity: int) {
    id in room.stock && room.stock[id].onHand - room.stock[id].reserved >= quantity
  }

  lemma {:induction false} ReserveAllIffEach(room: Room, demand: seq<StockLine>, orderId: nat, expiresAt: Option<int>)
    requires DistinctItems(demand)
    ensures ReserveAll(room, demand, orderId, expiresAt).Some?
       <==> forall i :: 0 <= i < |demand| ==> Available(room, demand[i].stockItemId, demand[i].quantity)
    decreases |demand|
  {
    if demand != [] && CanReserve(room, demand[0]) {
      var next := Hold(room, demand[0], orderId, expiresAt);
      ReserveAllIffEach(next, demand[1..], orderId, expiresAt);
      forall i | 1 <= i < |demand|
        ensures Available(room, demand[i].stockItemId, demand[i].quantity)
           <==> Available(next, demand[1..][i - 1].stockItemId, demand[1..][i - 1].quantity)
      {
        assert demand[0].stockItemId != demand[i].stockItemId;
      }
      if ReserveAll(room, demand, orderId, expiresAt).Some? {
        forall i | 0 <= i < |demand| ensures Available(room, demand[i].stockItemId, demand[i].quantity) {
          if i > 0 {
            assert Available(next, demand[1..][i - 1].stockItemId, demand[1..][i - 1].quantity);
          }
        }
      }
    }
  }

  lemma {:induction false} EntryIsDemand(demand: seq<StockLine>, i: nat)
    requires DistinctItems(demand) && i < |demand|
    ensures SumBy(demand, DemandOn(demand[i].stockItemId)) == demand[i].quantity
  {
    var f := DemandOn(demand[i].stockItemId);
    SumRemove(demand, i, f);
    SumZero(demand[..i] + demand[i + 1..], f);
  }

  /** A checkout's lines are reserved together or not at all: exactly when every stock item has enough
      available for all of its lines combined. */
  lemma {:induction false} ReservesIffAvailable(room: Room, lines: seq<StockLine>, orderId: nat, expiresAt: Option<int>)
    requires AllPositive(lines)
    ensures ReserveAll(room, Aggregate(lines), orderId, expiresAt).Some?
       <==> forall i :: 0 <= i < |lines| ==> Available(room, lines[i].stockItemId, SumBy(lines, DemandOn(lines[i].stockItemId)))
  {
    var demand := Aggregate(lines);
    AggregateKeepsDemand(lines, "");
    ReserveAllIffEach(room, demand, orderId, expiresAt);
    forall k | 0 <= k < |demand|
      ensures demand[k].quantity == SumBy(lines, DemandOn(demand[k].stockItemId)) && Mentions(lines, demand[k].stockItemId)
    {
      EntryIsDemand(demand, k);
      AggregateKeepsDemand(lines, demand[k].stockItemId);
      assert Mentions(demand, demand[k].stockItemId);
    }
    forall i | 0 <= i < |lines| ensures Mentions(demand, lines[i].stockItemId) {
      assert Mentions(lines, lines[i].stockItemId);
    }
  }

  /** The active rows among `ids` got the new status; nothing else changed. */
  ghost predicate Restated(before: seq<Reservation>, after: seq<Reservation>, ids: seq<nat>, status: ReservationStatus) {
    && |after| == |before|
    && forall i :: 0 <= i < |before| ==>
         after[i] == if i in ids && before[i].status == Active then before[i].(status := status) else before[i]
  }

  lemma {:induction false} ReleaseAllRestates(room: Room, ids: seq<nat>, status: ReservationStatus)
    requires status != Active
    ensures var after := ReleaseAll(room, ids, status);
      && Restated(room.reservations, after.reservations, ids, status)
      && after.movements == room.movements && after.stock.Keys == room.stock.Keys
      && (forall id :: id in room.stock ==> after.stock[id].onHand == room.stock[id].onHand)
    decreases |ids|
  {
    if ids != [] {
      ReleaseAllRestates(Release(room, ids[0], status), ids[1..], status);
      assert ids == [ids[0]] + ids[1..];
    }
  }

  lemma {:induction false} ConsumeAllRestates(room: Room, ids: seq<nat>)
    ensures var r := ConsumeAll(room, ids);
      r.Some? ==> Restated(room.reservations, r.value.reservations, ids, Consumed) && r.value.stock.Keys == room.stock.Keys
    decreases |ids|
  {
    if ids != [] && CanConsume(room, ids[0]) {
      ConsumeAllRestates(Consume(room, ids[0]), ids[1..]);
      assert ids == [ids[0]] + ids[1..];
    }
  }

  // ------------------------------------------------------------ the ledger invariant

  function HeldOn(stockItemId: string): Reservation -> int {
    (r: Reservation) => if r.stockItemId == stockItemId && r.status == Active then r.quantity else 0
  }

  function MovedOn(stockItemId: string): Movement -> int {
    (m: Movement) => if m.stockItemId == stockItemId then m.delta else 0
  }

  /** The item's counters agree with the rows behind them. */
  ghost predicate Accounted(room: Room, id: string)
    requires id in room.stock
  {
    && room.stock[id].reserved == SumBy(room.reservations, HeldOn(id))
    && room.stock[id].onHand == room.stock[id].opening + SumBy(room.movements, MovedOn(id))
    && room.stock[id].onHand >= 0
  }

  ghost predicate KnownItems(room: Room) {
    forall i :: 0 <= i < |room.reservations| ==> room.reservations[i].stockItemId in room.stock
  }

  ghost predicate NoStrayMovements(room: Room) {
    forall i :: 0 <= i < |room.movements| ==> room.movements[i].stockItemId in room.stock
  }

  ghost predicate Ledger(room: Room) {
    && PositiveQuantities(room.reservations)
    && KnownItems(room)
    && NoStrayMovements(room)
    && forall id :: id in room.stock ==> Accounted(room, id)
  }

  lemma {:induction false} HoldKeepsLedger(room: Room, line: StockLine, orderId: nat, expiresAt: Option<int>)
    requires Ledger(room) && line.stockItemId in room.stock && line.quantity > 0
    ensures Ledger(Hold(room, line, orderId, expiresAt))
  {
    var after := Hold(room, line, orderId, expiresAt);
    forall id | id in after.stock ensures Accounted(after, id) {
      assert Accounted(room, id);
      SumSnoc(room.reservations, Reservation(line.stockItemId, orderId, line.quantity, Active, expiresAt), HeldOn(id));
    }
  }

  lemma {:induction false} ReserveAllKeepsLedger(room: Room, demand: seq<StockLine>, orderId: nat, expiresAt: Option<int>)
    requires Ledger(room) && AllPositive(demand)
    ensures var r := ReserveAll(room, demand, orderId, expiresAt); r.Some? ==> Ledger(r.value)
    decreases |demand|
  {
    if demand != [] && CanReserve(room, demand[0]) {
      HoldKeepsLedger(room, demand[0], orderId, expiresAt);
      ReserveAllKeepsLedger(Hold(room, demand[0], orderId, expiresAt), demand[1..], orderId, expiresAt);
    }
  }

  /** Every active reservation is part of its item's counter, so releasing it never skips the decrement. */
  lemma {:induction false} ActiveIsHeld(room: Room, id: nat)
    requires Ledger(room) && IsActive(room, id)
    ensures var r := room.reservations[id]; r.stockItemId in room.stock && room.stock[r.stockItemId].reserved >= r.quantity
  {
    var r := room.reservations[id];
    assert r in room.reservations;
    assert Accounted(room, r.stockItemId);
    SumPositive(room.reservations, r, HeldOn(r.stockItemId));
  }

  lemma {:induction false} StatusChangesHeld(room: Room, id: nat, status: ReservationStatus, item: string)
    requires IsActive(room, id) && status != Active
    ensures SumBy(WithStatus(room, id, status), HeldOn(item))
         == SumBy(room.reservations, HeldOn(item)) - HeldOn(item)(room.reservations[id])
  {
    SumUpdate(room.reservations, id, room.reservations[id].(status := status), HeldOn(item));
  }

  lemma {:induction false} ReleaseKeepsLedger(room: Room, id: nat, status: ReservationStatus)
    requires Ledger(room) && status != Active
    ensures Ledger(Release(room, id, status))
  {
    if IsActive(room, id) {
      ActiveIsHeld(room, id);
      var after := Release(room, id, status);
      forall item | item in after.stock ensures Accounted(after, item) {
        assert Accounted(room, item);
        StatusChangesHeld(room, id, status, item);
      }
    }
  }

  lemma {:induction false} ReleaseAllKeepsLedger(room: Room, ids: seq<nat>, status: ReservationStatus)
    requires Ledger(room) && status != Active
    ensures Ledger(ReleaseAll(room, ids, status))
    decreases |ids|
  {
    if ids != [] {
      ReleaseKeepsLedger(room, ids[0], status);
      ReleaseAllKeepsLedger(Release(room, ids[0], status), ids[1..], status);
    }
  }

  lemma {:induction false} ConsumeKeepsLedger(room: Room, id: nat)
    requires Ledger(room) && CanConsume(room, id)
    ensures Ledger(Consume(room, id))
  {
    var r := room.reservations[id];
    var after := Consume(room, id);
    forall item | item in after.stock ensures Accounted(after, item) {
      assert Accounted(room, item);
      StatusChangesHeld(room, id, Consumed, item);
      SumSnoc(room.movements, Movement(r.stockItemId, -r.quantity), MovedOn(item));
    }
  }

  lemma {:induction false} ConsumeAllKeepsLedger(room: Room, ids: seq<nat>)
    requires Ledger(room)
    ensures var r := ConsumeAll(room, ids); r.Some? ==> Ledger(r.value)
    decreases |ids|
  {
    if ids != [] && CanConsume(room, ids[0]) {
      ConsumeKeepsLedger(room, ids[0]);
      ConsumeAllKeepsLedger(Consume(room, ids[0]), ids[1..]);
    }
  }

  lemma {:induction false} PinKeepsLedger(room: Room, orderId: nat)
    requires Ledger(room)
    ensures Ledger(room.(reservations := Pin(room.reservations, orderId)))
  {
    var after := room.(reservations := Pin(room.reservations, orderId));
    forall id | id in after.stock ensures Accounted(after, id) {
      assert Accounted(room, id);
      SumPointwise(after.reservations, room.reservations, HeldOn(id), HeldOn(id));
    }
  }

  lemma {:induction false} AdjustKeepsLedger(room: Room, id: string, delta: int)
    requires Ledger(room)
    ensures Ledger(Adjust(room, id, delta))
  {
    var after := Adjust(room, id, delta);
    forall item | item in after.stock ensures Accounted(after, item) {
      assert Accounted(room, item);
      SumSnoc(room.movements, Movement(id, delta), MovedOn(item));
    }
  }

  lemma {:induction false} CreateKeepsLedger(room: Room, id: string, onHand: nat)
    requires Ledger(room)
    ensures Ledger(CreateItem(room, id, onHand))
  {
    var after := CreateItem(room, id, onHand);
    forall item | item in after.stock ensures Accounted(after, item) {
      if item in room.stock {
        assert Accounted(room, item);
      } else {
        SumZero(room.reservations, HeldOn(item));
        SumZero(room.movements, MovedOn(item));
      }
    }
  }

  // ------------------------------------------------------------ no overselling without shrinkage

  /** Every hold is backed by stock on hand. */
  ghost predicate Backed(room: Room) {
    forall id :: id in room.stock ==> room.stock[id].reserved <= room.stock[id].onHand
  }

  /** An adjustment keeps every hold backed exactly when it leaves enough on hand for the holds. */
  lemma {:induction false} AdjustKeepsBackedIff(room: Room, id: string, delta: int)
    requires Backed(room) && CanAdjust(room, id, delta)
    ensures Backed(Adjust(room, id, delta)) <==> room.stock[id].onHand + delta >= room.stock[id].reserved
  {
    var after := Adjust(room, id, delta);
    assert id in after.stock && after.stock[id].reserved == room.stock[id].reserved;
  }

  /** Consuming an active reservation is never refused while every hold is backed. */
  lemma {:induction false} BackedCanConsume(room: Room, id: nat)
    requires Ledger(room) && Backed(room) && IsActive(room, id)
    ensures CanConsume(room, id)
  {
    ActiveIsHeld(room, id);
  }

  lemma {:induction false} ReserveAllKeepsBacked(room: Room, demand: seq<StockLine>, orderId: nat, expiresAt: Option<int>)
    requires Backed(room)
    ensures var r := ReserveAll(room, demand, orderId, expiresAt); r.Some? ==> Backed(r.value)
    decreases |demand|
  {
    if demand != [] && CanReserve(room, demand[0]) {
      ReserveAllKeepsBacked(Hold(room, demand[0], orderId, expiresAt), demand[1..], orderId, expiresAt);
    }
  }

  lemma {:induction false} ReleaseKeepsBacked(room: Room, id: nat, status: ReservationStatus)
    requires Backed(room) && PositiveQuantities(room.reservations)
    ensures Backed(Release(room, id, status))
  {
  }

  lemma {:induction false} ReleaseAllKeepsBacked(room: Room, ids: seq<nat>, status: ReservationStatus)
    requires Backed(room) && PositiveQuantities(room.reservations)
    ensures Backed(ReleaseAll(room, ids, status))
    decreases |ids|
  {
    if ids != [] {
      ReleaseAllKeepsBacked(Release(room, ids[0], status), ids[1..], status);
    }
  }

  /** Active reservations of different ids are all consumed while every hold is backed. */
  lemma {:induction false} ConsumeAllSucceeds(room: Room, ids: seq<nat>)
    requires Ledger(room) && Backed(room)
    requires forall i :: 0 <= i < |ids| ==> IsActive(room, ids[i])
    requires Distinct(ids)
    ensures var r := ConsumeAll(room, ids); r.Some? && Backed(r.value)
    decreases |ids|
  {
    if ids != [] {
      BackedCanConsume(room, ids[0]);
      ConsumeKeepsLedger(room, ids[0]);
      var after := Consume(room, ids[0]);
      forall i | 0 <= i < |ids[1..]| ensures IsActive(after, ids[1..][i]) {
        assert IsActive(room, ids[i + 1]);
      }
      ConsumeAllSucceeds(after, ids[1..]);
    }
  }

  lemma {:induction false} ConsumeAllKeepsBacked(room: Room, ids: seq<nat>)
    requires Backed(room)
    ensures var r := ConsumeAll(room, ids); r.Some? ==> Backed(r.value)
    decreases |ids|
  {
    if ids != [] && CanConsume(room, ids[0]) {
      ConsumeAllKeepsBacked(Consume(room, ids[0]), ids[1..]);
    }
  }

  ghost predicate Distinct(ids: seq<nat>) { forall i, j :: 0 <= i < j < |ids| ==> ids[i] != ids[j] }

  lemma {:induction false} ActiveIdsDistinct(reservations: seq<Reservation>, orderId: nat)
    ensures Distinct(ActiveIds(reservations, orderId))
  {
    if reservations != [] {
      var n := |reservations| - 1;
      var before := ActiveIds(reservations[..n], orderId);
      ActiveIdsDistinct(reservations[..n], orderId);
      forall i | 0 <= i < |before| ensures before[i] < n {
        assert before[i] in before;
      }
    }
  }

  /** While every hold is backed, consuming an order's active reservations never fails. */
  lemma {:induction false} OrderCanBeConsumed(room: Room, orderId: nat)
    requires Ledger(room) && Backed(room)
    ensures ConsumeAll(room, ActiveIds(room.reservations, orderId)).Some?
  {
    var ids := ActiveIds(room.reservations, orderId);
    ActiveIdsDistinct(room.reservations, orderId);
    forall i | 0 <= i < |ids| ensures IsActive(room, ids[i]) {
      assert ids[i] in ids;
    }
    ConsumeAllSucceeds(room, ids);
  }

  /** A reservation whose deadline has passed is expired by the sweep, and its item gets back exactly its
      quantity; a pinned or later one is left alone. */
  lemma {:induction false} OverdueIsReleased(room: Room, id: nat, now: int)
    requires Ledger(room) && IsActive(room, id)
    ensures var r := room.reservations[id];
            var after := ReleaseIfStillExpired(room, id, now);
      && r.stockItemId in room.stock
      && if r.expiresAt.Some? && r.expiresAt.value < now
         then after.reservations[id].status == Expired
              && after.stock == room.stock[r.stockItemId := room.stock[r.stockItemId].(reserved := room.stock[r.stockItemId].reserved - r.quantity)]
         else after == room
  {
    ActiveIsHeld(room, id);
  }
}

/**
 * The stock reservation engine of inventoryManagement.cpp.
 *
 * An InventoryManager keeps three maps: the products with their available
 * count, the orders, and the stock blocked by orders not yet confirmed.
 * createOrder checks every line item before it reserves anything,
 * confirmOrder consumes a reservation for good, and releaseBlockedInventory
 * (the body the expiry thread runs after its sleep) hands an unconfirmed
 * reservation back and erases the order.
 *
 * The operations are first stated on a value, Ledger, holding the three
 * maps; the class InventoryManager performs them step by step, with the
 * loops of inventoryManagement.cpp, and its methods are proved to end in the state the value
 * functions describe.
 */
module Inventory {

  type ProductId = string
  type OrderId = string

  /** A reading of the steady clock; the model never looks inside it. */
  type Timestamp = int

  datatype Product = Product(name: string, inventoryCount: int)

  datatype Order = Order(productIds: seq<ProductId>, quantities: seq<int>, orderTime: Timestamp, confirmed: bool)

  /** The three maps of an InventoryManager as one value. */
  datatype Ledger = Ledger(
    inventory: map<ProductId, Product>,
    orders: map<OrderId, Order>,
    blockedInventory: map<ProductId, int>)

  /** What `inventory[id]` yields: the stored product, or the value-initialised
      product that `operator[]` inserts for an unknown id. */
  function ProductAt(inventory: map<ProductId, Product>, id: ProductId): Product
  {
    if id in inventory then inventory[id] else Product("", 0)
  }

  function Count(inventory: map<ProductId, Product>, id: ProductId): int
  {
    ProductAt(inventory, id).inventoryCount
  }

  /** What `blockedInventory[id]` yields: zero for an id never blocked. */
  function BlockedAt(blocked: map<ProductId, int>, id: ProductId): int
  {
    if id in blocked then blocked[id] else 0
  }

  /** Available plus blocked stock of one product. */
  function Held(s: Ledger, id: ProductId): int
  {
    Count(s.inventory, id) + BlockedAt(s.blockedInventory, id)
  }

  /** Every stored order has a quantity for each of its product ids; extra
      quantities are stored but never read. */
  ghost predicate WellFormed(s: Ledger)
  {
    forall id :: id in s.orders ==> |s.orders[id].productIds| <= |s.orders[id].quantities|
  }

  /** The order exists and is not confirmed: the only state in which confirm
      and release take effect. */
  predicate Pending(s: Ledger, orderId: OrderId)
  {
    orderId in s.orders && !s.orders[orderId].confirmed
  }

  // ---------------------------------------------------------------------
  // Line items
  // ---------------------------------------------------------------------

  function Signed(q: int, credit: bool): int
  {
    if credit then q else -q
  }

  /** The total quantity the line items ask of product p. */
  function QtyFor(ids: seq<ProductId>, qs: seq<int>, p: ProductId): int
    requires |ids| <= |qs|
    decreases |ids|
  {
    if ids == [] then 0
    else
      var k := |ids| - 1;
      QtyFor(ids[..k], qs, p) + (if ids[k] == p then qs[k] else 0)
  }

  /** No product id occurs twice among the line items. */
  predicate Distinct(ids: seq<ProductId>)
  {
    forall i, j :: 0 <= i < j < |ids| ==> ids[i] != ids[j]
  }

  /** `inventory[id]` evaluated for its effect alone: an unknown id gets a
      default entry, a known one is left as it is. */
  function Touch(inventory: map<ProductId, Product>, id: ProductId): map<ProductId, Product>
  {
    inventory[id := ProductAt(inventory, id)]
  }

  /** Touch applied to the ids in order. */
  function TouchAll(inventory: map<ProductId, Product>, ids: seq<ProductId>): map<ProductId, Product>
    decreases |ids|
  {
    if ids == [] then inventory
    else Touch(TouchAll(inventory, ids[..|ids| - 1]), ids[|ids| - 1])
  }

  /** `inventory[id].inventoryCount += delta`. */
  function AddStock(inventory: map<ProductId, Product>, id: ProductId, delta: int): map<ProductId, Product>
  {
    inventory[id := Product(ProductAt(inventory, id).name, Count(inventory, id) + delta)]
  }

  /** The stock loop over the line items: each count goes up (credit) or
      down by its quantity, one item after the other. */
  function ShiftStock(inventory: map<ProductId, Product>, ids: seq<ProductId>, qs: seq<int>, credit: bool): map<ProductId, Product>
    requires |ids| <= |qs|
    decreases |ids|
  {
    if ids == [] then inventory
    else
      var k := |ids| - 1;
      AddStock(ShiftStock(inventory, ids[..k], qs, credit), ids[k], Signed(qs[k], credit))
  }

  /** The blocked-stock loop over the line items. */
  function ShiftBlocked(blocked: map<ProductId, int>, ids: seq<ProductId>, qs: seq<int>, credit: bool): map<ProductId, int>
    requires |ids| <= |qs|
    decreases |ids|
  {
    if ids == [] then blocked
    else
      var k := |ids| - 1;
      var b := ShiftBlocked(blocked, ids[..k], qs, credit);
      b[ids[k] := BlockedAt(b, ids[k]) + Signed(qs[k], credit)]
  }

  // ---------------------------------------------------------------------
  // The availability check of createOrder
  // ---------------------------------------------------------------------

  /** Every line item, taken on its own, fits the available count. */
  predicate Fits(inventory: map<ProductId, Product>, ids: seq<ProductId>, qs: seq<int>)
    requires |ids| <= |qs|
  {
    forall i :: 0 <= i < |ids| ==> qs[i] <= Count(inventory, ids[i])
  }

  /** The index at which the check loop, started at `from`, stops: the first
      item asking for more than is available, or |ids| when all fit. */
  function ShortfallFrom(inventory: map<ProductId, Product>, ids: seq<ProductId>, qs: seq<int>, from: nat): (k: nat)
    requires |ids| <= |qs| && from <= |ids|
    ensures from <= k <= |ids|
    ensures forall i :: from <= i < k ==> qs[i] <= Count(inventory, ids[i])
    ensures k < |ids| ==> Count(inventory, ids[k]) < qs[k]
    decreases |ids| - from
  {
    if from == |ids| then from
    else if Count(inventory, ids[from]) < qs[from] then from
    else ShortfallFrom(inventory, ids, qs, from + 1)
  }

  /** The first item that does not fit, or |ids|; it is |ids| exactly when
      every item fits. */
  function FirstShortfall(inventory: map<ProductId, Product>, ids: seq<ProductId>, qs: seq<int>): (k: nat)
    requires |ids| <= |qs|
    ensures k <= |ids|
    ensures k == |ids| <==> Fits(inventory, ids, qs)
    ensures forall i :: 0 <= i < k ==> qs[i] <= Count(inventory, ids[i])
    ensures k < |ids| ==> Count(inventory, ids[k]) < qs[k]
  {
    ShortfallFrom(inventory, ids, qs, 0)
  }

  // ---------------------------------------------------------------------
  // The three order operations on a Ledger
  // ---------------------------------------------------------------------

  /** createOrder: all items fit, so every count drops, every blocked amount
      rises and the order is stored unconfirmed; or some item does not fit,
      and only the ids checked up to that item get default entries. */
  function AfterCreateOrder(s: Ledger, ids: seq<ProductId>, qs: seq<int>, orderId: OrderId, now: Timestamp): (r: Ledger)
    requires |ids| <= |qs|
    ensures WellFormed(s) ==> WellFormed(r)
  {
    var k := FirstShortfall(s.inventory, ids, qs);
    if k == |ids| then
      Ledger(ShiftStock(TouchAll(s.inventory, ids), ids, qs, false),
             s.orders[orderId := Order(ids, qs, now, false)],
             ShiftBlocked(s.blockedInventory, ids, qs, true))
    else
      s.(inventory := TouchAll(s.inventory, ids[..k + 1]))
  }

  /** confirmOrder: a pending order becomes confirmed and its quantities
      leave blocked stock; in every other case nothing changes. */
  function AfterConfirmOrder(s: Ledger, orderId: OrderId): (r: Ledger)
    requires WellFormed(s)
    ensures WellFormed(r)
    ensures r.inventory == s.inventory && r.orders.Keys == s.orders.Keys
    ensures orderId in s.orders ==> r.orders[orderId].confirmed
  {
    if Pending(s, orderId) then
      var o := s.orders[orderId];
      s.(orders := s.orders[orderId := o.(confirmed := true)],
         blockedInventory := ShiftBlocked(s.blockedInventory, o.productIds, o.quantities, false))
    else s
  }

  /** The expiry path: a pending order's quantities go back from blocked to
      available stock and the order is erased; in every other case nothing
      changes. */
  function AfterRelease(s: Ledger, orderId: OrderId): (r: Ledger)
    requires WellFormed(s)
    ensures WellFormed(r)
    ensures r.orders.Keys == if Pending(s, orderId) then s.orders.Keys - {orderId} else s.orders.Keys
  {
    if Pending(s, orderId) then
      var o := s.orders[orderId];
      Ledger(ShiftStock(s.inventory, o.productIds, o.quantities, true),
             s.orders - {orderId},
             ShiftBlocked(s.blockedInventory, o.productIds, o.quantities, false))
    else s
  }

  // ---------------------------------------------------------------------
  // What the loops do to one product
  // ---------------------------------------------------------------------

  lemma {:induction false} TouchAllAt(inventory: map<ProductId, Product>, ids: seq<ProductId>, p: ProductId)
    ensures p in TouchAll(inventory, ids) <==> p in inventory || p in ids
    ensures ProductAt(TouchAll(inventory, ids), p) == ProductAt(inventory, p)
    decreases |ids|
  {
    if ids != [] {
      var k := |ids| - 1;
      assert ids == ids[..k] + [ids[k]];
      TouchAllAt(inventory, ids[..k], p);
    }
  }

  lemma {:induction false} ShiftStockAt(inventory: map<ProductId, Product>, ids: seq<ProductId>, qs: seq<int>, credit: bool, p: ProductId)
    requires |ids| <= |qs|
    ensures p in ShiftStock(inventory, ids, qs, credit) <==> p in inventory || p in ids
    ensures ProductAt(ShiftStock(inventory, ids, qs, credit), p)
         == Product(ProductAt(inventory, p).name, Count(inventory, p) + Signed(QtyFor(ids, qs, p), credit))
    decreases |ids|
  {
    if ids != [] {
      var k := |ids| - 1;
      assert ids == ids[..k] + [ids[k]];
      ShiftStockAt(inventory, ids[..k], qs, credit, p);
    }
  }

  lemma {:induction false} ShiftBlockedAt(blocked: map<ProductId, int>, ids: seq<ProductId>, qs: seq<int>, credit: bool, p: ProductId)
    requires |ids| <= |qs|
    ensures p in ShiftBlocked(blocked, ids, qs, credit) <==> p in blocked || p in ids
    ensures BlockedAt(ShiftBlocked(blocked, ids, qs, credit), p) == BlockedAt(blocked, p) + Signed(QtyFor(ids, qs, p), credit)
    decreases |ids|
  {
    if ids != [] {
      var k := |ids| - 1;
      assert ids == ids[..k] + [ids[k]];
      ShiftBlockedAt(blocked, ids[..k], qs, credit, p);
    }
  }

  /** With distinct ids, a product's total demand is the quantity of its one
      line item. */
  lemma {:induction false} QtyForDistinct(ids: seq<ProductId>, qs: seq<int>, i: nat)
    requires |ids| <= |qs| && Distinct(ids) && i < |ids|
    ensures QtyFor(ids, qs, ids[i]) == qs[i]
    decreases |ids|
  {
    var k := |ids| - 1;
    if i < k {
      QtyForDistinct(ids[..k], qs, i);
    } else {
      QtyForAbsent(ids[..k], qs, ids[i]);
    }
  }

  lemma {:induction false} QtyForAbsent(ids: seq<ProductId>, qs: seq<int>, p: ProductId)
    requires |ids| <= |qs| && p !in ids
    ensures QtyFor(ids, qs, p) == 0
    decreases |ids|
  {
    if ids != [] {
      var k := |ids| - 1;
      assert ids == ids[..k] + [ids[k]];
      QtyForAbsent(ids[..k], qs, p);
    }
  }

  // ---------------------------------------------------------------------
  // Properties of the order operations
  // ---------------------------------------------------------------------

  /** A createOrder with an item that does not fit reserves nothing: orders
      and blocked stock are unchanged and every product keeps its name and
      count. Its one trace is the default entry that `operator[]` leaves for
      each unknown id checked up to the failing item. */
  lemma CreateOrderAllOrNothing(s: Ledger, ids: seq<ProductId>, qs: seq<int>, orderId: OrderId, now: Timestamp, p: ProductId)
    requires |ids| <= |qs| && !Fits(s.inventory, ids, qs)
    ensures var r := AfterCreateOrder(s, ids, qs, orderId, now);
      && r.orders == s.orders
      && r.blockedInventory == s.blockedInventory
      && ProductAt(r.inventory, p) == ProductAt(s.inventory, p)
      && (p in r.inventory <==> p in s.inventory || p in ids[..FirstShortfall(s.inventory, ids, qs) + 1])
  {
    var k := FirstShortfall(s.inventory, ids, qs);
    TouchAllAt(s.inventory, ids[..k + 1], p);
  }

  /** A createOrder whose items all fit moves each product's demanded
      quantity from available to blocked stock and stores the order
      unconfirmed. */
  lemma CreateOrderReserves(s: Ledger, ids: seq<ProductId>, qs: seq<int>, orderId: OrderId, now: Timestamp, p: ProductId)
    requires |ids| <= |qs| && Fits(s.inventory, ids, qs)
    ensures var r := AfterCreateOrder(s, ids, qs, orderId, now);
      && r.orders == s.orders[orderId := Order(ids, qs, now, false)]
      && ProductAt(r.inventory, p).name == ProductAt(s.inventory, p).name
      && Count(r.inventory, p) == Count(s.inventory, p) - QtyFor(ids, qs, p)
      && BlockedAt(r.blockedInventory, p) == BlockedAt(s.blockedInventory, p) + QtyFor(ids, qs, p)
      && (p in r.inventory <==> p in s.inventory || p in ids)
  {
    TouchAllAt(s.inventory, ids, p);
    ShiftStockAt(TouchAll(s.inventory, ids), ids, qs, false, p);
    ShiftBlockedAt(s.blockedInventory, ids, qs, true, p);
  }

  /** createOrder never changes a product's available-plus-blocked stock,
      whether it succeeds or not. */
  lemma CreateOrderConserves(s: Ledger, ids: seq<ProductId>, qs: seq<int>, orderId: OrderId, now: Timestamp, p: ProductId)
    requires |ids| <= |qs|
    ensures Held(AfterCreateOrder(s, ids, qs, orderId, now), p) == Held(s, p)
  {
    if Fits(s.inventory, ids, qs) {
      CreateOrderReserves(s, ids, qs, orderId, now, p);
    } else {
      CreateOrderAllOrNothing(s, ids, qs, orderId, now, p);
    }
  }

  /** With distinct product ids and non-negative quantities, a createOrder
      keeps non-negative available and blocked stock non-negative. */
  lemma CreateOrderKeepsStockNonNegative(s: Ledger, ids: seq<ProductId>, qs: seq<int>, orderId: OrderId, now: Timestamp, p: ProductId)
    requires |ids| <= |qs| && Distinct(ids)
    requires forall i :: 0 <= i < |qs| ==> 0 <= qs[i]
    requires 0 <= Count(s.inventory, p) && 0 <= BlockedAt(s.blockedInventory, p)
    ensures var r := AfterCreateOrder(s, ids, qs, orderId, now);
      0 <= Count(r.inventory, p) && 0 <= BlockedAt(r.blockedInventory, p)
  {
    if Fits(s.inventory, ids, qs) {
      CreateOrderReserves(s, ids, qs, orderId, now, p);
      if p in ids {
        var i :| 0 <= i < |ids| && ids[i] == p;
        QtyForDistinct(ids, qs, i);
      } else {
        QtyForAbsent(ids, qs, p);
      }
    } else {
      CreateOrderAllOrNothing(s, ids, qs, orderId, now, p);
    }
  }

  /** Without distinct ids each line is checked against the count before the
      order, so two lines for one unit of the same product both pass and the
      count ends at -1. */
  lemma DuplicateLineItemsOversell()
    ensures var s := Ledger(map["1" := Product("P1", 1)], map[], map[]);
      && Fits(s.inventory, ["1", "1"], [1, 1])
      && Count(AfterCreateOrder(s, ["1", "1"], [1, 1], "o", 0).inventory, "1") == -1
  {
    var s := Ledger(map["1" := Product("P1", 1)], map[], map[]);
    CreateOrderReserves(s, ["1", "1"], [1, 1], "o", 0, "1");
    assert ["1", "1"][..1] == ["1"];
  }

  /** confirmOrder leaves available stock alone and lowers a product's
      available-plus-blocked stock by exactly the confirmed order's demand. */
  lemma ConfirmConsumes(s: Ledger, orderId: OrderId, p: ProductId)
    requires WellFormed(s)
    ensures var r := AfterConfirmOrder(s, orderId);
      && r.inventory == s.inventory
      && Held(r, p) == Held(s, p) - (if Pending(s, orderId)
                                      then QtyFor(s.orders[orderId].productIds, s.orders[orderId].quantities, p)
                                      else 0)
      && (Pending(s, orderId) ==> r.orders == s.orders[orderId := s.orders[orderId].(confirmed := true)])
  {
    if Pending(s, orderId) {
      var o := s.orders[orderId];
      ShiftBlockedAt(s.blockedInventory, o.productIds, o.quantities, false, p);
    }
  }

  /** The expiry path returns a pending order's demand to available stock,
      keeps available-plus-blocked stock, and erases the order. */
  lemma ReleaseRestores(s: Ledger, orderId: OrderId, p: ProductId)
    requires WellFormed(s)
    ensures var r := AfterRelease(s, orderId);
      && Held(r, p) == Held(s, p)
      && Count(r.inventory, p) == Count(s.inventory, p) + (if Pending(s, orderId)
                                      then QtyFor(s.orders[orderId].productIds, s.orders[orderId].quantities, p)
                                      else 0)
      && (Pending(s, orderId) ==> orderId !in r.orders && r.orders == s.orders - {orderId})
  {
    if Pending(s, orderId) {
      var o := s.orders[orderId];
      ShiftStockAt(s.inventory, o.productIds, o.quantities, true, p);
      ShiftBlockedAt(s.blockedInventory, o.productIds, o.quantities, false, p);
    }
  }

  /** A second confirm of the same order changes nothing. */
  lemma ConfirmTwiceIsConfirmOnce(s: Ledger, orderId: OrderId)
    requires WellFormed(s)
    ensures AfterConfirmOrder(AfterConfirmOrder(s, orderId), orderId) == AfterConfirmOrder(s, orderId)
  {
  }

  /** Once confirmed, an order is out of reach of the expiry path. */
  lemma ReleaseAfterConfirmIsNoOp(s: Ledger, orderId: OrderId)
    requires WellFormed(s)
    ensures AfterRelease(AfterConfirmOrder(s, orderId), orderId) == AfterConfirmOrder(s, orderId)
  {
  }

  /** Once released, the order is gone and a later confirm finds nothing. */
  lemma ConfirmAfterReleaseIsNoOp(s: Ledger, orderId: OrderId)
    requires WellFormed(s)
    ensures AfterConfirmOrder(AfterRelease(s, orderId), orderId) == AfterRelease(s, orderId)
  {
  }

  /** The order is settled: confirmed, or gone (released or never made).
      Neither confirm nor the expiry path can act on it any more. */
  predicate Resolved(s: Ledger, orderId: OrderId)
  {
    orderId !in s.orders || s.orders[orderId].confirmed
  }

  /** A settled order is final: confirm and the expiry path leave the ledger
      as it is. */
  lemma ResolvedIsFinal(s: Ledger, orderId: OrderId)
    requires WellFormed(s) && Resolved(s, orderId)
    ensures AfterConfirmOrder(s, orderId) == s
    ensures AfterRelease(s, orderId) == s
  {
  }

  /** An order stays settled whatever happens to other orders in between:
      creating, confirming or releasing another order id never re-opens it,
      so a confirm and a release of one order never both take effect, however
      far apart they run. Only createOrder under the same id re-opens it. */
  lemma ResolvedStaysResolved(s: Ledger, orderId: OrderId, other: OrderId, ids: seq<ProductId>, qs: seq<int>, now: Timestamp)
    requires WellFormed(s) && Resolved(s, orderId) && other != orderId && |ids| <= |qs|
    ensures Resolved(AfterCreateOrder(s, ids, qs, other, now), orderId)
    ensures Resolved(AfterConfirmOrder(s, other), orderId)
    ensures Resolved(AfterRelease(s, other), orderId)
  {
  }

  /** createOrder under the id of a settled order re-opens it when the new
      items fit: the order is pending again and the expiry path can act on
      it. */
  lemma ReusedIdReopens(s: Ledger, orderId: OrderId, ids: seq<ProductId>, qs: seq<int>, now: Timestamp)
    requires |ids| <= |qs| && Fits(s.inventory, ids, qs)
    ensures Pending(AfterCreateOrder(s, ids, qs, orderId, now), orderId)
  {
  }

  /** Overwriting a pending order strands its reservation: once the new
      order under the same id expires, every product's blocked amount is
      back to what it was before the overwrite, which still holds the
      earlier order's demand, and no order is left to release it. */
  lemma OverwriteStrandsReservation(s: Ledger, orderId: OrderId, ids: seq<ProductId>, qs: seq<int>, now: Timestamp, p: ProductId)
    requires WellFormed(s) && Pending(s, orderId)
    requires |ids| <= |qs| && Fits(s.inventory, ids, qs)
    ensures var r := AfterRelease(AfterCreateOrder(s, ids, qs, orderId, now), orderId);
      && orderId !in r.orders
      && BlockedAt(r.blockedInventory, p) == BlockedAt(s.blockedInventory, p)
  {
    var mid := AfterCreateOrder(s, ids, qs, orderId, now);
    CreateOrderReserves(s, ids, qs, orderId, now, p);
    ShiftBlockedAt(mid.blockedInventory, ids, qs, false, p);
  }

  /** From the earlier order's creation on: an order whose items all fit is
      overwritten under the same id by a second order, which then expires.
      Every blocked amount ends at its value before the first order plus
      that order's demand, which no order is left to release. */
  lemma FirstReservationStrandedByOverwrite(s0: Ledger, orderId: OrderId, ids1: seq<ProductId>, qs1: seq<int>, t1: Timestamp,
                                            ids2: seq<ProductId>, qs2: seq<int>, t2: Timestamp, p: ProductId)
    requires WellFormed(s0) && |ids1| <= |qs1| && |ids2| <= |qs2|
    requires Fits(s0.inventory, ids1, qs1)
    requires Fits(AfterCreateOrder(s0, ids1, qs1, orderId, t1).inventory, ids2, qs2)
    ensures var r := AfterRelease(AfterCreateOrder(AfterCreateOrder(s0, ids1, qs1, orderId, t1), ids2, qs2, orderId, t2), orderId);
      && orderId !in r.orders
      && BlockedAt(r.blockedInventory, p) == BlockedAt(s0.blockedInventory, p) + QtyFor(ids1, qs1, p)
  {
    CreateOrderReserves(s0, ids1, qs1, orderId, t1, p);
    OverwriteStrandsReservation(AfterCreateOrder(s0, ids1, qs1, orderId, t1), orderId, ids2, qs2, t2, p);
  }

  // ---------------------------------------------------------------------
  // The manager object
  // ---------------------------------------------------------------------

  class InventoryManager {
    var inventory: map<ProductId, Product>
    var orders: map<OrderId, Order>
    var blockedInventory: map<ProductId, int>

    function Snapshot(): Ledger
      reads this
    {
      Ledger(inventory, orders, blockedInventory)
    }

    ghost predicate Valid()
      reads this
    {
      WellFormed(Snapshot())
    }

    constructor ()
      ensures Valid()
      ensures inventory == map[] && orders == map[] && blockedInventory == map[]
    {
      inventory, orders, blockedInventory := map[], map[], map[];
    }

    /** Registers the product, overwriting any entry under the same id. */
    method CreateProduct(productId: ProductId, name: string, count: int)
      requires Valid()
      modifies this
      ensures Valid()
      ensures inventory == old(inventory)[productId := Product(name, count)]
      ensures orders == old(orders) && blockedInventory == old(blockedInventory)
    {
      inventory := inventory[productId := Product(name, count)];
    }

    /** The available count of a known product, -1 for an unknown one. */
    function GetInventory(productId: ProductId): (count: int)
      reads this
      ensures productId in inventory ==> count == inventory[productId].inventoryCount
      ensures productId !in inventory ==> count == -1
    {
      if productId in inventory then inventory[productId].inventoryCount else -1
    }

    /** Checks every line item, then reserves all of them or none. `created`
        tells which of the two messages inventoryManagement.cpp prints; `now` is the
        clock reading stored in the order. */
    method CreateOrder(productIds: seq<ProductId>, quantityOrdered: seq<int>, orderId: OrderId, now: Timestamp)
      returns (created: bool)
      requires Valid()
      requires |productIds| <= |quantityOrdered|
      modifies this
      ensures Valid()
      ensures created == Fits(old(inventory), productIds, quantityOrdered)
      ensures Snapshot() == AfterCreateOrder(old(Snapshot()), productIds, quantityOrdered, orderId, now)
    {
      var canBlock := CheckLineItems(productIds, quantityOrdered);
      if canBlock {
        BlockLineItems(productIds, quantityOrdered);
        orders := orders[orderId := Order(productIds, quantityOrdered, now, false)];
      }
      created := canBlock;
    }

    /** The check loop of createOrder: it stops at the first item asking for
        more than is available. Reading a count through `operator[]` leaves a
        default entry for each unknown id it reaches. */
    method CheckLineItems(productIds: seq<ProductId>, quantityOrdered: seq<int>) returns (canBlock: bool)
      requires |productIds| <= |quantityOrdered|
      modifies this`inventory
      ensures canBlock == Fits(old(inventory), productIds, quantityOrdered)
      ensures var k := FirstShortfall(old(inventory), productIds, quantityOrdered);
        inventory == if canBlock then TouchAll(old(inventory), productIds)
                     else TouchAll(old(inventory), productIds[..k + 1])
    {
      canBlock := true;
      var i := 0;
      while i < |productIds|
        invariant 0 <= i <= |productIds|
        invariant inventory == TouchAll(old(inventory), productIds[..i])
        invariant forall j :: 0 <= j < i ==> quantityOrdered[j] <= Count(old(inventory), productIds[j])
      {
        TouchAllAt(old(inventory), productIds[..i], productIds[i]);
        assert productIds[..i + 1][..i] == productIds[..i];
        inventory := inventory[productIds[i] := ProductAt(inventory, productIds[i])];
        if inventory[productIds[i]].inventoryCount < quantityOrdered[i] {
          canBlock := false;
          break;
        }
        i := i + 1;
      }
      if canBlock {
        assert productIds[..i] == productIds;
      } else {
        assert i == FirstShortfall(old(inventory), productIds, quantityOrdered);
      }
    }

    /** The blocking loop of createOrder: every item's quantity moves from
        available to blocked stock. */
    method BlockLineItems(productIds: seq<ProductId>, quantityOrdered: seq<int>)
      requires |productIds| <= |quantityOrdered|
      modifies this`inventory, this`blockedInventory
      ensures inventory == ShiftStock(old(inventory), productIds, quantityOrdered, false)
      ensures blockedInventory == ShiftBlocked(old(blockedInventory), productIds, quantityOrdered, true)
    {
      var i := 0;
      while i < |productIds|
        invariant 0 <= i <= |productIds|
        invariant inventory == ShiftStock(old(inventory), productIds[..i], quantityOrdered, false)
        invariant blockedInventory == ShiftBlocked(old(blockedInventory), productIds[..i], quantityOrdered, true)
      {
        assert productIds[..i + 1][..i] == productIds[..i];
        var id := productIds[i];
        var product := ProductAt(inventory, id);
        inventory := inventory[id := Product(product.name, product.inventoryCount - quantityOrdered[i])];
        blockedInventory := blockedInventory[id := BlockedAt(blockedInventory, id) + quantityOrdered[i]];
        i := i + 1;
      }
      assert productIds[..i] == productIds;
    }

    /** Confirms a pending order: its quantities leave blocked stock for
        good. `confirmed` tells which message inventoryManagement.cpp prints. */
    method ConfirmOrder(orderId: OrderId) returns (confirmed: bool)
      requires Valid()
      modifies this
      ensures Valid()
      ensures confirmed == Pending(old(Snapshot()), orderId)
      ensures Snapshot() == AfterConfirmOrder(old(Snapshot()), orderId)
    {
      confirmed := orderId in orders && !orders[orderId].confirmed;
      if confirmed {
        var order := orders[orderId];
        var i := 0;
        while i < |order.productIds|
          invariant 0 <= i <= |order.productIds|
          invariant blockedInventory == ShiftBlocked(old(blockedInventory), order.productIds[..i], order.quantities, false)
          invariant inventory == old(inventory) && orders == old(orders)
        {
          assert order.productIds[..i + 1][..i] == order.productIds[..i];
          var id := order.productIds[i];
          blockedInventory := blockedInventory[id := BlockedAt(blockedInventory, id) - order.quantities[i]];
          i := i + 1;
        }
        assert order.productIds[..i] == order.productIds;
        orders := orders[orderId := order.(confirmed := true)];
      }
    }

    /** The body of the expiry thread after its sleep: a pending order's
        quantities return to available stock and the order is erased.
        `released` tells whether inventoryManagement.cpp prints its message. */
    method ReleaseBlockedInventory(orderId: OrderId) returns (released: bool)
      requires Valid()
      modifies this
      ensures Valid()
      ensures released == Pending(old(Snapshot()), orderId)
      ensures Snapshot() == AfterRelease(old(Snapshot()), orderId)
    {
      released := orderId in orders && !orders[orderId].confirmed;
      if released {
        var order := orders[orderId];
        var i := 0;
        while i < |order.productIds|
          invariant 0 <= i <= |order.productIds|
          invariant inventory == ShiftStock(old(inventory), order.productIds[..i], order.quantities, true)
          invariant blockedInventory == ShiftBlocked(old(blockedInventory), order.productIds[..i], order.quantities, false)
          invariant orders == old(orders)
        {
          assert order.productIds[..i + 1][..i] == order.productIds[..i];
          var id := order.productIds[i];
          var product := ProductAt(inventory, id);
          inventory := inventory[id := Product(product.name, product.inventoryCount + order.quantities[i])];
          blockedInventory := blockedInventory[id := BlockedAt(blockedInventory, id) - order.quantities[i]];
          i := i + 1;
        }
        assert order.productIds[..i] == order.productIds;
        orders := orders - {orderId};
      }
    }
  }

  /** The run of the main() of inventoryManagement.cpp: three products, one
      two-line order, then its confirmation. The last call stands for the
      expiry thread waking after the confirm, which main() does not wait
      for; it finds the order confirmed and does nothing. */
  method DemoRun()
  {
    var manager := new InventoryManager();
    manager.CreateProduct("1", "P1", 2);
    manager.CreateProduct("2", "P2", 5);
    manager.CreateProduct("3", "P3", 4);
    assert manager.GetInventory("1") == 2 && manager.GetInventory("3") == 4;

    ghost var before := manager.Snapshot();
    assert Fits(before.inventory, ["1", "3"], [1, 2]);
    var created := manager.CreateOrder(["1", "3"], [1, 2], "1", 0);
    assert created;
    CreateOrderReserves(before, ["1", "3"], [1, 2], "1", 0, "1");
    CreateOrderReserves(before, ["1", "3"], [1, 2], "1", 0, "3");
    assert manager.GetInventory("1") == 1 && manager.GetInventory("3") == 2;

    var confirmed := manager.ConfirmOrder("1");
    assert confirmed;
    assert manager.GetInventory("1") == 1 && manager.GetInventory("3") == 2;

    var released := manager.ReleaseBlockedInventory("1");
    assert !released;
  }
}

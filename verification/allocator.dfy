/**
 The allocation pass (InventoryAllocator.java).

 `ProcessOrder` validates the order, looks for the first warehouse in list order
 that covers all of it, ships everything from that one if there is one and
 otherwise splits greedily item by item, and finally collects the contributions
 of the warehouses that shipped. The source keeps `orderFulfilled` in a field
 that starts true and is never set back; the model carries it as `Allocator`
 state, so a later call on the same allocator sees what an earlier call left.
 */
module Allocation {
  import opened Orders
  import opened Warehouses
  import opened OrderResults

  /** The allocator's only state: the `orderFulfilled` field. */
  datatype Allocator = Allocator(orderFulfilled: bool)

  /** What a call to `processOrder` leaves behind: the returned plan, the
      warehouses as the call has updated them, and the allocator's state. */
  datatype Outcome = Outcome(result: OrderResult, warehouses: seq<Warehouse>, allocator: Allocator)

  /** `new InventoryAllocator()`. */
  function NewAllocator(): (a: Allocator)
    ensures a.orderFulfilled
  {
    Allocator(true)
  }

  /** The first validation loop: some requested quantity is negative. */
  function HasNegative(order: Order): (b: bool)
    ensures b <==> exists i :: 0 <= i < |order| && order[i].qty < 0
  {
    if order == [] then false
    else if order[0].qty < 0 then true
    else
      var b := HasNegative(order[1..]);
      assert b ==> exists i :: 0 < i < |order| && order[i].qty < 0 by {
        if b {
          var i :| 0 <= i < |order[1..]| && order[1..][i].qty < 0;
          assert order[i + 1].qty < 0;
        }
      }
      assert (exists i :: 0 < i < |order| && order[i].qty < 0) ==> b by {
        if exists i :: 0 < i < |order| && order[i].qty < 0 {
          var i :| 0 < i < |order| && order[i].qty < 0;
          assert order[1..][i - 1].qty < 0;
        }
      }
      b
  }

  /** The second validation loop: some requested quantity is positive. */
  function HasPositive(order: Order): (b: bool)
    ensures b <==> exists i :: 0 <= i < |order| && order[i].qty > 0
  {
    if order == [] then false
    else if order[0].qty > 0 then true
    else
      var b := HasPositive(order[1..]);
      assert b ==> exists i :: 0 < i < |order| && order[i].qty > 0 by {
        if b {
          var i :| 0 <= i < |order[1..]| && order[1..][i].qty > 0;
          assert order[i + 1].qty > 0;
        }
      }
      assert (exists i :: 0 < i < |order| && order[i].qty > 0) ==> b by {
        if exists i :: 0 < i < |order| && order[i].qty > 0 {
          var i :| 0 < i < |order| && order[i].qty > 0;
          assert order[1..][i - 1].qty > 0;
        }
      }
      b
  }

  /** The scan of `canBeFulfilledBySingleWarehouse` from index `from` on. */
  function FirstCoveringFrom(order: Order, ws: seq<Warehouse>, from: nat): (k: int)
    requires from <= |ws|
    ensures k == -1 || from <= k < |ws|
    ensures k >= 0 ==> CanFulfillTotalOrder(ws[k], order)
    ensures k >= 0 ==> forall j :: from <= j < k ==> !CanFulfillTotalOrder(ws[j], order)
    ensures k == -1 ==> forall j :: from <= j < |ws| ==> !CanFulfillTotalOrder(ws[j], order)
    decreases |ws| - from
  {
    if from == |ws| then -1
    else if CanFulfillTotalOrder(ws[from], order) then from
    else FirstCoveringFrom(order, ws, from + 1)
  }

  /** `canBeFulfilledBySingleWarehouse`: the smallest index of a warehouse that
      covers the whole order, or -1 when none does. */
  function SingleWarehouseIndex(order: Order, ws: seq<Warehouse>): (k: int)
    ensures k == -1 || 0 <= k < |ws|
    ensures k >= 0 ==> CanFulfillTotalOrder(ws[k], order)
    ensures k >= 0 ==> forall j :: 0 <= j < k ==> !CanFulfillTotalOrder(ws[j], order)
    ensures k == -1 <==> forall j :: 0 <= j < |ws| ==> !CanFulfillTotalOrder(ws[j], order)
  {
    FirstCoveringFrom(order, ws, 0)
  }

  /** `shipFromSingleWareHouse`: `shipItem` for every line, in order, on one warehouse.
      Only the records of the order's items can change, and the flag goes up
      exactly when some line's item has stock to give. */
  function ShipFromSingleWarehouse(order: Order, w: Warehouse): (w': Warehouse)
    ensures w'.name == w.name && w'.stock == w.stock
    ensures w'.shipped - Items(order) == w.shipped - Items(order)
    ensures w'.isShipping <==>
              w.isShipping || exists i :: 0 <= i < |order| && Available(w, order[i].item) > 0
    ensures Consistent(w) ==> Consistent(w')
  {
    if order == [] then w
    else
      var w1 := ShipItem(w, order[0].item, order[0].qty).0;
      var w' := ShipFromSingleWarehouse(order[1..], w1);
      SameRecordsOutsideCompose(w.shipped, w1.shipped, w'.shipped, {order[0].item}, Items(order[1..]));
      ItemsOfTail(order);
      assert (exists i :: 0 < i < |order| && Available(w, order[i].item) > 0) <==>
             (exists i :: 0 <= i < |order[1..]| && Available(w1, order[1..][i].item) > 0) by {
        if exists i :: 0 < i < |order| && Available(w, order[i].item) > 0 {
          var i :| 0 < i < |order| && Available(w, order[i].item) > 0;
          assert Available(w1, order[1..][i - 1].item) > 0;
        }
        if exists i :: 0 <= i < |order[1..]| && Available(w1, order[1..][i].item) > 0 {
          var i :| 0 <= i < |order[1..]| && Available(w1, order[1..][i].item) > 0;
          assert Available(w, order[i + 1].item) > 0;
        }
      }
      w'
  }

  /** The inner `while` of `shipFromMultipleWareHouses` for one item: ask each
      warehouse in list order, at most once, while some quantity is still owed.
      Returns the updated warehouses and the quantity still owed. */
  function ShipAcross(ws: seq<Warehouse>, item: string, amount: int): (r: (seq<Warehouse>, int))
    ensures |r.0| == |ws|
    ensures forall j :: 0 <= j < |ws| ==>
              && r.0[j].name == ws[j].name
              && r.0[j].stock == ws[j].stock
              && r.0[j].shipped - {item} == ws[j].shipped - {item}
              && (ws[j].isShipping ==> r.0[j].isShipping)
              && (Consistent(ws[j]) ==> Consistent(r.0[j]))
    ensures amount >= 0 ==> 0 <= r.1 <= amount
    ensures amount <= 0 ==> r == (ws, amount)
  {
    if amount > 0 && ws != [] then
      var (w', n) := ShipItem(ws[0], item, amount);
      var (rest, remaining) := ShipAcross(ws[1..], item, amount - n);
      assert forall j :: 0 < j < |ws| ==> ws[1..][j - 1] == ws[j];
      ([w'] + rest, remaining)
    else
      (ws, amount)
  }

  /** `shipFromMultipleWareHouses`: split every line across the warehouses in list
      order, stopping at the first line that cannot be filled, which clears the
      fulfilled flag. A flag already false stays false. */
  function ShipFromMultipleWarehouses(order: Order, ws: seq<Warehouse>, fulfilled: bool): (r: (seq<Warehouse>, bool))
    ensures |r.0| == |ws|
    ensures forall j :: 0 <= j < |ws| ==>
              && r.0[j].name == ws[j].name
              && r.0[j].stock == ws[j].stock
              && r.0[j].shipped - Items(order) == ws[j].shipped - Items(order)
              && (ws[j].isShipping ==> r.0[j].isShipping)
              && (Consistent(ws[j]) ==> Consistent(r.0[j]))
    ensures r.1 ==> fulfilled
  {
    if order == [] then (ws, fulfilled)
    else
      var (ws1, remaining) := ShipAcross(ws, order[0].item, order[0].qty);
      var r := if remaining > 0 then (ws1, false)
               else ShipFromMultipleWarehouses(order[1..], ws1, fulfilled);
      ItemsOfTail(order);
      assert forall j :: 0 <= j < |ws| ==> r.0[j].shipped - Items(order) == ws[j].shipped - Items(order) by {
        forall j | 0 <= j < |ws|
          ensures r.0[j].shipped - Items(order) == ws[j].shipped - Items(order)
        {
          SameRecordsOutsideCompose(ws[j].shipped, ws1[j].shipped, r.0[j].shipped, {order[0].item}, Items(order[1..]));
        }
      }
      r
  }

  /** The contributions of the warehouses that have shipped, in list order. */
  function Contributions(ws: seq<Warehouse>): (cs: seq<Contribution>)
    ensures |cs| <= |ws|
    ensures cs == [] <==> forall j :: 0 <= j < |ws| ==> !ws[j].isShipping
    ensures forall c :: c in cs ==>
              exists j :: 0 <= j < |ws| && ws[j].isShipping && c == Contribution(ws[j].name, ws[j].shipped)
  {
    if ws == [] then []
    else
      var rest := Contributions(ws[1..]);
      assert forall j :: 0 < j < |ws| ==> ws[1..][j - 1] == ws[j];
      (if ws[0].isShipping then [Contribution(ws[0].name, ws[0].shipped)] else []) + rest
  }

  /** The loop of `collectResult`: append the shipping info of `ws`, in order,
      to `acc`, skipping warehouses whose info is null. */
  function CollectFrom(ws: seq<Warehouse>, acc: OrderResult): (r: OrderResult)
    ensures GetResult(r) == GetResult(acc) + Contributions(ws)
  {
    if ws == [] then acc
    else
      match ShippingInfo(ws[0])
      case Some(c) => CollectFrom(ws[1..], Add(acc, c))
      case None => CollectFrom(ws[1..], acc)
  }

  /** `collectResult` without its printing: the contributions of the shipping
      warehouses in list order when the order was fulfilled, else an empty plan. */
  function CollectResult(ws: seq<Warehouse>, fulfilled: bool): (r: OrderResult)
    ensures fulfilled ==> GetResult(r) == Contributions(ws)
    ensures !fulfilled ==> GetResult(r) == []
  {
    if fulfilled then CollectFrom(ws, Empty()) else Empty()
  }

  /** `processOrder`. */
  function ProcessOrder(a: Allocator, order: Order, ws: seq<Warehouse>): (o: Outcome)
    ensures HasNegative(order) ==> o == Outcome(Empty(), ws, a)
    ensures !HasPositive(order) ==> o == Outcome(Empty(), ws, a)
    ensures |o.warehouses| == |ws|
    ensures forall j :: 0 <= j < |ws| ==>
              o.warehouses[j].name == ws[j].name && o.warehouses[j].stock == ws[j].stock
    ensures o.allocator.orderFulfilled ==> a.orderFulfilled
    ensures !o.allocator.orderFulfilled ==> GetResult(o.result) == []
  {
    if HasNegative(order) then Outcome(Empty(), ws, a)
    else if !HasPositive(order) then Outcome(Empty(), ws, a)
    else
      var k := SingleWarehouseIndex(order, ws);
      if k >= 0 then
        var ws' := ws[k := ShipFromSingleWarehouse(order, ws[k])];
        Outcome(CollectResult(ws', a.orderFulfilled), ws', a)
      else
        var (ws', fulfilled) := ShipFromMultipleWarehouses(order, ws, a.orderFulfilled);
        Outcome(CollectResult(ws', fulfilled), ws', Allocator(fulfilled))
  }

  /** `processOrder` with `orderFulfilled` set back to true at the start of every
      call, so that one failed order does not fail every later one. */
  function ProcessOrderPerCall(order: Order, ws: seq<Warehouse>): (r: (OrderResult, seq<Warehouse>))
    ensures |r.1| == |ws|
    ensures HasNegative(order) || !HasPositive(order) ==> GetResult(r.0) == [] && r.1 == ws
  {
    var o := ProcessOrder(NewAllocator(), order, ws);
    (o.result, o.warehouses)
  }
}

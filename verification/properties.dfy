/**
 Properties of the allocation pass, stated against independent reference
 quantities:

 - `Supply(ws, item)`: what the warehouses together can hand out for one item,
   the sum of their positive stocks;
 - `TotalShipped(ws, item)`: what the warehouses have recorded as shipped;
 - `ResultQty(plan, item)`: what a shipment plan ships of one item.

 Since shipping never lowers a stock, the greedy split owes, after walking all
 warehouses, exactly `max(0, requested - Supply)`; that turns "the split succeeds"
 into a statement about supply alone.
 */
module AllocationProperties {
  import opened Orders
  import opened Warehouses
  import opened OrderResults
  import opened Allocation

  function Max0(x: int): nat
  {
    if x > 0 then x else 0
  }

  /** The combined quantity of `item` the warehouses can hand out. */
  function Supply(ws: seq<Warehouse>, item: string): nat
  {
    if ws == [] then 0 else Available(ws[0], item) + Supply(ws[1..], item)
  }

  /** The combined quantity of `item` the warehouses have recorded as shipped. */
  function TotalShipped(ws: seq<Warehouse>, item: string): int
  {
    if ws == [] then 0 else ShippedQty(ws[0], item) + TotalShipped(ws[1..], item)
  }

  /** The quantity of `item` a shipment plan ships, over all its entries. */
  function ResultQty(cs: seq<Contribution>, item: string): int
  {
    if cs == [] then 0
    else (if item in cs[0].items then cs[0].items[item] else 0) + ResultQty(cs[1..], item)
  }

  /** The order passes both validation loops. */
  predicate Valid(order: Order)
  {
    !HasNegative(order) && HasPositive(order)
  }

  // ---------------------------------------------------------------------------
  // Reference quantities
  // ---------------------------------------------------------------------------

  /** Supply depends on the stocks only. */
  lemma {:induction false} SupplySameStock(ws: seq<Warehouse>, ws': seq<Warehouse>, item: string)
    requires |ws| == |ws'|
    requires forall j :: 0 <= j < |ws| ==> ws[j].stock == ws'[j].stock
    ensures Supply(ws, item) == Supply(ws', item)
  {
    if ws != [] {
      SupplySameStock(ws[1..], ws'[1..], item);
    }
  }

  /** One warehouse never holds more than all of them together. */
  lemma {:induction false} AvailableWithinSupply(ws: seq<Warehouse>, k: nat, item: string)
    requires k < |ws|
    ensures Available(ws[k], item) <= Supply(ws, item)
  {
    if k > 0 {
      AvailableWithinSupply(ws[1..], k - 1, item);
    }
  }

  /** The total recorded depends on each warehouse's record of that item only. */
  lemma {:induction false} TotalShippedSameRecords(ws: seq<Warehouse>, ws': seq<Warehouse>, item: string)
    requires |ws| == |ws'|
    requires forall j :: 0 <= j < |ws| ==> ShippedQty(ws[j], item) == ShippedQty(ws'[j], item)
    ensures TotalShipped(ws, item) == TotalShipped(ws', item)
  {
    if ws != [] {
      TotalShippedSameRecords(ws[1..], ws'[1..], item);
    }
  }

  /** When only warehouse `k` has a record of `item`, the total is that record. */
  lemma {:induction false} TotalShippedOfOne(ws: seq<Warehouse>, k: nat, item: string)
    requires k < |ws|
    requires forall j :: 0 <= j < |ws| && j != k ==> item !in ws[j].shipped
    ensures TotalShipped(ws, item) == ShippedQty(ws[k], item)
  {
    if k == 0 {
      NothingRecordedTotalsZero(ws[1..], item);
    } else {
      TotalShippedOfOne(ws[1..], k - 1, item);
    }
  }

  /** With no record of `item` anywhere, the total is zero. */
  lemma {:induction false} NothingRecordedTotalsZero(ws: seq<Warehouse>, item: string)
    requires forall j :: 0 <= j < |ws| ==> item !in ws[j].shipped
    ensures TotalShipped(ws, item) == 0
  {
    if ws != [] {
      NothingRecordedTotalsZero(ws[1..], item);
    }
  }

  // ---------------------------------------------------------------------------
  // collectResult
  // ---------------------------------------------------------------------------

  /** The collected plan ships, per item, exactly what the warehouses recorded,
      provided no warehouse holds a record with its flag down. */
  lemma {:induction false} ContributionsShipRecorded(ws: seq<Warehouse>, item: string)
    requires forall j :: 0 <= j < |ws| ==> Consistent(ws[j])
    ensures ResultQty(Contributions(ws), item) == TotalShipped(ws, item)
  {
    if ws != [] {
      ContributionsShipRecorded(ws[1..], item);
      var head := if ws[0].isShipping then [Contribution(ws[0].name, ws[0].shipped)] else [];
      ResultQtyAppend(head, Contributions(ws[1..]), item);
    }
  }

  lemma {:induction false} ResultQtyAppend(a: seq<Contribution>, b: seq<Contribution>, item: string)
    ensures ResultQty(a + b, item) == ResultQty(a, item) + ResultQty(b, item)
  {
    if a != [] {
      assert (a + b)[0] == a[0] && (a + b)[1..] == a[1..] + b;
      ResultQtyAppend(a[1..], b, item);
    } else {
      assert a + b == b;
    }
  }

  /** Every shipping warehouse has its entry in the collected plan. */
  lemma {:induction false} ContributionsListEveryShipper(ws: seq<Warehouse>, k: nat)
    requires k < |ws| && ws[k].isShipping
    ensures Contribution(ws[k].name, ws[k].shipped) in Contributions(ws)
  {
    if k > 0 {
      ContributionsListEveryShipper(ws[1..], k - 1);
    }
  }

  /** When warehouse `k` is the only one shipping, the plan is its single entry. */
  lemma {:induction false} ContributionsOfOne(ws: seq<Warehouse>, k: nat)
    requires k < |ws| && ws[k].isShipping
    requires forall j :: 0 <= j < |ws| && j != k ==> !ws[j].isShipping
    ensures Contributions(ws) == [Contribution(ws[k].name, ws[k].shipped)]
  {
    if k == 0 {
      assert forall j :: 0 <= j < |ws[1..]| ==> !ws[1..][j].isShipping by {
        assert forall j :: 0 <= j < |ws[1..]| ==> ws[1..][j] == ws[j + 1];
      }
    } else {
      ContributionsOfOne(ws[1..], k - 1);
    }
  }

  // ---------------------------------------------------------------------------
  // The greedy walk for one item
  // ---------------------------------------------------------------------------

  /** Walking the warehouses for one item leaves exactly what their combined
      supply cannot cover. */
  lemma {:induction false} ShipAcrossRemaining(ws: seq<Warehouse>, item: string, amount: int)
    requires amount >= 0
    ensures ShipAcross(ws, item, amount).1 == Max0(amount - Supply(ws, item))
  {
    if amount > 0 && ws != [] {
      var n := ShipItem(ws[0], item, amount).1;
      ShipAcrossRemaining(ws[1..], item, amount - n);
    }
  }

  /** The owed quantity falls by exactly what is shipped: when no warehouse had a
      record of the item before, the records made add up to the quantity shipped. */
  lemma {:induction false} ShipAcrossConserves(ws: seq<Warehouse>, item: string, amount: int)
    requires amount >= 0
    requires forall j :: 0 <= j < |ws| ==> item !in ws[j].shipped
    ensures TotalShipped(ShipAcross(ws, item, amount).0, item) == amount - ShipAcross(ws, item, amount).1
  {
    if amount > 0 && ws != [] {
      var (w', n) := ShipItem(ws[0], item, amount);
      var rest := ShipAcross(ws[1..], item, amount - n);
      var r := ShipAcross(ws, item, amount);
      assert r == ([w'] + rest.0, rest.1);
      assert forall j :: 0 <= j < |ws[1..]| ==> ws[1..][j] == ws[j + 1];
      ShipAcrossConserves(ws[1..], item, amount - n);
      assert ShippedQty(w', item) == n;
      assert r.0[0] == w' && r.0[1..] == rest.0;
    } else {
      NothingRecordedTotalsZero(ws, item);
    }
  }

  /** If anything was shipped for the item, some warehouse now has its flag up. */
  lemma {:induction false} ShipAcrossShips(ws: seq<Warehouse>, item: string, amount: int)
    requires amount >= 0
    requires ShipAcross(ws, item, amount).1 < amount
    ensures exists j :: 0 <= j < |ws| && ShipAcross(ws, item, amount).0[j].isShipping
  {
    var r := ShipAcross(ws, item, amount);
    var (w', n) := ShipItem(ws[0], item, amount);
    if Available(ws[0], item) > 0 {
      assert r.0[0] == w';
    } else {
      ShipAcrossShips(ws[1..], item, amount);
      var j :| 0 <= j < |ws[1..]| && ShipAcross(ws[1..], item, amount).0[j].isShipping;
      assert r.0[j + 1].isShipping;
    }
  }

  // ---------------------------------------------------------------------------
  // shipFromMultipleWareHouses
  // ---------------------------------------------------------------------------

  /** The split keeps the fulfilled flag exactly when it was up and every line
      is within the combined supply of its item. */
  lemma {:induction false} SplitOutcome(order: Order, ws: seq<Warehouse>, fulfilled: bool)
    requires forall i :: 0 <= i < |order| ==> order[i].qty >= 0
    ensures ShipFromMultipleWarehouses(order, ws, fulfilled).1 <==>
              fulfilled && forall i :: 0 <= i < |order| ==> order[i].qty <= Supply(ws, order[i].item)
  {
    if order != [] {
      var (ws1, remaining) := ShipAcross(ws, order[0].item, order[0].qty);
      ShipAcrossRemaining(ws, order[0].item, order[0].qty);
      if remaining == 0 {
        SplitOutcome(order[1..], ws1, fulfilled);
        forall i | 0 < i < |order|
          ensures Supply(ws1, order[i].item) == Supply(ws, order[i].item)
          ensures order[1..][i - 1] == order[i]
        {
          SupplySameStock(ws, ws1, order[i].item);
        }
      }
    }
  }

  /** The split stops at the first line the warehouses cannot fill: the flag
      goes down and no line after it gets a record. */
  lemma {:induction false} SplitStopsAtShortfall(order: Order, ws: seq<Warehouse>, fulfilled: bool, k: nat)
    requires forall i :: 0 <= i < |order| ==> order[i].qty >= 0
    requires k < |order| && order[k].qty > Supply(ws, order[k].item)
    ensures var r := ShipFromMultipleWarehouses(order, ws, fulfilled);
            && !r.1
            && forall j :: 0 <= j < |ws| ==>
                 r.0[j].shipped - Items(order[..k + 1]) == ws[j].shipped - Items(order[..k + 1])
  {
    var (ws1, remaining) := ShipAcross(ws, order[0].item, order[0].qty);
    var r := ShipFromMultipleWarehouses(order, ws, fulfilled);
    ShipAcrossRemaining(ws, order[0].item, order[0].qty);
    ItemsOfTail(order[..k + 1]);
    if remaining > 0 {
      forall j | 0 <= j < |ws|
        ensures r.0[j].shipped - Items(order[..k + 1]) == ws[j].shipped - Items(order[..k + 1])
      {
        SameRecordsOutsideCompose(ws[j].shipped, r.0[j].shipped, r.0[j].shipped,
                                  {order[0].item}, Items(order[..k + 1][1..]));
      }
    } else {
      assert k > 0;
      SupplySameStock(ws, ws1, order[k].item);
      assert order[1..][k - 1] == order[k];
      SplitStopsAtShortfall(order[1..], ws1, fulfilled, k - 1);
      assert order[1..][..k] == order[..k + 1][1..];
      forall j | 0 <= j < |ws|
        ensures r.0[j].shipped - Items(order[..k + 1]) == ws[j].shipped - Items(order[..k + 1])
      {
        SameRecordsOutsideCompose(ws[j].shipped, ws1[j].shipped, r.0[j].shipped,
                                  {order[0].item}, Items(order[..k + 1][1..]));
      }
    }
  }

  /** A successful split of lines with distinct items, over warehouses holding no
      record of those items, records per item exactly the requested quantity. */
  lemma {:induction false} SplitConserves(order: Order, ws: seq<Warehouse>, fulfilled: bool)
    requires DistinctItems(order)
    requires forall i :: 0 <= i < |order| ==> order[i].qty >= 0
    requires forall j :: 0 <= j < |ws| ==> ws[j].shipped.Keys !! Items(order)
    ensures var r := ShipFromMultipleWarehouses(order, ws, fulfilled);
            r.1 ==> forall i :: 0 <= i < |order| ==> TotalShipped(r.0, order[i].item) == order[i].qty
  {
    if order != [] {
      var item := order[0].item;
      var (ws1, remaining) := ShipAcross(ws, item, order[0].qty);
      var r := ShipFromMultipleWarehouses(order, ws, fulfilled);
      if remaining == 0 {
        ItemsOfTail(order);
        DistinctItemsOfTail(order);
        ShipAcrossConserves(ws, item, order[0].qty);
        assert forall j :: 0 <= j < |ws| ==> ws1[j].shipped.Keys !! Items(order[1..]) by {
          forall j | 0 <= j < |ws| ensures ws1[j].shipped.Keys !! Items(order[1..]) {
            forall x | x in Items(order[1..]) ensures x !in ws1[j].shipped {
              assert x !in ws1[j].shipped - {item};
            }
          }
        }
        SplitConserves(order[1..], ws1, fulfilled);
        forall j | 0 <= j < |ws| ensures ShippedQty(r.0[j], item) == ShippedQty(ws1[j], item) {
          assert item !in Items(order[1..]);
          assert item in r.0[j].shipped <==> item in r.0[j].shipped - Items(order[1..]);
          assert item in ws1[j].shipped <==> item in ws1[j].shipped - Items(order[1..]);
          if item in r.0[j].shipped {
            assert (r.0[j].shipped - Items(order[1..]))[item] == (ws1[j].shipped - Items(order[1..]))[item];
          }
        }
        TotalShippedSameRecords(r.0, ws1, item);
        forall i | 0 < i < |order| ensures order[1..][i - 1] == order[i] { }
      }
    }
  }

  /** A successful split of an order with a positive line leaves some warehouse shipping. */
  lemma {:induction false} SplitShips(order: Order, ws: seq<Warehouse>, fulfilled: bool)
    requires forall i :: 0 <= i < |order| ==> order[i].qty >= 0
    requires HasPositive(order)
    ensures var r := ShipFromMultipleWarehouses(order, ws, fulfilled);
            r.1 ==> exists j :: 0 <= j < |ws| && r.0[j].isShipping
  {
    var (ws1, remaining) := ShipAcross(ws, order[0].item, order[0].qty);
    var r := ShipFromMultipleWarehouses(order, ws, fulfilled);
    if remaining == 0 && r.1 {
      if order[0].qty > 0 {
        ShipAcrossShips(ws, order[0].item, order[0].qty);
        var j :| 0 <= j < |ws| && ws1[j].isShipping;
        assert r.0[j].isShipping;
      } else {
        var i :| 0 <= i < |order| && order[i].qty > 0;
        assert order[1..][i - 1].qty > 0;
        SplitShips(order[1..], ws1, fulfilled);
      }
    }
  }

  /** A warehouse whose flag is up has a positive record for some item. */
  ghost predicate ShipsSomething(w: Warehouse)
  {
    w.isShipping ==> exists x :: x in w.shipped && w.shipped[x] > 0
  }

  /** The walk for one item only raises a flag together with a positive record. */
  lemma {:induction false} ShipAcrossShipsSomething(ws: seq<Warehouse>, item: string, amount: int)
    requires forall j :: 0 <= j < |ws| ==> ShipsSomething(ws[j])
    ensures forall j :: 0 <= j < |ws| ==> ShipsSomething(ShipAcross(ws, item, amount).0[j])
  {
    if amount > 0 && ws != [] {
      var (w', n) := ShipItem(ws[0], item, amount);
      var rest := ShipAcross(ws[1..], item, amount - n);
      var r := ShipAcross(ws, item, amount);
      assert r == ([w'] + rest.0, rest.1);
      assert forall j :: 0 <= j < |ws[1..]| ==> ws[1..][j] == ws[j + 1];
      ShipAcrossShipsSomething(ws[1..], item, amount - n);
      if Available(ws[0], item) > 0 {
        assert item in w'.shipped && w'.shipped[item] > 0;
      }
      assert forall j :: 0 < j < |ws| ==> r.0[j] == rest.0[j - 1];
    }
  }

  /** The split only raises a flag together with a positive record. */
  lemma {:induction false} SplitShipsSomething(order: Order, ws: seq<Warehouse>, fulfilled: bool)
    requires forall j :: 0 <= j < |ws| ==> ShipsSomething(ws[j])
    ensures forall j :: 0 <= j < |ws| ==> ShipsSomething(ShipFromMultipleWarehouses(order, ws, fulfilled).0[j])
  {
    if order != [] {
      var (ws1, remaining) := ShipAcross(ws, order[0].item, order[0].qty);
      ShipAcrossShipsSomething(ws, order[0].item, order[0].qty);
      if remaining <= 0 {
        SplitShipsSomething(order[1..], ws1, fulfilled);
      }
    }
  }

  // ---------------------------------------------------------------------------
  // shipFromSingleWareHouse
  // ---------------------------------------------------------------------------

  /** A warehouse that covers the order, shipping lines with distinct items it
      held no record of, records per item exactly the requested quantity. */
  lemma {:induction false} SingleShipRecordsOrder(order: Order, w: Warehouse)
    requires DistinctItems(order)
    requires CanFulfillTotalOrder(w, order)
    requires forall i :: 0 <= i < |order| ==> order[i].qty >= 0
    requires w.shipped.Keys !! Items(order)
    ensures forall i :: 0 <= i < |order| ==>
              ShippedQty(ShipFromSingleWarehouse(order, w), order[i].item) == order[i].qty
  {
    if order != [] {
      var item := order[0].item;
      var w1 := ShipItem(w, item, order[0].qty).0;
      var w' := ShipFromSingleWarehouse(order, w);
      ItemsOfTail(order);
      DistinctItemsOfTail(order);
      assert ShippedQty(w1, item) == order[0].qty;
      assert w1.shipped.Keys !! Items(order[1..]) by {
        forall x | x in Items(order[1..]) ensures x !in w1.shipped {
          assert x !in w1.shipped - {item};
        }
      }
      assert forall i :: 0 < i < |order| ==> order[1..][i - 1] == order[i];
      SingleShipRecordsOrder(order[1..], w1);
      assert item in w'.shipped <==> item in w'.shipped - Items(order[1..]);
      assert item in w1.shipped <==> item in w1.shipped - Items(order[1..]);
      if item in w'.shipped {
        assert (w'.shipped - Items(order[1..]))[item] == (w1.shipped - Items(order[1..]))[item];
      }
    }
  }

  /** From a fresh warehouse that covers an all-positive order, the record is the order itself. */
  lemma {:induction false} SingleShipRecordIsOrder(order: Order, w: Warehouse)
    requires DistinctItems(order)
    requires CanFulfillTotalOrder(w, order)
    requires forall i :: 0 <= i < |order| ==> order[i].qty > 0
    requires w.shipped == map[]
    ensures ShipFromSingleWarehouse(order, w).shipped == ToMap(order)
  {
    var w' := ShipFromSingleWarehouse(order, w);
    SingleShipRecordsOrder(order, w);
    forall x | x in w'.shipped ensures x in Items(order) {
      assert x !in w.shipped - Items(order);
    }
    forall i | 0 <= i < |order| ensures order[i].item in w'.shipped {
      assert ShippedQty(w', order[i].item) == order[i].qty;
    }
  }

  // ---------------------------------------------------------------------------
  // processOrder
  // ---------------------------------------------------------------------------

  /** The plan is non-empty exactly when the allocator has not failed before, the
      order passes validation, and every line is within the combined supply of
      its item. No assumption on the warehouses' earlier records is needed. */
  lemma {:induction false} NonEmptyResultIff(a: Allocator, order: Order, ws: seq<Warehouse>)
    ensures GetResult(ProcessOrder(a, order, ws).result) != [] <==>
              && a.orderFulfilled
              && Valid(order)
              && forall i :: 0 <= i < |order| ==> order[i].qty <= Supply(ws, order[i].item)
  {
    var o := ProcessOrder(a, order, ws);
    if Valid(order) {
      var k := SingleWarehouseIndex(order, ws);
      if k >= 0 {
        var w' := ShipFromSingleWarehouse(order, ws[k]);
        var ws' := ws[k := w'];
        forall i | 0 <= i < |order| ensures order[i].qty <= Supply(ws, order[i].item) {
          AvailableWithinSupply(ws, k, order[i].item);
        }
        var i :| 0 <= i < |order| && order[i].qty > 0;
        assert Available(ws[k], order[i].item) > 0;
        assert ws'[k].isShipping;
      } else {
        SplitOutcome(order, ws, a.orderFulfilled);
        SplitShips(order, ws, a.orderFulfilled);
      }
    }
  }

  /** The allocator's flag after the call: it stays up unless it was already down
      or a valid order met a line beyond the combined supply. */
  lemma {:induction false} AllocatorFlagAfter(a: Allocator, order: Order, ws: seq<Warehouse>)
    ensures ProcessOrder(a, order, ws).allocator.orderFulfilled <==>
              && a.orderFulfilled
              && (!Valid(order) || forall i :: 0 <= i < |order| ==> order[i].qty <= Supply(ws, order[i].item))
  {
    if Valid(order) {
      var k := SingleWarehouseIndex(order, ws);
      if k >= 0 {
        forall i | 0 <= i < |order| ensures order[i].qty <= Supply(ws, order[i].item) {
          AvailableWithinSupply(ws, k, order[i].item);
        }
      } else {
        SplitOutcome(order, ws, a.orderFulfilled);
      }
    }
  }

  /** With fresh warehouses and an order with distinct items, a non-empty plan
      ships, per order item, exactly the requested quantity. */
  lemma {:induction false} ResultConservesOrder(a: Allocator, order: Order, ws: seq<Warehouse>)
    requires DistinctItems(order)
    requires forall j :: 0 <= j < |ws| ==> Fresh(ws[j])
    ensures var plan := GetResult(ProcessOrder(a, order, ws).result);
            plan != [] ==> forall i :: 0 <= i < |order| ==> ResultQty(plan, order[i].item) == order[i].qty
  {
    var o := ProcessOrder(a, order, ws);
    if Valid(order) && a.orderFulfilled {
      var k := SingleWarehouseIndex(order, ws);
      if k >= 0 {
        var w' := ShipFromSingleWarehouse(order, ws[k]);
        var ws' := ws[k := w'];
        SingleShipRecordsOrder(order, ws[k]);
        forall i | 0 <= i < |order| ensures ResultQty(GetResult(o.result), order[i].item) == order[i].qty {
          TotalShippedOfOne(ws', k, order[i].item);
          ContributionsShipRecorded(ws', order[i].item);
        }
      } else {
        var (ws', fulfilled) := ShipFromMultipleWarehouses(order, ws, a.orderFulfilled);
        SplitConserves(order, ws, a.orderFulfilled);
        if fulfilled {
          forall i | 0 <= i < |order| ensures ResultQty(GetResult(o.result), order[i].item) == order[i].qty {
            ContributionsShipRecorded(ws', order[i].item);
          }
        }
      }
    }
  }

  /** With fresh warehouses and an order with distinct items, every entry of the
      plan ships a positive quantity of some item: a warehouse that was asked for
      nothing, or had nothing to give, never appears. */
  lemma {:induction false} PlanEntriesShipSomething(a: Allocator, order: Order, ws: seq<Warehouse>)
    requires DistinctItems(order)
    requires forall j :: 0 <= j < |ws| ==> Fresh(ws[j])
    ensures forall c :: c in GetResult(ProcessOrder(a, order, ws).result) ==>
              exists x :: x in c.items && c.items[x] > 0
  {
    var o := ProcessOrder(a, order, ws);
    if Valid(order) {
      var k := SingleWarehouseIndex(order, ws);
      if k >= 0 {
        var w' := ShipFromSingleWarehouse(order, ws[k]);
        SingleShipRecordsOrder(order, ws[k]);
        var i :| 0 <= i < |order| && order[i].qty > 0;
        assert ShippedQty(w', order[i].item) == order[i].qty;
        assert ShipsSomething(w');
        assert forall j :: 0 <= j < |ws| ==> ShipsSomething(o.warehouses[j]);
      } else {
        SplitShipsSomething(order, ws, a.orderFulfilled);
      }
      forall c | c in GetResult(o.result) ensures exists x :: x in c.items && c.items[x] > 0 {
        var j :| 0 <= j < |o.warehouses| && o.warehouses[j].isShipping
                 && c == Contribution(o.warehouses[j].name, o.warehouses[j].shipped);
        assert ShipsSomething(o.warehouses[j]);
      }
    }
  }

  /** With fresh warehouses and an all-positive order with distinct items that some
      warehouse covers, the plan is the first covering warehouse shipping the whole
      order, and no other warehouse is touched. */
  lemma {:induction false} SingleWarehouseResult(a: Allocator, order: Order, ws: seq<Warehouse>)
    requires a.orderFulfilled
    requires DistinctItems(order)
    requires order != [] && forall i :: 0 <= i < |order| ==> order[i].qty > 0
    requires forall j :: 0 <= j < |ws| ==> Fresh(ws[j])
    requires exists j :: 0 <= j < |ws| && CanFulfillTotalOrder(ws[j], order)
    ensures var k := SingleWarehouseIndex(order, ws);
            var o := ProcessOrder(a, order, ws);
            && 0 <= k < |ws|
            && (forall j :: 0 <= j < k ==> !CanFulfillTotalOrder(ws[j], order))
            && GetResult(o.result) == [Contribution(ws[k].name, ToMap(order))]
            && (forall j :: 0 <= j < |ws| && j != k ==> o.warehouses[j] == ws[j])
            && o.allocator == a
  {
    var k := SingleWarehouseIndex(order, ws);
    var w' := ShipFromSingleWarehouse(order, ws[k]);
    var ws' := ws[k := w'];
    assert order[0].qty > 0;
    assert Valid(order);
    assert Available(ws[k], order[0].item) > 0;
    SingleShipRecordIsOrder(order, ws[k]);
    ContributionsOfOne(ws', k);
  }

  /** With the flag reset per call, the plan is non-empty exactly when the order
      is valid and within the combined supply, whatever earlier calls did. */
  lemma {:induction false} PerCallNonEmptyIff(order: Order, ws: seq<Warehouse>)
    ensures GetResult(ProcessOrderPerCall(order, ws).0) != [] <==>
              Valid(order) && forall i :: 0 <= i < |order| ==> order[i].qty <= Supply(ws, order[i].item)
  {
    NonEmptyResultIff(NewAllocator(), order, ws);
  }
}

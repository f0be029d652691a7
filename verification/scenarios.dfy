/**
 The six cases of InventoryAllocatorTest.java as concrete lemmas, plus lemmas that
 show behaviour the tests leave implicit: records kept after a failed split, old
 records overwritten or collected when warehouses are reused, an allocator that
 stays failed for every later order, and the same two orders served when the flag
 is reset per call.
 */
module Scenarios {
  import opened Orders
  import opened Warehouses
  import opened OrderResults
  import opened Allocation
  import opened AllocationProperties

  function Stocked(name: string, apples: int, oranges: int): Warehouse
  {
    AddItem(AddItem(NewWarehouse(name), "apple", apples), "orange", oranges)
  }

  function Fruit(apples: int, oranges: int): map<string, int>
  {
    map["apple" := apples, "orange" := oranges]
  }

  /** test1: the first warehouse covers the order and ships all of it. */
  lemma FirstWarehouseCovers()
    ensures var o := ProcessOrder(NewAllocator(), [Line("apple", 2), Line("orange", 1)],
                                  [Stocked("owd", 2, 1), Stocked("dm", 1, 1)]);
            GetResult(o.result) == [Contribution("owd", Fruit(2, 1))]
  {
  }

  /** test2: no warehouse covers the order; it is split in list order. */
  lemma OrderIsSplit()
    ensures var o := ProcessOrder(NewAllocator(), [Line("apple", 9), Line("orange", 4)],
                                  [Stocked("owd", 5, 3), Stocked("dm", 4, 1)]);
            GetResult(o.result) == [Contribution("owd", Fruit(5, 3)), Contribution("dm", Fruit(4, 1))]
  {
    var order := [Line("apple", 9), Line("orange", 4)];
    var owd, dm := Stocked("owd", 5, 3), Stocked("dm", 4, 1);
    var ws := [owd, dm];
    assert !CanFulfillTotalOrder(ws[0], order);
    assert !CanFulfillTotalOrder(ws[1], order);
    assert SingleWarehouseIndex(order, ws) == -1;
    // apples: 5 from owd, then the remaining 4 from dm
    var owd1 := owd.(isShipping := true, shipped := map["apple" := 5]);
    var dm1 := dm.(isShipping := true, shipped := map["apple" := 4]);
    assert ShipItem(owd, "apple", 9) == (owd1, 5);
    assert ShipItem(dm, "apple", 4) == (dm1, 4);
    assert [dm][1..] == [] && [dm1] + [] == [dm1] && ws[1..] == [dm];
    assert ShipAcross([dm], "apple", 4) == ([dm1], 0);
    assert [owd1] + [dm1] == [owd1, dm1];
    assert ShipAcross(ws, "apple", 9) == ([owd1, dm1], 0);
    // oranges: 3 from owd, then the remaining 1 from dm
    var owd2 := owd1.(shipped := Fruit(5, 3));
    var dm2 := dm1.(shipped := Fruit(4, 1));
    assert ShipItem(owd1, "orange", 4) == (owd2, 3);
    assert ShipItem(dm1, "orange", 1) == (dm2, 1);
    assert [dm1][1..] == [] && [dm2] + [] == [dm2] && [owd1, dm1][1..] == [dm1];
    assert ShipAcross([dm1], "orange", 1) == ([dm2], 0);
    assert [owd2] + [dm2] == [owd2, dm2];
    assert ShipAcross([owd1, dm1], "orange", 4) == ([owd2, dm2], 0);
    assert ShipFromMultipleWarehouses(order[1..], [owd1, dm1], true) == ([owd2, dm2], true);
    assert ShipFromMultipleWarehouses(order, ws, true) == ([owd2, dm2], true);
  }

  /** test3: a later warehouse covers the order and ships all of it alone. */
  lemma SecondWarehouseCovers()
    ensures var o := ProcessOrder(NewAllocator(), [Line("apple", 4), Line("orange", 2)],
                                  [Stocked("owd", 1, 3), Stocked("dm", 4, 2)]);
            GetResult(o.result) == [Contribution("dm", Fruit(4, 2))]
  {
  }

  /** test4: no apples anywhere, so the plan is empty and the allocator has failed. */
  lemma NotEnoughStock()
    ensures var o := ProcessOrder(NewAllocator(), [Line("apple", 5), Line("orange", 5)],
                                  [Stocked("owd", 0, 5), Stocked("dm", 0, 5)]);
            GetResult(o.result) == [] && !o.allocator.orderFulfilled
  {
  }

  /** test4 with the oranges handled first: the plan is still empty, but the first
      warehouse keeps the record of the oranges it was asked for. */
  lemma FailedSplitKeepsRecords()
    ensures var o := ProcessOrder(NewAllocator(), [Line("orange", 5), Line("apple", 5)],
                                  [Stocked("owd", 0, 5), Stocked("dm", 0, 5)]);
            && GetResult(o.result) == []
            && o.warehouses[0].isShipping
            && o.warehouses[0].shipped == map["orange" := 5]
            && o.warehouses[1] == Stocked("dm", 0, 5)
  {
    var order := [Line("orange", 5), Line("apple", 5)];
    var owd, dm := Stocked("owd", 0, 5), Stocked("dm", 0, 5);
    var ws := [owd, dm];
    assert !CanFulfillTotalOrder(ws[0], order);
    assert !CanFulfillTotalOrder(ws[1], order);
    assert SingleWarehouseIndex(order, ws) == -1;
    // oranges: all 5 from owd; dm is never asked
    var owd1 := owd.(isShipping := true, shipped := map["orange" := 5]);
    assert ShipItem(owd, "orange", 5) == (owd1, 5);
    assert ShipAcross([dm], "orange", 0) == ([dm], 0);
    assert ws[1..] == [dm] && [owd1] + [dm] == [owd1, dm];
    assert ShipAcross(ws, "orange", 5) == ([owd1, dm], 0);
    // apples: neither warehouse has any, 5 stay owed
    assert ShipItem(owd1, "apple", 5) == (owd1, 0);
    assert ShipItem(dm, "apple", 5) == (dm, 0);
    assert [dm][1..] == [] && [dm] + [] == [dm] && [owd1, dm][1..] == [dm];
    assert ShipAcross([dm], "apple", 5) == ([dm], 5);
    assert ShipAcross([owd1, dm], "apple", 5) == ([owd1, dm], 5);
    assert ShipFromMultipleWarehouses(order[1..], [owd1, dm], true) == ([owd1, dm], false);
    assert ShipFromMultipleWarehouses(order, ws, true) == ([owd1, dm], false);
  }

  /** test5: a negative quantity is rejected and no warehouse is touched. */
  lemma NegativeQuantityRejected()
    ensures var ws := [Stocked("owd", 30, 0), Stocked("dm", 0, 10)];
            var o := ProcessOrder(NewAllocator(), [Line("apple", -1), Line("orange", 0)], ws);
            GetResult(o.result) == [] && o.warehouses == ws
  {
  }

  /** test6: an order of zeros is rejected and no warehouse is touched. */
  lemma AllZeroRejected()
    ensures var ws := [Stocked("owd", 10, 10), Stocked("dm", 10, 10)];
            var o := ProcessOrder(NewAllocator(), [Line("apple", 0), Line("orange", 0)], ws);
            GetResult(o.result) == [] && o.warehouses == ws
  {
  }

  /** A warehouse that shipped before: the call overwrites its old apple record,
      so the plan still ships exactly the order. */
  lemma ReusedButExact()
    ensures var owd := AddItem(NewWarehouse("owd"), "apple", 2).(isShipping := true, shipped := map["apple" := 7]);
            var o := ProcessOrder(NewAllocator(), [Line("apple", 2)], [owd]);
            GetResult(o.result) == [Contribution("owd", map["apple" := 2])]
  {
    var order := [Line("apple", 2)];
    var owd := AddItem(NewWarehouse("owd"), "apple", 2).(isShipping := true, shipped := map["apple" := 7]);
    var owd1 := owd.(shipped := map["apple" := 2]);
    assert CanFulfillTotalOrder(owd, order);
    assert SingleWarehouseIndex(order, [owd]) == 0;
    assert owd.stock == map["apple" := 2];
    assert map["apple" := 7]["apple" := 2] == map["apple" := 2];
    assert ShipItem(owd, "apple", 2) == (owd1, 2);
    assert ShipFromSingleWarehouse(order, owd) == owd1;
    assert [owd][0 := owd1] == [owd1];
  }

  /** A warehouse the call does not ask again still brings its old record into the
      plan, which then ships 9 apples for an order of 2. */
  lemma StaleRecordCollected()
    ensures var dm := AddItem(NewWarehouse("dm"), "apple", 5).(isShipping := true, shipped := map["apple" := 7]);
            var o := ProcessOrder(NewAllocator(), [Line("apple", 2)], [AddItem(NewWarehouse("owd"), "apple", 2), dm]);
            GetResult(o.result) == [Contribution("owd", map["apple" := 2]), Contribution("dm", map["apple" := 7])]
  {
  }

  /** Reusing the allocator of test4 for the order of test1: the flag is never set
      back, so even a coverable order now gets an empty plan. */
  lemma FailureIsSticky()
    ensures var first := ProcessOrder(NewAllocator(), [Line("apple", 5), Line("orange", 5)],
                                      [Stocked("owd", 0, 5), Stocked("dm", 0, 5)]);
            var second := ProcessOrder(first.allocator, [Line("apple", 2), Line("orange", 1)],
                                       [Stocked("owd", 2, 1), Stocked("dm", 1, 1)]);
            GetResult(second.result) == []
  {
    var first := ProcessOrder(NewAllocator(), [Line("apple", 5), Line("orange", 5)],
                              [Stocked("owd", 0, 5), Stocked("dm", 0, 5)]);
    NotEnoughStock();
    NonEmptyResultIff(first.allocator, [Line("apple", 2), Line("orange", 1)],
                      [Stocked("owd", 2, 1), Stocked("dm", 1, 1)]);
  }

  /** The same two orders with the flag reset per call: the second one is served. */
  lemma PerCallServesAfterFailure()
    ensures var first := ProcessOrderPerCall([Line("apple", 5), Line("orange", 5)],
                                             [Stocked("owd", 0, 5), Stocked("dm", 0, 5)]);
            var second := ProcessOrderPerCall([Line("apple", 2), Line("orange", 1)],
                                              [Stocked("owd", 2, 1), Stocked("dm", 1, 1)]);
            GetResult(first.0) == [] && GetResult(second.0) == [Contribution("owd", Fruit(2, 1))]
  {
    NotEnoughStock();
    FirstWarehouseCovers();
  }
}

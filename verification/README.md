# Inventory allocator: a Dafny model

This project models the inventory allocator of `inventory-allocator/src/com/deliverr`.
The allocator takes an order and a ranked list of warehouses and produces a shipment
plan. An order maps items to requested quantities. The plan is a list of
`{warehouse: {item: quantity}}` entries.

- **Warehouse ledger** (`Warehouses`, from `Warehouse.java`). A warehouse has a name, a stock
  per item, a record of shipped quantities and an `isShipping` flag. `ShipItem` hands out
  `min(request, stock)` and records it. As in the Java code, it never lowers the stock.
- **Allocator** (`Allocation`, from `InventoryAllocator.java`). `ProcessOrder` runs these steps:
  1. Reject orders that hold a negative quantity or no positive one.
  2. Pick the first warehouse that covers the whole order.
  3. If none covers it, split greedily, item by item, across the warehouses in list order.
  4. Stop at the first item that cannot be filled.
  5. Collect the contributions of the warehouses that shipped.

  The `orderFulfilled` field starts true and is never set back. The model carries it as
  `Allocator` state. `ProcessOrder` returns the plan, the updated warehouses and that state.
- **Shipment plan** (`OrderResults`, from `OrderResult.java`). An append-only list of
  entries, each a `Contribution(name, items)`.
- **Orders** (`Orders`). The Java order is a `Map`, and its iteration order decides which item
  the split handles first. The model uses a sequence of `Line(item, qty)` so that order is
  explicit. `DistinctItems` states that no item repeats, as in a map.
- **Properties** (`AllocationProperties`). Theorems about the whole pass, stated against
  independent reference quantities:
  - `Supply`: the sum of the warehouses' positive stocks for an item;
  - `TotalShipped`: the sum of their shipped records;
  - `ResultQty`: what a plan ships of an item.
- **Scenarios** (`Scenarios`). The six JUnit cases as concrete lemmas, plus five lemmas that
  show the flag and record behaviour, including reused warehouses.

Behaviour of the code worth knowing, which the model keeps:
- `shipItem` never lowers the stock.
- When the stock is positive, `shipItem` records the shipped quantity even if it is 0.
- `orderFulfilled` is kept between calls on the same allocator; nothing sets it back to true.
- `ResultConservesOrder` proves that the plan's per-item sums equal the order for fresh
  warehouses. With earlier records they can fail. A warehouse that this call does not ask
  for an item still brings its old record of that item into the plan
  (`Scenarios.StaleRecordCollected`). A record that the call overwrites does no harm
  (`Scenarios.ReusedButExact`).

Loops are written as recursion:
- `ShipAcross` recurses over the warehouse suffix, so each warehouse is asked at most once per
  item. It stops as soon as nothing more is owed.
- `ShipFromMultipleWarehouses` recurses over the order's lines.
- `CollectFrom` folds `OrderResults.Add` over the warehouses.

## Model

| member | source | states |
|---|---|---|
| `Warehouses.NewWarehouse` | inventory-allocator/src/com/deliverr/Warehouse.java:17-22 | a new warehouse has the given name, no stock for any item, no records and the flag down |
| `Warehouses.AddItem` | inventory-allocator/src/com/deliverr/Warehouse.java:25-27 | after adding, the lookup of that item gives the new amount; every other item's lookup, the name, the records and the flag are unchanged |
| `Warehouses.ItemAmount` | inventory-allocator/src/com/deliverr/Warehouse.java:35-40 | the lookup gives the stored quantity for a listed item and 0 for an unlisted one |
| `Warehouses.CanFulfillTotalOrder` | inventory-allocator/src/com/deliverr/Warehouse.java:43-51 | true exactly when every line's quantity is at most the lookup of its item; an empty order is covered |
| `Warehouses.ShippingInfo` | inventory-allocator/src/com/deliverr/Warehouse.java:54-61 | null exactly when the flag is down; otherwise the warehouse's name paired with its shipped record |
| `Warehouses.ShipItem` | inventory-allocator/src/com/deliverr/Warehouse.java:65-79 | with positive stock: hands out `min(amount, stock)`, records that value (even 0) and raises the flag. Otherwise: hands out 0 and changes nothing. Name and stock never change. For `amount >= 0` the result lies between 0 and `amount` and never exceeds the positive stock |
| `OrderResults.Empty` | inventory-allocator/src/com/deliverr/OrderResult.java:8 | a new plan has no entries |
| `OrderResults.Add` | inventory-allocator/src/com/deliverr/OrderResult.java:10-12 | the plan grows by one; the new entry is last; every earlier entry stays at its position |
| `Allocation.NewAllocator` | inventory-allocator/src/com/deliverr/InventoryAllocator.java:11 | a new allocator starts with `orderFulfilled` true |
| `Allocation.HasNegative` | inventory-allocator/src/com/deliverr/InventoryAllocator.java:16-19 | true exactly when some line has a negative quantity |
| `Allocation.HasPositive` | inventory-allocator/src/com/deliverr/InventoryAllocator.java:22-26 | true exactly when some line has a positive quantity |
| `Allocation.FirstCoveringFrom` | inventory-allocator/src/com/deliverr/InventoryAllocator.java:80-85 | the scan from a start index returns the first covering index at or after it, with none covering in between, or -1 when none from there covers |
| `Allocation.SingleWarehouseIndex` | inventory-allocator/src/com/deliverr/InventoryAllocator.java:78-86 | the smallest index whose warehouse covers the order, with none covering before it; -1 exactly when no warehouse covers it |
| `Allocation.ShipFromSingleWarehouse` | inventory-allocator/src/com/deliverr/InventoryAllocator.java:47-51 | name and stock unchanged; records change only for the order's items; the flag is up afterwards exactly when it was up before or some line's item has positive stock |
| `Allocation.ShipAcross` | inventory-allocator/src/com/deliverr/InventoryAllocator.java:57-64 | the warehouse list keeps its length, names and stocks. Records change only for this item. Flags only go up. The amount still owed stays between 0 and the requested amount. Nothing is asked when nothing is owed |
| `Allocation.ShipFromMultipleWarehouses` | inventory-allocator/src/com/deliverr/InventoryAllocator.java:54-74 | names and stocks unchanged; records change only for the order's items; flags only go up; the fulfilled flag is never raised, only kept or cleared |
| `Allocation.Contributions` | inventory-allocator/src/com/deliverr/InventoryAllocator.java:94-98 | no more entries than warehouses. The list is empty exactly when no warehouse is shipping. Every entry is the name and record of a shipping warehouse |
| `Allocation.CollectFrom` | inventory-allocator/src/com/deliverr/InventoryAllocator.java:95-98 | appending each non-null shipping info with `Add` extends the accumulator by exactly the shipping warehouses' contributions, in list order |
| `Allocation.CollectResult` | inventory-allocator/src/com/deliverr/InventoryAllocator.java:89-99 | when fulfilled, the plan lists the shipping warehouses' contributions in list order; otherwise it is empty |
| `Allocation.ProcessOrder` | inventory-allocator/src/com/deliverr/InventoryAllocator.java:14-44 | an order with a negative quantity, or with no positive one, gives an empty plan and leaves warehouses and allocator untouched. Names and stocks never change. The flag is never raised again once down. A cleared flag means an empty plan |
| `Allocation.ProcessOrderPerCall` | inventory-allocator/src/com/deliverr/InventoryAllocator.java:11 | corrected variant that resets the flag per call: invalid orders give an empty plan with warehouses untouched |
| `AllocationProperties.ShipAcrossRemaining` | inventory-allocator/src/com/deliverr/InventoryAllocator.java:60-64 | after the walk for one item, the quantity still owed is exactly `max(0, requested - Supply)` |
| `AllocationProperties.ShipAcrossConserves` | inventory-allocator/src/com/deliverr/InventoryAllocator.java:60-64 | the owed amount falls by exactly what is shipped: if no warehouse had a record of the item, the new records sum to requested minus still owed |
| `AllocationProperties.ShipAcrossShips` | inventory-allocator/src/com/deliverr/InventoryAllocator.java:60-64 | if the owed amount fell at all, some warehouse now has its flag up |
| `AllocationProperties.SplitOutcome` | inventory-allocator/src/com/deliverr/InventoryAllocator.java:56-70 | for non-negative lines, the split keeps the flag exactly when it was up and every line is within the combined supply of its item |
| `AllocationProperties.SplitStopsAtShortfall` | inventory-allocator/src/com/deliverr/InventoryAllocator.java:67-70 | if line `k` exceeds the supply of its item, the split clears the flag, and no line after `k` gets a record in any warehouse |
| `AllocationProperties.SplitConserves` | inventory-allocator/src/com/deliverr/InventoryAllocator.java:56-64 | a successful split of distinct non-negative lines over warehouses with no records of those items records, per item, a total equal to the requested quantity |
| `AllocationProperties.SplitShips` | inventory-allocator/src/com/deliverr/InventoryAllocator.java:56-64 | a successful split of an order with a positive line leaves some warehouse with its flag up |
| `AllocationProperties.SingleShipRecordsOrder` | inventory-allocator/src/com/deliverr/InventoryAllocator.java:47-51 | a covering warehouse with no records of the order's items records, per distinct non-negative line, exactly the requested quantity |
| `AllocationProperties.SingleShipRecordIsOrder` | inventory-allocator/src/com/deliverr/InventoryAllocator.java:47-51 | starting with no records and covering an all-positive order, the warehouse's record is exactly the order as a map |
| `AllocationProperties.ContributionsShipRecorded` | inventory-allocator/src/com/deliverr/InventoryAllocator.java:94-98 | if no warehouse holds records with its flag down, the collected plan ships, per item, exactly the total the warehouses recorded |
| `AllocationProperties.ShipAcrossShipsSomething` | inventory-allocator/src/com/deliverr/Warehouse.java:65-79 | the walk for one item asks only while something is owed, so a flag it raises comes with a positive record; a warehouse whose flag is up with a positive record keeps one |
| `AllocationProperties.SplitShipsSomething` | inventory-allocator/src/com/deliverr/InventoryAllocator.java:56-70 | across the whole split, every warehouse whose flag is up holds a positive record, if that held before |
| `AllocationProperties.ContributionsListEveryShipper` | inventory-allocator/src/com/deliverr/InventoryAllocator.java:94-98 | every warehouse whose flag is up has its name and record as an entry of the collected plan |
| `AllocationProperties.ContributionsOfOne` | inventory-allocator/src/com/deliverr/InventoryAllocator.java:94-98 | when exactly one warehouse is shipping, the collected plan is that warehouse's single entry |
| `AllocationProperties.NonEmptyResultIff` | inventory-allocator/src/com/deliverr/InventoryAllocator.java:14-44 | the plan is non-empty exactly when the allocator's flag is up, the order is valid and every line is within the combined supply of its item |
| `AllocationProperties.AllocatorFlagAfter` | inventory-allocator/src/com/deliverr/InventoryAllocator.java:34-43 | the flag stays up exactly when it was up and the order is invalid or within the combined supply. Once down it stays down |
| `AllocationProperties.ResultConservesOrder` | inventory-allocator/src/com/deliverr/InventoryAllocator.java:34-43 | with fresh warehouses and distinct items, a non-empty plan ships, per order item, exactly the requested quantity |
| `AllocationProperties.PlanEntriesShipSomething` | inventory-allocator/src/com/deliverr/InventoryAllocator.java:30-43 | with fresh warehouses and distinct items, every entry of the plan ships a positive quantity of some item |
| `AllocationProperties.SingleWarehouseResult` | inventory-allocator/src/com/deliverr/InventoryAllocator.java:34-39 | given fresh warehouses, an all-positive order and a covering warehouse: the plan is `[{name_k: order}]` for the first covering index `k`. No other warehouse changes, and neither does the allocator |
| `AllocationProperties.PerCallNonEmptyIff` | inventory-allocator/src/com/deliverr/InventoryAllocator.java:11 | with the flag reset per call, the plan is non-empty exactly when the order is valid and within the combined supply, whatever earlier calls did |
| `Scenarios.FirstWarehouseCovers` | inventory-allocator/src/com/deliverr/InventoryAllocatorTest.java:31-48 | `{apple:2, orange:1}` is served whole by the first warehouse, `owd` |
| `Scenarios.OrderIsSplit` | inventory-allocator/src/com/deliverr/InventoryAllocatorTest.java:50-68 | `{apple:9, orange:4}` is split as `owd {5,3}` then `dm {4,1}` |
| `Scenarios.SecondWarehouseCovers` | inventory-allocator/src/com/deliverr/InventoryAllocatorTest.java:70-87 | `{apple:4, orange:2}` is served whole by the second warehouse, `dm` |
| `Scenarios.NotEnoughStock` | inventory-allocator/src/com/deliverr/InventoryAllocatorTest.java:89-105 | with no apples anywhere the plan is empty and the allocator's flag is down |
| `Scenarios.FailedSplitKeepsRecords` | inventory-allocator/src/com/deliverr/InventoryAllocator.java:67-70 | handling oranges first, the failed split leaves `owd` with its orange record and flag while the plan is empty |
| `Scenarios.NegativeQuantityRejected` | inventory-allocator/src/com/deliverr/InventoryAllocatorTest.java:107-123 | `{apple:-1, orange:0}` gives an empty plan and untouched warehouses |
| `Scenarios.AllZeroRejected` | inventory-allocator/src/com/deliverr/InventoryAllocatorTest.java:125-141 | `{apple:0, orange:0}` gives an empty plan and untouched warehouses |
| `Scenarios.ReusedButExact` | inventory-allocator/src/com/deliverr/Warehouse.java:73 | a warehouse holding an old record `{apple:7}` and asked for 2 apples overwrites it, so the plan is `[owd {apple:2}]` |
| `Scenarios.StaleRecordCollected` | inventory-allocator/src/com/deliverr/InventoryAllocator.java:94-98 | a warehouse that is not asked keeps its old record `{apple:7}` and its flag, and the plan collects it next to the covering warehouse's `{apple:2}` |
| `Scenarios.FailureIsSticky` | inventory-allocator/src/com/deliverr/InventoryAllocator.java:68 | reusing the allocator after the failed case, a coverable order gets an empty plan |
| `Scenarios.PerCallServesAfterFailure` | inventory-allocator/src/com/deliverr/InventoryAllocator.java:11 | with the flag reset per call, the same second order is served by `owd` |

## Left out

- Console output (`System.out` in `processOrder`, `shipFromMultipleWareHouses` and `collectResult`) is a diagnostic side channel and is not modelled.
- The JUnit fixture parsers `orderGenerator`, `warehouseGenerator` and `expectedGenerator` are not modelled. The scenarios build their inputs with `NewWarehouse` and `AddItem` directly.
- Java `HashMap` hashing and iteration order are not modelled. The order is a sequence of lines whose order is the iteration order, and distinct keys are a lemma precondition (`DistinctItems`).
- `getShippingInfo` hands out the warehouse's own `itemsToShip` map, so later changes would show through. The model returns a value copy.
- `getName` and `getResult` are plain accessors. They are the field `Warehouse.name` and the function `OrderResults.GetResult`. The insertion order that `getResult` exposes is stated by `OrderResults.Add` and `Allocation.CollectFrom`.
- The warehouse list is taken to hold distinct objects. A Java `List<Warehouse>` may hold the same object twice, and both entries then share one stock, record and flag. For example, with `[w, w]`, `w = {apple:1}` and the order `{apple:1}`, Java collects `w`'s shipping info twice and returns two entries. The model returns one. With `[v, v]`, `v = {apple:2}` and the order `{apple:3}`, Java's second visit overwrites the shared record with 1, so its plan sums to 2. The model's plan sums to 3.
- Java `int` overflow is not modelled. Quantities are unbounded integers.
- Null orders, null warehouse lists and null entries (which would throw in Java) are not modelled.
- Stock decrement and rollback are absent from the code, so they are absent from the model.
- `AllocationProperties.ResultConservesOrder` assumes fresh warehouses and distinct items. With earlier records the per-item sums can fail: a warehouse this call does not ask for an item still brings its old record into the plan (`Scenarios.StaleRecordCollected`), while a record the call overwrites does no harm (`Scenarios.ReusedButExact`).
- `AllocationProperties.SingleWarehouseResult` assumes an all-positive order. A zero line whose item has positive stock adds a 0 entry to the record; otherwise it adds nothing. `SingleShipRecordsOrder` covers zero lines.

## Findings

| source | as written | input that shows it | evidently intended | confidence | as-written member | corrected member |
|---|---|---|---|---|---|---|
| inventory-allocator/src/com/deliverr/InventoryAllocator.java:11 | `orderFulfilled` is an instance field that is set to false on a failed split and never set back to true | on one allocator, process `{apple:5, orange:5}` with `owd {0,5}`, `dm {0,5}`, then `{apple:2, orange:1}` with `owd {2,1}`, `dm {1,1}`: the second plan is empty | each call decides fulfilment afresh, so the second order is served by `owd` | medium, not executed | `Scenarios.FailureIsSticky` | `AllocationProperties.PerCallNonEmptyIff` |

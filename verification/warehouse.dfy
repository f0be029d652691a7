/**
 The inventory ledger of one warehouse (Warehouse.java).

 A warehouse has a name, an on-hand quantity per item (`stock`), the quantity
 recorded per item by the latest shipment (`shipped`) and a flag telling whether
 anything was recorded (`isShipping`). The Java object is mutated in place; here
 every operation returns the updated warehouse. As in the source, shipping an item
 records the shipped quantity but never lowers the on-hand quantity.
 */
module Warehouses {
  import opened Orders

  datatype Option<T> = None | Some(value: T)

  datatype Warehouse = Warehouse(
    name: string,
    stock: map<string, int>,
    shipped: map<string, int>,
    isShipping: bool)

  /** One entry of a shipment plan: the single-entry map `{name: items}` of the source. */
  datatype Contribution = Contribution(name: string, items: map<string, int>)

  function Min(a: int, b: int): (m: int)
    ensures m <= a && m <= b && (m == a || m == b)
  {
    if a <= b then a else b
  }

  /** A warehouse as the constructor leaves it: nothing shipped, flag down. */
  ghost predicate Fresh(w: Warehouse)
  {
    !w.isShipping && w.shipped == map[]
  }

  /** A warehouse only holds shipment records once its flag is up. */
  ghost predicate Consistent(w: Warehouse)
  {
    w.isShipping || w.shipped == map[]
  }

  /** `new Warehouse(name)`: an empty, fresh ledger. */
  function NewWarehouse(name: string): (w: Warehouse)
    ensures w.name == name && Fresh(w)
    ensures forall item :: ItemAmount(w, item) == 0
  {
    Warehouse(name, map[], map[], false)
  }

  /** `addItem`: sets the on-hand quantity of one item, replacing any earlier value. */
  function AddItem(w: Warehouse, item: string, amount: int): (w': Warehouse)
    ensures ItemAmount(w', item) == amount
    ensures forall other :: other != item ==> ItemAmount(w', other) == ItemAmount(w, other)
    ensures w'.stock.Keys == w.stock.Keys + {item}
    ensures w'.name == w.name && w'.shipped == w.shipped && w'.isShipping == w.isShipping
  {
    w.(stock := w.stock[item := amount])
  }

  /** `getItemAmount`: the stored quantity, and 0 for an item the warehouse does not list. */
  function ItemAmount(w: Warehouse, item: string): (n: int)
    ensures item in w.stock ==> n == w.stock[item]
    ensures item !in w.stock ==> n == 0
  {
    if item in w.stock then w.stock[item] else 0
  }

  /** What one `shipItem` call can hand out: the listed stock when it is positive, else nothing. */
  function Available(w: Warehouse, item: string): nat
  {
    if item in w.stock && w.stock[item] > 0 then w.stock[item] else 0
  }

  /** `canFulfillTotalOrder`: every requested quantity is within the stock of its item. */
  function CanFulfillTotalOrder(w: Warehouse, order: Order): (b: bool)
    ensures b <==> forall i :: 0 <= i < |order| ==> order[i].qty <= ItemAmount(w, order[i].item)
  {
    if order == [] then true
    else if order[0].qty > ItemAmount(w, order[0].item) then false
    else
      var b := CanFulfillTotalOrder(w, order[1..]);
      assert b ==> forall i :: 0 < i < |order| ==> order[i].qty <= ItemAmount(w, order[i].item) by {
        if b {
          forall i | 0 < i < |order| ensures order[i].qty <= ItemAmount(w, order[i].item) {
            assert order[1..][i - 1] == order[i];
          }
        }
      }
      b
  }

  /** `getShippingInfo`: nothing (null) until the warehouse has shipped, then its name
      paired with its shipment record. */
  function ShippingInfo(w: Warehouse): (r: Option<Contribution>)
    ensures r.None? <==> !w.isShipping
    ensures r.Some? ==> r.value.name == w.name && r.value.items == w.shipped
  {
    if w.isShipping then Some(Contribution(w.name, w.shipped)) else None
  }

  /** `shipItem`: hands out `min(amount, stock)` of a listed item with positive stock,
      records that quantity (even 0) and raises the flag; otherwise hands out 0 and
      changes nothing. The stock itself is left as it was. */
  function ShipItem(w: Warehouse, item: string, amount: int): (r: (Warehouse, int))
    ensures r.0.name == w.name && r.0.stock == w.stock
    ensures Available(w, item) > 0 ==>
              && r.1 == Min(amount, Available(w, item))
              && r.0.isShipping
              && r.0.shipped == w.shipped[item := r.1]
    ensures Available(w, item) == 0 ==> r.1 == 0 && r.0 == w
    ensures amount >= 0 ==> r.1 == Min(amount, Available(w, item))
    ensures amount >= 0 ==> 0 <= r.1 <= amount
    ensures w.isShipping ==> r.0.isShipping
    ensures Consistent(w) ==> Consistent(r.0)
  {
    if item in w.stock && w.stock[item] > 0 then
      var toBeShipped := Min(amount, w.stock[item]);
      (w.(isShipping := true, shipped := w.shipped[item := toBeShipped]), toBeShipped)
    else
      (w, 0)
  }

  /** The quantity of `item` a warehouse has recorded as shipped (0 when none). */
  function ShippedQty(w: Warehouse, item: string): int
  {
    if item in w.shipped then w.shipped[item] else 0
  }

  /** Two steps that each change records only inside their own item sets change
      records only inside the union. */
  lemma {:induction false} SameRecordsOutsideCompose(m0: map<string, int>, m1: map<string, int>, m2: map<string, int>,
                                  a: set<string>, b: set<string>)
    requires m1 - a == m0 - a
    requires m2 - b == m1 - b
    ensures m2 - (a + b) == m0 - (a + b)
  {
    forall x | x !in a + b
      ensures (x in m2 <==> x in m0) && (x in m2 ==> m2[x] == m0[x])
    {
      assert x in m1 - a <==> x in m0 - a;
      assert x in m2 - b <==> x in m1 - b;
      if x in m2 {
        assert (m2 - b)[x] == (m1 - b)[x];
        assert (m1 - a)[x] == (m0 - a)[x];
      }
    }
  }
}

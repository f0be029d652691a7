/**
 The order handed to the allocator: requested quantities per item.

 The source receives a Java `Map<String, Integer>`. Its iteration order decides
 which item the greedy split handles first, so the model makes that order explicit
 as a sequence of lines. A map never repeats a key; lemmas that depend on this
 say so with `DistinctItems`.
 */
module Orders {

  /** One entry of an order: an item and the quantity requested for it
      (not validated: it may be zero or negative). */
  datatype Line = Line(item: string, qty: int)

  /** An order, in the iteration order of the source's map. */
  type Order = seq<Line>

  /** No item appears on two lines, as in a map. */
  ghost predicate DistinctItems(order: Order)
  {
    forall i, j :: 0 <= i < j < |order| ==> order[i].item != order[j].item
  }

  /** The items the order mentions. */
  function Items(order: Order): set<string>
  {
    set i | 0 <= i < |order| :: order[i].item
  }

  /** The order read back as a map from item to requested quantity. */
  function ToMap(order: Order): (m: map<string, int>)
    ensures m.Keys == Items(order)
    ensures DistinctItems(order) ==>
              forall i :: 0 <= i < |order| ==> m[order[i].item] == order[i].qty
  {
    if order == [] then map[]
    else
      var rest := ToMap(order[1..]);
      ItemsOfTail(order);
      DistinctItemsOfTail(order);
      assert DistinctItems(order) ==>
               forall i :: 0 < i < |order| ==> rest[order[i].item] == order[i].qty by {
        if DistinctItems(order) {
          forall i | 0 < i < |order| ensures rest[order[i].item] == order[i].qty {
            assert order[1..][i - 1] == order[i];
          }
        }
      }
      rest[order[0].item := order[0].qty]
  }

  /** The items of a non-empty order: those of its first line and of the rest. */
  lemma {:induction false} ItemsOfTail(order: Order)
    requires order != []
    ensures Items(order) == {order[0].item} + Items(order[1..])
  {
  }

  /** Dropping the first line keeps the items distinct, and the first item is not among the rest. */
  lemma {:induction false} DistinctItemsOfTail(order: Order)
    requires order != []
    ensures DistinctItems(order) ==> DistinctItems(order[1..]) && order[0].item !in Items(order[1..])
  {
  }
}

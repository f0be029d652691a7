/**
 The shipment plan (OrderResult.java): an append-only list of warehouse
 contributions, kept in the order they were added.
 */
module OrderResults {
  import opened Warehouses

  datatype OrderResult = OrderResult(entries: seq<Contribution>)

  /** `new OrderResult()`: a plan with no entries. */
  function Empty(): (r: OrderResult)
    ensures |r.entries| == 0
  {
    OrderResult([])
  }

  /** `add`: one more entry at the end; the earlier entries keep their places. */
  function Add(r: OrderResult, e: Contribution): (r': OrderResult)
    ensures |r'.entries| == |r.entries| + 1
    ensures r'.entries[|r.entries|] == e
    ensures forall i :: 0 <= i < |r.entries| ==> r'.entries[i] == r.entries[i]
  {
    OrderResult(r.entries + [e])
  }

  /** `getResult`: the entries, unchanged. */
  function GetResult(r: OrderResult): seq<Contribution>
  {
    r.entries
  }
}

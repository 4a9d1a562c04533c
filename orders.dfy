/**
  The order records the dashboard reads from the store's JSON. Only the
  fields the core reads are kept. A string field the JSON may omit is the
  empty string when absent, which is how every use in the core treats it.
 */
module Orders {
  import opened Text

  /** A `total` field: absent, a value `float()` accepts, or one it rejects. */
  datatype Amount = Absent | Number(value: real) | Malformed

  /** One `meta_data` entry of a line item (`key`, `value`; "" when absent). */
  datatype MetaEntry = MetaEntry(key: string, value: string)

  datatype LineItem = LineItem(name: Option<string>, total: Amount, metaData: seq<MetaEntry>)

  datatype Order = Order(
    id: int,
    status: Option<string>,
    total: Amount,
    dateCreated: string,
    createdVia: string,
    customerId: Option<int>,
    lineItems: seq<LineItem>)

  predicate IsCompleted(o: Order)
  {
    o.status == Some("completed")
  }

  predicate IsRefunded(o: Order)
  {
    o.status == Some("refunded")
  }

  /** `created_via == 'subscription'`: a renewal rather than a new purchase. */
  predicate IsRecurring(o: Order)
  {
    o.createdVia == "subscription"
  }

  /** `float(order.get('total', 0))`; `None` where `float` raises. */
  function TotalOrZero(o: Order): Option<real>
  {
    match o.total
    case Absent => Some(0.0)
    case Number(v) => Some(v)
    case Malformed => None
  }

  /** `float(...)` does not raise on the total of any order of `s`. */
  predicate TotalsReadable(s: seq<Order>)
  {
    forall i :: 0 <= i < |s| ==> TotalOrZero(s[i]).Some?
  }

  /** `sum(float(o.get('total', 0)) for o in s)` */
  function SumTotals(s: seq<Order>): real
    requires TotalsReadable(s)
  {
    if s == [] then 0.0 else SumTotals(s[..|s| - 1]) + TotalOrZero(s[|s| - 1]).value
  }
}

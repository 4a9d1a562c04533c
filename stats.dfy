/**
  `calculate_stats`: the headline figures of the dashboard's overview.
  An order counts as valid when it has a `total` that `float()` accepts;
  revenue figures add up valid orders only, while the completed and
  refunded counts take every order with that status.
 */
module Stats {
  import opened Text
  import opened Seqs
  import opened Orders

  /** `'total' in order` and `float(order['total'])` does not raise. */
  predicate HasValidTotal(o: Order)
  {
    o.total.Number?
  }

  /** `order.get('status', 'unknown')` */
  function StatusKey(o: Order): string
  {
    match o.status
    case None => "unknown"
    case Some(s) => s
  }

  /** `order.get('customer_id', 0)` */
  function CustomerKey(o: Order): int
  {
    match o.customerId
    case None => 0
    case Some(c) => c
  }

  datatype Stats = Stats(
    totalOrders: nat,
    totalRevenue: real,
    refundedAmount: real,
    completedOrders: nat,
    refundedOrders: nat,
    customerCount: nat,
    revenueByProduct: map<string, real>,
    statusBreakdown: map<string, nat>,
    avgOrderValue: real)

  // ---------------------------------------------------------------------------
  // Specification functions

  /** `sum(float(o['total']) for o in s if o in valid_orders)` */
  function SumValidTotals(s: seq<Order>): real
  {
    if s == [] then 0.0
    else
      var last := s[|s| - 1];
      SumValidTotals(s[..|s| - 1]) + (if HasValidTotal(last) then last.total.value else 0.0)
  }

  /** `set(o.get('customer_id', 0) for o in s)` */
  function CustomerIds(s: seq<Order>): set<int>
  {
    set o | o in s :: CustomerKey(o)
  }

  /** `Counter(o.get('status', 'unknown') for o in s)` */
  function StatusCounts(s: seq<Order>): map<string, nat>
  {
    if s == [] then map[]
    else
      var m := StatusCounts(s[..|s| - 1]);
      var k := StatusKey(s[|s| - 1]);
      m[k := (if k in m then m[k] else 0) + 1]
  }

  function HasStatusKey(k: string): Order -> bool
  {
    o => StatusKey(o) == k
  }

  /** A line item whose revenue is booked under `name`: it has that name and a readable total. */
  predicate BooksUnder(item: LineItem, name: string)
  {
    item.name == Some(name) && item.total.Number?
  }

  /** The product loop over one order's line items: `revenue[item['name']] += float(item['total'])`. */
  function AddItems(m: map<string, real>, items: seq<LineItem>): map<string, real>
  {
    if items == [] then m
    else
      var prev := AddItems(m, items[..|items| - 1]);
      var item := items[|items| - 1];
      if item.name.Some? && item.total.Number? then
        var n := item.name.value;
        prev[n := (if n in prev then prev[n] else 0.0) + item.total.value]
      else prev
  }

  /** The product loop over the orders: only completed orders with a valid total book their items. */
  function AddOrders(m: map<string, real>, s: seq<Order>): map<string, real>
  {
    if s == [] then m
    else
      var prev := AddOrders(m, s[..|s| - 1]);
      var o := s[|s| - 1];
      if IsCompleted(o) && HasValidTotal(o) then AddItems(prev, o.lineItems) else prev
  }

  /** The `revenue_by_product` dictionary. */
  function RevenueByProduct(orders: seq<Order>): map<string, real>
  {
    AddOrders(map[], orders)
  }

  /** Reference definition: the revenue of the items booked under `name` in one order. */
  function ItemRevenue(items: seq<LineItem>, name: string): real
  {
    if items == [] then 0.0
    else
      var item := items[|items| - 1];
      ItemRevenue(items[..|items| - 1], name) + (if BooksUnder(item, name) then item.total.value else 0.0)
  }

  /** Reference definition: the revenue booked under `name` over all completed orders with a valid total. */
  function ProductRevenue(s: seq<Order>, name: string): real
  {
    if s == [] then 0.0
    else
      var o := s[|s| - 1];
      ProductRevenue(s[..|s| - 1], name) + (if IsCompleted(o) && HasValidTotal(o) then ItemRevenue(o.lineItems, name) else 0.0)
  }

  /** Some completed order with a valid total has an item booked under `name`. */
  ghost predicate SellsProduct(s: seq<Order>, name: string)
  {
    exists i, j :: 0 <= i < |s| && IsCompleted(s[i]) && HasValidTotal(s[i])
      && 0 <= j < |s[i].lineItems| && BooksUnder(s[i].lineItems[j], name)
  }

  function Get(m: map<string, real>, k: string): real
  {
    if k in m then m[k] else 0.0
  }

  // ---------------------------------------------------------------------------
  // calculate_stats

  /** `calculate_stats`: `None` stands for the empty dictionary returned for no orders. */
  method CalculateStats(orders: seq<Order>) returns (r: Option<Stats>)
    ensures r.None? <==> orders == []
    ensures r.Some? ==>
      var st := r.value;
      var completed := Filter(orders, IsCompleted);
      var refunded := Filter(orders, IsRefunded);
      var valid := Filter(orders, HasValidTotal);
      && st.totalOrders == |valid|
      && st.completedOrders == |completed|
      && st.refundedOrders == |refunded|
      && st.totalRevenue == SumValidTotals(completed)
      && st.refundedAmount == SumValidTotals(refunded)
      && st.customerCount == |CustomerIds(valid)|
      && st.statusBreakdown == StatusCounts(valid)
      && st.revenueByProduct == RevenueByProduct(orders)
      && st.avgOrderValue == (if |completed| == 0 then 0.0 else st.totalRevenue / |completed| as real)
  {
    if orders == [] {
      return None;
    }
    var completed := Filter(orders, IsCompleted);
    var refunded := Filter(orders, IsRefunded);

    var valid := ValidOrders(orders);
    var totalRevenue := SumValidTotals(completed);
    var avg := if |completed| > 0 then totalRevenue / |completed| as real else 0.0;
    assert forall i :: 0 <= i < |completed| ==> completed[i] in completed;
    var revenue := BookProducts(completed);
    CompletedOnlyBook(orders);

    r := Some(Stats(
      |valid|,
      totalRevenue,
      SumValidTotals(refunded),
      |completed|,
      |refunded|,
      |CustomerIds(valid)|,
      revenue,
      StatusCounts(valid),
      avg));
  }

  /** The validation loop: the orders whose total is present and readable, in order. */
  method ValidOrders(orders: seq<Order>) returns (valid: seq<Order>)
    ensures valid == Filter(orders, HasValidTotal)
  {
    valid := [];
    for i := 0 to |orders|
      invariant valid == Filter(orders[..i], HasValidTotal)
    {
      assert orders[..i + 1] == orders[..i] + [orders[i]];
      assert (orders[..i] + [orders[i]])[..i] == orders[..i];
      if orders[i].total.Number? {
        valid := valid + [orders[i]];
      }
    }
    assert orders[..|orders|] == orders;
  }

  /** The product analysis loop over the completed orders. */
  method BookProducts(completed: seq<Order>) returns (revenue: map<string, real>)
    requires forall i :: 0 <= i < |completed| ==> IsCompleted(completed[i])
    ensures revenue == AddOrders(map[], completed)
  {
    revenue := map[];
    for i := 0 to |completed|
      invariant revenue == AddOrders(map[], completed[..i])
    {
      var order := completed[i];
      assert completed[..i + 1] == completed[..i] + [order];
      assert (completed[..i] + [order])[..i] == completed[..i];
      if order.total.Number? {
        revenue := BookItems(revenue, order.lineItems);
      }
    }
    assert completed[..|completed|] == completed;
  }

  /** The inner loop over one order's line items. */
  method BookItems(m: map<string, real>, items: seq<LineItem>) returns (revenue: map<string, real>)
    ensures revenue == AddItems(m, items)
  {
    revenue := m;
    for j := 0 to |items|
      invariant revenue == AddItems(m, items[..j])
    {
      var item := items[j];
      assert items[..j + 1] == items[..j] + [item];
      assert (items[..j] + [item])[..j] == items[..j];
      if item.name.Some? && item.total.Number? {
        var name := item.name.value;
        revenue := revenue[name := (if name in revenue then revenue[name] else 0.0) + item.total.value];
      }
    }
    assert items[..|items|] == items;
  }

  // ---------------------------------------------------------------------------
  // Properties

  /** Only completed orders book revenue, so running the product loop over the completed orders alone gives the same dictionary. */
  lemma {:induction false} CompletedOnlyBook(orders: seq<Order>)
    ensures AddOrders(map[], Filter(orders, IsCompleted)) == RevenueByProduct(orders)
  {
    if orders != [] {
      var init, o := orders[..|orders| - 1], orders[|orders| - 1];
      CompletedOnlyBook(init);
      if IsCompleted(o) {
        var f := Filter(init, IsCompleted) + [o];
        assert Filter(orders, IsCompleted) == f;
        assert f[..|f| - 1] == Filter(init, IsCompleted) && f[|f| - 1] == o;
      } else {
        assert Filter(orders, IsCompleted) == Filter(init, IsCompleted);
      }
    }
  }

  /** `Counter`: a status is a key exactly when some order has it, and its count is the number of orders with it. */
  lemma {:induction false} StatusCountsCount(s: seq<Order>, k: string)
    ensures k in StatusCounts(s) <==> |Filter(s, HasStatusKey(k))| > 0
    ensures k in StatusCounts(s) ==> StatusCounts(s)[k] == |Filter(s, HasStatusKey(k))|
  {
    if s != [] {
      StatusCountsCount(s[..|s| - 1], k);
    }
  }

  /** The status breakdown accounts for every valid order: the counts add up to the number of orders. */
  lemma {:induction false} StatusCountsTotal(s: seq<Order>)
    ensures CountSum(StatusCounts(s), StatusKeys(s)) == |s|
  {
    if s != [] {
      var init, o := s[..|s| - 1], s[|s| - 1];
      StatusCountsTotal(init);
      StatusKeysCover(init);
      var k := StatusKey(o);
      var m := StatusCounts(init);
      if k in StatusKeys(init) {
        CountSumBump(m, StatusKeys(init), k);
      } else {
        StatusKeysAgainst(init, k);
        CountSumFresh(m, StatusKeys(init), k);
      }
    }
  }

  /** The distinct statuses of `s`, in first-seen order: the `Counter`'s key order. */
  function StatusKeys(s: seq<Order>): (ks: seq<string>)
  {
    if s == [] then []
    else
      var prev := StatusKeys(s[..|s| - 1]);
      var k := StatusKey(s[|s| - 1]);
      if k in prev then prev else prev + [k]
  }

  lemma {:induction false} StatusKeysCover(s: seq<Order>)
    ensures forall k :: k in StatusKeys(s) <==> k in StatusCounts(s)
    ensures forall i, j :: 0 <= i < j < |StatusKeys(s)| ==> StatusKeys(s)[i] != StatusKeys(s)[j]
  {
    if s != [] {
      StatusKeysCover(s[..|s| - 1]);
    }
  }

  lemma StatusKeysAgainst(s: seq<Order>, k: string)
    requires k !in StatusKeys(s)
    ensures k !in StatusCounts(s)
  {
    StatusKeysCover(s);
  }

  /** The counts of `m` at the keys `ks`, added up. */
  function CountSum(m: map<string, nat>, ks: seq<string>): nat
  {
    if ks == [] then 0
    else CountSum(m, ks[..|ks| - 1]) + (if ks[|ks| - 1] in m then m[ks[|ks| - 1]] else 0)
  }

  lemma {:induction false} CountSumBump(m: map<string, nat>, ks: seq<string>, k: string)
    requires forall i, j :: 0 <= i < j < |ks| ==> ks[i] != ks[j]
    ensures CountSum(m[k := (if k in m then m[k] else 0) + 1], ks) == CountSum(m, ks) + (if k in ks then 1 else 0)
  {
    if ks != [] {
      var init := ks[..|ks| - 1];
      CountSumBump(m, init, k);
      if ks[|ks| - 1] == k {
        assert k !in init by {
          forall i | 0 <= i < |init| ensures init[i] != k {
            assert ks[i] != ks[|ks| - 1];
          }
        }
      }
    }
  }

  lemma {:induction false} CountSumFresh(m: map<string, nat>, ks: seq<string>, k: string)
    requires forall i, j :: 0 <= i < j < |ks| ==> ks[i] != ks[j]
    requires k !in m && k !in ks
    ensures CountSum(m[k := 1], ks + [k]) == CountSum(m, ks) + 1
  {
    var ks' := ks + [k];
    assert ks'[..|ks'| - 1] == ks;
    CountSumBump(m, ks, k);
  }

  /** There are never more customers than valid orders, and at least one when there is an order. */
  lemma {:induction false} CustomerCountBound(s: seq<Order>)
    ensures |CustomerIds(s)| <= |s|
    ensures s != [] ==> |CustomerIds(s)| >= 1
  {
    if s != [] {
      var init, o := s[..|s| - 1], s[|s| - 1];
      CustomerCountBound(init);
      assert s == init + [o];
      assert CustomerIds(s) == CustomerIds(init) + {CustomerKey(o)};
    }
  }

  /** One order's item loop adds each item's total to its product's entry and creates entries only for booked names. */
  lemma {:induction false} AddItemsAt(m: map<string, real>, items: seq<LineItem>, name: string)
    ensures name in AddItems(m, items) <==>
      name in m || exists j :: 0 <= j < |items| && BooksUnder(items[j], name)
    ensures Get(AddItems(m, items), name) == Get(m, name) + ItemRevenue(items, name)
  {
    if items != [] {
      var init, item := items[..|items| - 1], items[|items| - 1];
      AddItemsAt(m, init, name);
      if exists j :: 0 <= j < |items| && BooksUnder(items[j], name) {
        var j :| 0 <= j < |items| && BooksUnder(items[j], name);
        if j < |init| {
          assert BooksUnder(init[j], name);
        }
      }
    }
  }

  lemma {:induction false} AddOrdersAt(m: map<string, real>, s: seq<Order>, name: string)
    ensures name in AddOrders(m, s) <==> name in m || SellsProduct(s, name)
    ensures Get(AddOrders(m, s), name) == Get(m, name) + ProductRevenue(s, name)
  {
    if s != [] {
      var init, o := s[..|s| - 1], s[|s| - 1];
      AddOrdersAt(m, init, name);
      var prev := AddOrders(m, init);
      if IsCompleted(o) && HasValidTotal(o) {
        AddItemsAt(prev, o.lineItems, name);
      }
      if SellsProduct(s, name) {
        var i, j :| 0 <= i < |s| && IsCompleted(s[i]) && HasValidTotal(s[i])
          && 0 <= j < |s[i].lineItems| && BooksUnder(s[i].lineItems[j], name);
        if i < |init| {
          assert init[i] == s[i];
        }
      }
      if SellsProduct(init, name) {
        var i, j :| 0 <= i < |init| && IsCompleted(init[i]) && HasValidTotal(init[i])
          && 0 <= j < |init[i].lineItems| && BooksUnder(init[i].lineItems[j], name);
        assert s[i] == init[i];
      }
    }
  }

  /** `revenue_by_product` lists exactly the products some completed valid order sells, each with its total booked revenue. */
  lemma RevenueByProductContents(orders: seq<Order>, name: string)
    ensures name in RevenueByProduct(orders) <==> SellsProduct(orders, name)
    ensures name in RevenueByProduct(orders) ==> RevenueByProduct(orders)[name] == ProductRevenue(orders, name)
  {
    AddOrdersAt(map[], orders, name);
  }

  /** Revenue of orders that are neither completed nor valid never reaches the product table. */
  lemma {:induction false} ProductRevenueIgnoresOthers(s: seq<Order>, o: Order, name: string)
    requires !IsCompleted(o) || !HasValidTotal(o)
    ensures ProductRevenue(s + [o], name) == ProductRevenue(s, name)
    ensures RevenueByProduct(s + [o]) == RevenueByProduct(s)
  {
    assert (s + [o])[..|s|] == s;
  }

  /** A completed order and a refunded order are different orders, so the two revenue sums never share an order. */
  lemma {:induction false} RevenueSplitsByStatus(s: seq<Order>)
    ensures SumValidTotals(Filter(s, IsCompleted)) + SumValidTotals(Filter(s, IsRefunded))
      == SumValidTotals(Filter(s, IsCompletedOrRefunded))
  {
    if s != [] {
      var init, o := s[..|s| - 1], s[|s| - 1];
      RevenueSplitsByStatus(init);
      var c, f, b := Filter(init, IsCompleted), Filter(init, IsRefunded), Filter(init, IsCompletedOrRefunded);
      if IsCompleted(o) {
        assert Filter(s, IsCompleted) == c + [o];
        assert Filter(s, IsRefunded) == f;
        assert Filter(s, IsCompletedOrRefunded) == b + [o];
        SumValidTotalsAppend(c, o);
        SumValidTotalsAppend(b, o);
      } else if IsRefunded(o) {
        assert Filter(s, IsCompleted) == c;
        assert Filter(s, IsRefunded) == f + [o];
        assert Filter(s, IsCompletedOrRefunded) == b + [o];
        SumValidTotalsAppend(f, o);
        SumValidTotalsAppend(b, o);
      } else {
        assert Filter(s, IsCompleted) == c;
        assert Filter(s, IsRefunded) == f;
        assert Filter(s, IsCompletedOrRefunded) == b;
      }
    }
  }

  predicate IsCompletedOrRefunded(o: Order)
  {
    IsCompleted(o) || IsRefunded(o)
  }

  lemma SumValidTotalsAppend(s: seq<Order>, o: Order)
    ensures SumValidTotals(s + [o]) == SumValidTotals(s) + (if HasValidTotal(o) then o.total.value else 0.0)
  {
    assert (s + [o])[..|s|] == s;
  }
}

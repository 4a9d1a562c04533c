/**
  `aggregate_product_fiscal_year`: per-product revenue and order counts of
  the completed orders, with each order's total split between individual
  and group purchases (a total above 200 marks a group order) and between
  new purchases and subscription renewals.

  The function keeps ten `defaultdict`s keyed by product name. Here they
  are one dictionary from product name to a `ProductLine` holding the ten
  figures; `Dictionaries` recovers the ten, each keyed exactly where
  `aggregate_product_fiscal_year` creates an entry.

  Two behaviours of the code are kept as written. The product revenue
  dictionary gains a key with value 0.0 for an item whose `total` is
  present but not a number: the augmented assignment reads the
  `defaultdict` entry before `float()` raises. And a completed order whose
  own total is not a number makes the whole aggregation raise.
 */
module Products {
  import opened Text
  import opened Seqs
  import opened Orders
  import Stats

  /** A call that either returns a value or raises. */
  datatype Outcome<T> = Returns(value: T) | Raises

  /** One product's entry in each of the ten dictionaries. */
  datatype ProductLine = ProductLine(
    revenue: real,
    orderCount: nat,
    individualRevenue: real,
    groupRevenue: real,
    individualCount: nat,
    groupCount: nat,
    newRevenue: real,
    recurringRevenue: real,
    newCount: nat,
    recurringCount: nat)

  /** What each `defaultdict` reads for a product it has not seen. */
  const Zero := ProductLine(0.0, 0, 0.0, 0.0, 0, 0, 0.0, 0.0, 0, 0)

  /** The ten dictionaries the function returns, in its return order. */
  datatype ProductTotals = ProductTotals(
    revenue: map<string, real>,
    orderCount: map<string, nat>,
    individualRevenue: map<string, real>,
    groupRevenue: map<string, real>,
    individualCount: map<string, nat>,
    groupCount: map<string, nat>,
    newRevenue: map<string, real>,
    recurringRevenue: map<string, real>,
    newCount: map<string, nat>,
    recurringCount: map<string, nat>)

  /** Orders with a total above this are counted as group orders. */
  const GroupThreshold: real := 200.0

  /** Reading product `p` from the dictionaries, which creates no entry by itself. */
  function LineOf(lines: map<string, ProductLine>, p: string): ProductLine
  {
    if p in lines then lines[p] else Zero
  }

  /** The ten dictionaries: a product is a key of a counting dictionary (and of its revenue partner) once it has been counted there. */
  function Dictionaries(lines: map<string, ProductLine>): ProductTotals
  {
    ProductTotals(
      map p | p in lines :: lines[p].revenue,
      map p | p in lines && lines[p].orderCount > 0 :: lines[p].orderCount,
      map p | p in lines && lines[p].individualCount > 0 :: lines[p].individualRevenue,
      map p | p in lines && lines[p].groupCount > 0 :: lines[p].groupRevenue,
      map p | p in lines && lines[p].individualCount > 0 :: lines[p].individualCount,
      map p | p in lines && lines[p].groupCount > 0 :: lines[p].groupCount,
      map p | p in lines && lines[p].newCount > 0 :: lines[p].newRevenue,
      map p | p in lines && lines[p].recurringCount > 0 :: lines[p].recurringRevenue,
      map p | p in lines && lines[p].newCount > 0 :: lines[p].newCount,
      map p | p in lines && lines[p].recurringCount > 0 :: lines[p].recurringCount)
  }

  // ---------------------------------------------------------------------------
  // Specification

  /** The item loop of one order: the product lines after it and `products_in_order`. */
  function ListItems(lines: map<string, ProductLine>, items: seq<LineItem>): (map<string, ProductLine>, set<string>)
  {
    if items == [] then (lines, {})
    else
      var (ls, ps) := ListItems(lines, items[..|items| - 1]);
      var item := items[|items| - 1];
      if item.name.None? || item.total.Absent? then (ls, ps)
      else
        var n := item.name.value;
        var l := LineOf(ls, n);
        match item.total
        case Number(v) => (ls[n := l.(revenue := l.revenue + v)], ps + {n})
        case _ => (ls[n := l], ps)
  }

  /** One product's share of one order: the order is counted once, in one of each pair of splits. */
  function Tally(l: ProductLine, isGroup: bool, isRecurring: bool, total: real): ProductLine
  {
    var l1 := l.(orderCount := l.orderCount + 1);
    var l2 :=
      if isGroup then l1.(groupRevenue := l1.groupRevenue + total, groupCount := l1.groupCount + 1)
      else l1.(individualRevenue := l1.individualRevenue + total, individualCount := l1.individualCount + 1);
    if isRecurring then l2.(recurringRevenue := l2.recurringRevenue + total, recurringCount := l2.recurringCount + 1)
    else l2.(newRevenue := l2.newRevenue + total, newCount := l2.newCount + 1)
  }

  /** The counting loop of one order over every product of `ps`. */
  function TallyAll(lines: map<string, ProductLine>, ps: set<string>, isGroup: bool, isRecurring: bool, total: real): map<string, ProductLine>
  {
    map k | k in lines.Keys + ps :: if k in ps then Tally(LineOf(lines, k), isGroup, isRecurring, total) else lines[k]
  }

  /** One pass of the outer loop. */
  function AddOrder(lines: map<string, ProductLine>, o: Order): Outcome<map<string, ProductLine>>
  {
    if !IsCompleted(o) then Returns(lines)
    else match TotalOrZero(o)
      case None => Raises
      case Some(total) =>
        var (ls, ps) := ListItems(lines, o.lineItems);
        Returns(TallyAll(ls, ps, total > GroupThreshold, IsRecurring(o), total))
  }

  /** The outer loop over the orders. */
  function AddOrders(orders: seq<Order>): Outcome<map<string, ProductLine>>
  {
    if orders == [] then Returns(map[])
    else match AddOrders(orders[..|orders| - 1])
      case Raises => Raises
      case Returns(lines) => AddOrder(lines, orders[|orders| - 1])
  }

  /** What `aggregate_product_fiscal_year(orders)` returns, or that it raises. */
  function Aggregate(orders: seq<Order>): Outcome<ProductTotals>
  {
    match AddOrders(orders)
    case Raises => Raises
    case Returns(lines) => Returns(Dictionaries(lines))
  }

  // ---------------------------------------------------------------------------
  // The loops

  /** `aggregate_product_fiscal_year` */
  method AggregateProductFiscalYear(orders: seq<Order>) returns (r: Outcome<ProductTotals>)
    ensures r == Aggregate(orders)
  {
    var lines: map<string, ProductLine> := map[];
    for i := 0 to |orders|
      invariant AddOrders(orders[..i]) == Returns(lines)
    {
      var order := orders[i];
      assert orders[..i + 1] == orders[..i] + [order];
      assert (orders[..i] + [order])[..i] == orders[..i];
      if !IsCompleted(order) {
        continue;
      }
      var orderTotal: real;
      match order.total {
        case Malformed =>
          RaisesLater(orders, i + 1);
          return Raises;
        case Absent => orderTotal := 0.0;
        case Number(v) => orderTotal := v;
      }
      var isRecurring := order.createdVia == "subscription";
      var productsInOrder;
      lines, productsInOrder := ListOrderItems(lines, order.lineItems);
      var isGroupOrder := orderTotal > GroupThreshold;
      lines := CountProducts(lines, productsInOrder, isGroupOrder, isRecurring, orderTotal);
    }
    assert orders[..|orders|] == orders;
    r := Returns(Dictionaries(lines));
  }

  /** Once a prefix raises, the whole loop raises. */
  lemma {:induction false} RaisesLater(orders: seq<Order>, k: nat)
    requires k <= |orders|
    requires AddOrders(orders[..k]).Raises?
    ensures AddOrders(orders).Raises?
    decreases |orders| - k
  {
    if k < |orders| {
      assert orders[..k + 1][..k] == orders[..k];
      RaisesLater(orders, k + 1);
    } else {
      assert orders[..k] == orders;
    }
  }

  /** The item loop of one order. */
  method ListOrderItems(lines: map<string, ProductLine>, items: seq<LineItem>)
    returns (lines': map<string, ProductLine>, products: set<string>)
    ensures (lines', products) == ListItems(lines, items)
  {
    lines', products := lines, {};
    for j := 0 to |items|
      invariant (lines', products) == ListItems(lines, items[..j])
    {
      var item := items[j];
      assert items[..j + 1] == items[..j] + [item];
      assert (items[..j] + [item])[..j] == items[..j];
      if item.name.Some? && !item.total.Absent? {
        var name := item.name.value;
        var current := LineOf(lines', name);
        if item.total.Number? {
          lines' := lines'[name := current.(revenue := current.revenue + item.total.value)];
          products := products + {name};
        } else {
          // the entry is created by reading it, before `float()` raises
          lines' := lines'[name := current];
        }
      }
    }
    assert items[..|items|] == items;
  }

  /** The counting loop of one order, over `products_in_order` in whatever order the set yields. */
  method CountProducts(lines: map<string, ProductLine>, ps: set<string>, isGroup: bool, isRecurring: bool, total: real)
    returns (lines': map<string, ProductLine>)
    ensures lines' == TallyAll(lines, ps, isGroup, isRecurring, total)
  {
    lines' := lines;
    TallyNone(lines, isGroup, isRecurring, total);
    var rest := ps;
    ghost var done: set<string> := {};
    while rest != {}
      invariant done !! rest && done + rest == ps
      invariant lines' == TallyAll(lines, done, isGroup, isRecurring, total)
      decreases |rest|
    {
      var pname :| pname in rest;
      TallyStep(lines, done, pname, isGroup, isRecurring, total);
      lines' := lines'[pname := Tally(LineOf(lines', pname), isGroup, isRecurring, total)];
      done := done + {pname};
      rest := rest - {pname};
    }
  }

  lemma TallyNone(lines: map<string, ProductLine>, isGroup: bool, isRecurring: bool, total: real)
    ensures TallyAll(lines, {}, isGroup, isRecurring, total) == lines
  {
  }

  lemma TallyStep(lines: map<string, ProductLine>, done: set<string>, p: string, isGroup: bool, isRecurring: bool, total: real)
    requires p !in done
    ensures var t := TallyAll(lines, done, isGroup, isRecurring, total);
      t[p := Tally(LineOf(t, p), isGroup, isRecurring, total)] == TallyAll(lines, done + {p}, isGroup, isRecurring, total)
  {
  }

  // ---------------------------------------------------------------------------
  // Reference definitions

  /** The names of the items of one order that `float()` reads without raising: `products_in_order`. */
  function Counted(items: seq<LineItem>): set<string>
  {
    if items == [] then {}
    else
      var item := items[|items| - 1];
      Counted(items[..|items| - 1]) + (if item.name.Some? && item.total.Number? then {item.name.value} else {})
  }

  /** The order lists `p` with a `total` field present, so the revenue dictionary gets an entry for it. */
  predicate Lists(items: seq<LineItem>, p: string)
  {
    exists j :: 0 <= j < |items| && items[j].name == Some(p) && !items[j].total.Absent?
  }

  /** `float(order.get('total', 0))`, with 0.0 where it would raise. */
  function OrderTotal(o: Order): real
  {
    match TotalOrZero(o)
    case Some(v) => v
    case None => 0.0
  }

  /** The order is completed and one of its items books revenue under `p`. */
  predicate Counts(o: Order, p: string)
  {
    IsCompleted(o) && p in Counted(o.lineItems)
  }

  function CountsProduct(p: string): Order -> bool
  {
    o => Counts(o, p)
  }

  function CountsAsGroup(p: string): Order -> bool
  {
    o => Counts(o, p) && OrderTotal(o) > GroupThreshold
  }

  function CountsAsRecurring(p: string): Order -> bool
  {
    o => Counts(o, p) && IsRecurring(o)
  }

  function CountsAsIndividual(p: string): Order -> bool
  {
    o => Counts(o, p) && !(OrderTotal(o) > GroupThreshold)
  }

  function CountsAsNew(p: string): Order -> bool
  {
    o => Counts(o, p) && !IsRecurring(o)
  }

  /** Some completed order lists `p`. */
  ghost predicate Listed(orders: seq<Order>, p: string)
  {
    exists i :: 0 <= i < |orders| && IsCompleted(orders[i]) && Lists(orders[i].lineItems, p)
  }

  /** The item revenue booked under `p` over the completed orders. */
  function BookedRevenue(orders: seq<Order>, p: string): real
  {
    if orders == [] then 0.0
    else
      var o := orders[|orders| - 1];
      BookedRevenue(orders[..|orders| - 1], p) + (if IsCompleted(o) then Stats.ItemRevenue(o.lineItems, p) else 0.0)
  }

  /** The sum of the order totals of `s`. */
  function TotalOfOrders(s: seq<Order>): real
  {
    if s == [] then 0.0 else TotalOfOrders(s[..|s| - 1]) + OrderTotal(s[|s| - 1])
  }

  /** Every split of a product's orders adds up to the whole, and a split with no orders has no revenue. */
  predicate Balanced(l: ProductLine)
  {
    && l.individualCount + l.groupCount == l.orderCount
    && l.newCount + l.recurringCount == l.orderCount
    && l.individualRevenue + l.groupRevenue == l.newRevenue + l.recurringRevenue
    && (l.individualCount == 0 ==> l.individualRevenue == 0.0)
    && (l.groupCount == 0 ==> l.groupRevenue == 0.0)
    && (l.newCount == 0 ==> l.newRevenue == 0.0)
    && (l.recurringCount == 0 ==> l.recurringRevenue == 0.0)
  }

  function CountAt(m: map<string, nat>, k: string): nat
  {
    if k in m then m[k] else 0
  }

  // ---------------------------------------------------------------------------
  // Properties

  /** The aggregation raises exactly when some completed order has a total `float()` rejects. */
  lemma {:induction false} AggregateRaises(orders: seq<Order>)
    ensures Aggregate(orders).Raises? <==>
      exists i :: 0 <= i < |orders| && IsCompleted(orders[i]) && orders[i].total.Malformed?
  {
    if orders != [] {
      var init, o := orders[..|orders| - 1], orders[|orders| - 1];
      AggregateRaises(init);
      if exists i :: 0 <= i < |init| && IsCompleted(init[i]) && init[i].total.Malformed? {
        var i :| 0 <= i < |init| && IsCompleted(init[i]) && init[i].total.Malformed?;
        assert orders[i] == init[i];
      }
      if exists i :: 0 <= i < |orders| && IsCompleted(orders[i]) && orders[i].total.Malformed? {
        var i :| 0 <= i < |orders| && IsCompleted(orders[i]) && orders[i].total.Malformed?;
        if i < |init| {
          assert init[i] == orders[i];
        }
      }
    }
  }

  lemma {:induction false} CountedIff(items: seq<LineItem>, p: string)
    ensures p in Counted(items) <==> exists j :: 0 <= j < |items| && Stats.BooksUnder(items[j], p)
    ensures p in Counted(items) ==> Lists(items, p)
  {
    if items != [] {
      var init := items[..|items| - 1];
      CountedIff(init, p);
      if exists j :: 0 <= j < |items| && Stats.BooksUnder(items[j], p) {
        var j :| 0 <= j < |items| && Stats.BooksUnder(items[j], p);
        if j < |init| {
          assert Stats.BooksUnder(init[j], p);
        }
      }
      if p in Counted(init) {
        var j :| 0 <= j < |init| && init[j].name == Some(p) && !init[j].total.Absent?;
        assert items[j] == init[j];
      }
    }
  }

  /** The item loop of one order: its product set is `Counted`, and `p`'s line gains exactly the revenue its items book. */
  lemma {:induction false} ListItemsAt(lines: map<string, ProductLine>, items: seq<LineItem>, p: string)
    ensures ListItems(lines, items).1 == Counted(items)
    ensures p in ListItems(lines, items).0 <==> p in lines || Lists(items, p)
    ensures LineOf(ListItems(lines, items).0, p)
      == LineOf(lines, p).(revenue := LineOf(lines, p).revenue + Stats.ItemRevenue(items, p))
  {
    if items != [] {
      var init, item := items[..|items| - 1], items[|items| - 1];
      ListItemsAt(lines, init, p);
      if Lists(items, p) {
        var j :| 0 <= j < |items| && items[j].name == Some(p) && !items[j].total.Absent?;
        if j < |init| {
          assert init[j] == items[j];
        }
      }
      if Lists(init, p) {
        var j :| 0 <= j < |init| && init[j].name == Some(p) && !init[j].total.Absent?;
        assert items[j] == init[j];
      }
    }
  }

  /** Tallying the products of an order touches exactly those products. */
  lemma TallyAllAt(lines: map<string, ProductLine>, ps: set<string>, isGroup: bool, isRecurring: bool, total: real, p: string)
    ensures p in TallyAll(lines, ps, isGroup, isRecurring, total) <==> p in lines || p in ps
    ensures LineOf(TallyAll(lines, ps, isGroup, isRecurring, total), p)
      == if p in ps then Tally(LineOf(lines, p), isGroup, isRecurring, total) else LineOf(lines, p)
  {
  }

  /** One pass of the outer loop, seen from product `p`. */
  lemma AddOrderAt(lines: map<string, ProductLine>, o: Order, p: string)
    requires AddOrder(lines, o).Returns?
    ensures p in AddOrder(lines, o).value <==> p in lines || (IsCompleted(o) && Lists(o.lineItems, p))
    ensures var l := LineOf(lines, p);
      var l' := l.(revenue := l.revenue + Stats.ItemRevenue(o.lineItems, p));
      LineOf(AddOrder(lines, o).value, p)
        == if !IsCompleted(o) then l
           else if Counts(o, p) then Tally(l', OrderTotal(o) > GroupThreshold, IsRecurring(o), OrderTotal(o))
           else l'
  {
    if IsCompleted(o) {
      var (ls, ps) := ListItems(lines, o.lineItems);
      ListItemsAt(lines, o.lineItems, p);
      CountedIff(o.lineItems, p);
      TallyAllAt(ls, ps, OrderTotal(o) > GroupThreshold, IsRecurring(o), OrderTotal(o), p);
    }
  }

  /** Tallying keeps every split of a product's figures adding up. */
  lemma TallyBalanced(l: ProductLine, isGroup: bool, isRecurring: bool, total: real)
    requires Balanced(l)
    ensures Balanced(Tally(l, isGroup, isRecurring, total))
  {
  }

  /** Each product's line reports, against the orders themselves: which products appear, their item revenue, and how many of their orders were group or renewal orders and for how much. */
  lemma AggregateLine(orders: seq<Order>, p: string)
    requires AddOrders(orders).Returns?
    ensures var l := LineOf(AddOrders(orders).value, p);
      && (p in AddOrders(orders).value <==> Listed(orders, p))
      && l.revenue == BookedRevenue(orders, p)
      && l.orderCount == |Filter(orders, CountsProduct(p))|
      && l.individualCount == |Filter(orders, CountsAsIndividual(p))|
      && l.individualRevenue == TotalOfOrders(Filter(orders, CountsAsIndividual(p)))
      && l.groupCount == |Filter(orders, CountsAsGroup(p))|
      && l.groupRevenue == TotalOfOrders(Filter(orders, CountsAsGroup(p)))
      && l.newCount == |Filter(orders, CountsAsNew(p))|
      && l.newRevenue == TotalOfOrders(Filter(orders, CountsAsNew(p)))
      && l.recurringCount == |Filter(orders, CountsAsRecurring(p))|
      && l.recurringRevenue == TotalOfOrders(Filter(orders, CountsAsRecurring(p)))
      && Balanced(l)
  {
    AggregateKeysAndRevenue(orders, p);
    AggregateCounts(orders, p);
    AggregateOtherCounts(orders, p);
    AggregateSplitRevenue(orders, p);
    AggregateBalanced(orders, p);
  }

  lemma {:induction false} AggregateKeysAndRevenue(orders: seq<Order>, p: string)
    requires AddOrders(orders).Returns?
    ensures p in AddOrders(orders).value <==> Listed(orders, p)
    ensures LineOf(AddOrders(orders).value, p).revenue == BookedRevenue(orders, p)
  {
    if orders != [] {
      var init, o := orders[..|orders| - 1], orders[|orders| - 1];
      AggregateKeysAndRevenue(init, p);
      AddOrderAt(AddOrders(init).value, o, p);
      assert orders == init + [o];
      ListedStep(init, o, p);
    }
  }

  lemma {:induction false} AggregateCounts(orders: seq<Order>, p: string)
    requires AddOrders(orders).Returns?
    ensures var l := LineOf(AddOrders(orders).value, p);
      && l.orderCount == |Filter(orders, CountsProduct(p))|
      && l.groupCount == |Filter(orders, CountsAsGroup(p))|
      && l.recurringCount == |Filter(orders, CountsAsRecurring(p))|
  {
    if orders != [] {
      var init, o := orders[..|orders| - 1], orders[|orders| - 1];
      AggregateCounts(init, p);
      AddOrderAt(AddOrders(init).value, o, p);
    }
  }

  lemma {:induction false} AggregateOtherCounts(orders: seq<Order>, p: string)
    requires AddOrders(orders).Returns?
    ensures var l := LineOf(AddOrders(orders).value, p);
      && l.individualCount == |Filter(orders, CountsAsIndividual(p))|
      && l.newCount == |Filter(orders, CountsAsNew(p))|
  {
    if orders != [] {
      var init, o := orders[..|orders| - 1], orders[|orders| - 1];
      AggregateOtherCounts(init, p);
      AddOrderAt(AddOrders(init).value, o, p);
    }
  }

  lemma AggregateSplitRevenue(orders: seq<Order>, p: string)
    requires AddOrders(orders).Returns?
    ensures var l := LineOf(AddOrders(orders).value, p);
      && l.individualRevenue == TotalOfOrders(Filter(orders, CountsAsIndividual(p)))
      && l.groupRevenue == TotalOfOrders(Filter(orders, CountsAsGroup(p)))
      && l.newRevenue == TotalOfOrders(Filter(orders, CountsAsNew(p)))
      && l.recurringRevenue == TotalOfOrders(Filter(orders, CountsAsRecurring(p)))
  {
    AggregateIndividualRevenue(orders, p);
    AggregateGroupRevenue(orders, p);
    AggregateNewRevenue(orders, p);
    AggregateRecurringRevenue(orders, p);
  }

  lemma {:induction false} AggregateIndividualRevenue(orders: seq<Order>, p: string)
    requires AddOrders(orders).Returns?
    ensures LineOf(AddOrders(orders).value, p).individualRevenue == TotalOfOrders(Filter(orders, CountsAsIndividual(p)))
  {
    if orders != [] {
      var init, o := orders[..|orders| - 1], orders[|orders| - 1];
      AggregateIndividualRevenue(init, p);
      AddOrderAt(AddOrders(init).value, o, p);
      var f := Filter(init, CountsAsIndividual(p));
      if CountsAsIndividual(p)(o) {
        assert Filter(orders, CountsAsIndividual(p)) == f + [o];
        TotalOfOrdersAppend(f, o);
      } else {
        assert Filter(orders, CountsAsIndividual(p)) == f;
      }
    }
  }

  lemma {:induction false} AggregateNewRevenue(orders: seq<Order>, p: string)
    requires AddOrders(orders).Returns?
    ensures LineOf(AddOrders(orders).value, p).newRevenue == TotalOfOrders(Filter(orders, CountsAsNew(p)))
  {
    if orders != [] {
      var init, o := orders[..|orders| - 1], orders[|orders| - 1];
      AggregateNewRevenue(init, p);
      AddOrderAt(AddOrders(init).value, o, p);
      var f := Filter(init, CountsAsNew(p));
      if CountsAsNew(p)(o) {
        assert Filter(orders, CountsAsNew(p)) == f + [o];
        TotalOfOrdersAppend(f, o);
      } else {
        assert Filter(orders, CountsAsNew(p)) == f;
      }
    }
  }

  lemma {:induction false} AggregateGroupRevenue(orders: seq<Order>, p: string)
    requires AddOrders(orders).Returns?
    ensures LineOf(AddOrders(orders).value, p).groupRevenue == TotalOfOrders(Filter(orders, CountsAsGroup(p)))
  {
    if orders != [] {
      var init, o := orders[..|orders| - 1], orders[|orders| - 1];
      AggregateGroupRevenue(init, p);
      AddOrderAt(AddOrders(init).value, o, p);
      var f := Filter(init, CountsAsGroup(p));
      if CountsAsGroup(p)(o) {
        assert Filter(orders, CountsAsGroup(p)) == f + [o];
        TotalOfOrdersAppend(f, o);
      } else {
        assert Filter(orders, CountsAsGroup(p)) == f;
      }
    }
  }

  lemma {:induction false} AggregateRecurringRevenue(orders: seq<Order>, p: string)
    requires AddOrders(orders).Returns?
    ensures LineOf(AddOrders(orders).value, p).recurringRevenue == TotalOfOrders(Filter(orders, CountsAsRecurring(p)))
  {
    if orders != [] {
      var init, o := orders[..|orders| - 1], orders[|orders| - 1];
      AggregateRecurringRevenue(init, p);
      AddOrderAt(AddOrders(init).value, o, p);
      var f := Filter(init, CountsAsRecurring(p));
      if CountsAsRecurring(p)(o) {
        assert Filter(orders, CountsAsRecurring(p)) == f + [o];
        TotalOfOrdersAppend(f, o);
      } else {
        assert Filter(orders, CountsAsRecurring(p)) == f;
      }
    }
  }

  lemma {:induction false} AggregateBalanced(orders: seq<Order>, p: string)
    requires AddOrders(orders).Returns?
    ensures Balanced(LineOf(AddOrders(orders).value, p))
  {
    if orders != [] {
      var init, o := orders[..|orders| - 1], orders[|orders| - 1];
      AggregateBalanced(init, p);
      var lines := AddOrders(init).value;
      AddOrderAt(lines, o, p);
      if Counts(o, p) {
        TallyBalanced(LineOf(lines, p).(revenue := LineOf(lines, p).revenue + Stats.ItemRevenue(o.lineItems, p)),
                      OrderTotal(o) > GroupThreshold, IsRecurring(o), OrderTotal(o));
      }
    }
  }

  lemma ListedStep(init: seq<Order>, o: Order, p: string)
    ensures Listed(init + [o], p) <==> Listed(init, p) || (IsCompleted(o) && Lists(o.lineItems, p))
  {
    var s := init + [o];
    if Listed(s, p) {
      var i :| 0 <= i < |s| && IsCompleted(s[i]) && Lists(s[i].lineItems, p);
      if i < |init| {
        assert init[i] == s[i];
      }
    }
    if Listed(init, p) {
      var i :| 0 <= i < |init| && IsCompleted(init[i]) && Lists(init[i].lineItems, p);
      assert s[i] == init[i];
    }
    if IsCompleted(o) && Lists(o.lineItems, p) {
      assert s[|init|] == o;
    }
  }

  lemma TotalOfOrdersAppend(s: seq<Order>, o: Order)
    ensures TotalOfOrders(s + [o]) == TotalOfOrders(s) + OrderTotal(o)
  {
    assert (s + [o])[..|s|] == s;
  }

  /** In the ten returned dictionaries, each product's individual and group figures, and its new and renewal figures, add up to its order count and to the same revenue. */
  lemma AggregateSplitsAddUp(orders: seq<Order>, p: string)
    requires Aggregate(orders).Returns?
    ensures var t := Aggregate(orders).value;
      && (p in t.orderCount ==> p in t.revenue)
      && (p in t.orderCount <==> |Filter(orders, CountsProduct(p))| > 0)
      && CountAt(t.individualCount, p) + CountAt(t.groupCount, p) == CountAt(t.orderCount, p)
      && CountAt(t.newCount, p) + CountAt(t.recurringCount, p) == CountAt(t.orderCount, p)
      && Stats.Get(t.individualRevenue, p) + Stats.Get(t.groupRevenue, p)
         == Stats.Get(t.newRevenue, p) + Stats.Get(t.recurringRevenue, p)
      && Stats.Get(t.individualRevenue, p) == TotalOfOrders(Filter(orders, CountsAsIndividual(p)))
      && Stats.Get(t.groupRevenue, p) == TotalOfOrders(Filter(orders, CountsAsGroup(p)))
      && Stats.Get(t.newRevenue, p) == TotalOfOrders(Filter(orders, CountsAsNew(p)))
      && Stats.Get(t.recurringRevenue, p) == TotalOfOrders(Filter(orders, CountsAsRecurring(p)))
  {
    AggregateCounts(orders, p);
    AggregateBalanced(orders, p);
    AggregateSplitRevenue(orders, p);
  }
}

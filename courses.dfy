/**
  `analyze_course_orders`: the per-course report. A course order is a
  completed order with a line item whose name contains the course name
  (both lower-cased). The report splits the course orders into new
  purchases and subscription renewals, and classifies each matching line
  item as an individual subscription (monthly, annual or neither, from its
  `payment-term` meta entry or its name) or a group purchase (with a seat
  count read from its name or estimated from the order total).

  The individual, group, monthly and annual lists are de-duplicated by
  order id; the seat buckets are not, so an order with two group items of
  the same size is listed twice in that bucket, as `analyze_course_orders`
  does.
 */
module Courses {
  import opened Text
  import opened Seqs
  import opened Orders
  import opened Seats
  import OrderStore

  datatype Term = Monthly | Annual | Unspecified

  /** How a line item that mentions the course counts. */
  datatype ItemKind = Other | Individual(term: Term) | Group(seats: nat)

  /** The per-course lists built by the item loop, before de-duplication. */
  datatype Buckets = Buckets(
    individual: seq<Order>,
    group: seq<Order>,
    monthly: seq<Order>,
    annual: seq<Order>,
    bySeats: map<nat, seq<Order>>)

  const NoBuckets := Buckets([], [], [], [], map[])

  datatype CourseSummary = CourseSummary(
    totalOrders: nat,
    totalRevenue: real,
    newOrders: nat,
    newRevenue: real,
    recurringOrders: nat,
    recurringRevenue: real,
    individualOrders: nat,
    individualMonthly: nat,
    individualAnnual: nat,
    individualRevenue: real,
    groupOrders: nat,
    groupBySeats: map<nat, seq<Order>>,
    groupRevenue: real)

  /** `None` when no order matches, an exception when a course order's total is not a number, else the report. */
  datatype CourseAnalysis = NoCourseOrders | Raises | Found(summary: CourseSummary)

  // ---------------------------------------------------------------------------
  // Specification

  /** `course_name.lower() in item['name'].lower()` */
  predicate Mentions(item: LineItem, course: string)
  {
    item.name.Some? && Contains(Lower(item.name.value), Lower(course))
  }

  predicate ContainsCourse(o: Order, course: string)
  {
    exists j :: 0 <= j < |o.lineItems| && Mentions(o.lineItems[j], course)
  }

  predicate IsCourseOrder(o: Order, course: string)
  {
    IsCompleted(o) && ContainsCourse(o, course)
  }

  function CourseOrderTest(course: string): Order -> bool
  {
    o => IsCourseOrder(o, course)
  }

  /** The lower-cased value of the first `payment-term` meta entry. */
  function PaymentTerm(meta: seq<MetaEntry>): Option<string>
  {
    if meta == [] then None
    else if meta[0].key == "payment-term" then Some(Lower(meta[0].value))
    else PaymentTerm(meta[1..])
  }

  /** `float(order.get('total', 0))` where it does not raise. */
  function OrderTotal(o: Order): real
  {
    match TotalOrZero(o)
    case Some(v) => v
    case None => 0.0
  }

  /** How one line item of an order counts toward the course. */
  function Classify(item: LineItem, course: string, orderTotal: real): ItemKind
  {
    if !Mentions(item, course) then Other
    else
      var name := Lower(item.name.value);
      if Contains(name, "individual") then
        var term := PaymentTerm(item.metaData);
        if term == Some("monthly") || Contains(name, "monthly") then Individual(Monthly)
        else if term == Some("annual") || Contains(name, "annual") then Individual(Annual)
        else Individual(Unspecified)
      else if Contains(name, "group") || Contains(name, "seats") then
        Group(match ExtractSeats(name) case Some(n) => n case None => SeatsFromTotal(orderTotal))
      else Other
  }

  function SeatList(m: map<nat, seq<Order>>, n: nat): seq<Order>
  {
    if n in m then m[n] else []
  }

  /** One pass of the item loop. */
  function AddItem(b: Buckets, o: Order, kind: ItemKind): Buckets
  {
    match kind
    case Other => b
    case Individual(term) =>
      var b1 := b.(individual := b.individual + [o]);
      if term == Monthly then b1.(monthly := b1.monthly + [o])
      else if term == Annual then b1.(annual := b1.annual + [o])
      else b1
    case Group(n) =>
      b.(group := b.group + [o], bySeats := b.bySeats[n := SeatList(b.bySeats, n) + [o]])
  }

  function AddItems(b: Buckets, o: Order, items: seq<LineItem>, course: string): Buckets
  {
    if items == [] then b
    else AddItem(AddItems(b, o, items[..|items| - 1], course), o, Classify(items[|items| - 1], course, OrderTotal(o)))
  }

  /** The item loop over all course orders. */
  function BucketOrders(s: seq<Order>, course: string): Buckets
  {
    if s == [] then NoBuckets
    else AddItems(BucketOrders(s[..|s| - 1], course), s[|s| - 1], s[|s| - 1].lineItems, course)
  }

  function IdIn(ids: set<int>): Order -> bool
  {
    (o: Order) => o.id in ids
  }

  lemma FilterKeepsTotalsReadable(s: seq<Order>, keep: Order -> bool)
    requires TotalsReadable(s)
    ensures TotalsReadable(Filter(s, keep))
  {
    var f := Filter(s, keep);
    forall i | 0 <= i < |f| ensures TotalOrZero(f[i]).Some? {
      assert f[i] in f;
    }
  }

  /** The orders the report is about. */
  function CourseOrders(orders: seq<Order>, course: string): seq<Order>
  {
    Filter(orders, CourseOrderTest(course))
  }

  /** `[o for o in course_orders if o['id'] in ids]`: the course orders whose id appears in `picked`. */
  function Deduplicated(courseOrders: seq<Order>, picked: seq<Order>): seq<Order>
  {
    Filter(courseOrders, IdIn(OrderStore.IdSet(picked)))
  }

  /** The report over course orders whose totals `float` accepts. */
  function Summarize(courseOrders: seq<Order>, course: string): CourseSummary
    requires TotalsReadable(courseOrders)
  {
    var newOrders := Filter(courseOrders, o => !IsRecurring(o));
    var recurringOrders := Filter(courseOrders, IsRecurring);
    var b := BucketOrders(courseOrders, course);
    var individual := Deduplicated(courseOrders, b.individual);
    var group := Deduplicated(courseOrders, b.group);
    FilterKeepsTotalsReadable(courseOrders, o => !IsRecurring(o));
    FilterKeepsTotalsReadable(courseOrders, IsRecurring);
    FilterKeepsTotalsReadable(courseOrders, IdIn(OrderStore.IdSet(b.individual)));
    FilterKeepsTotalsReadable(courseOrders, IdIn(OrderStore.IdSet(b.group)));
    CourseSummary(
      |courseOrders|, SumTotals(courseOrders),
      |newOrders|, SumTotals(newOrders),
      |recurringOrders|, SumTotals(recurringOrders),
      |individual|, |Deduplicated(courseOrders, b.monthly)|, |Deduplicated(courseOrders, b.annual)|,
      SumTotals(individual),
      |group|, b.bySeats, SumTotals(group))
  }

  /** What `analyze_course_orders(orders, course_name)` returns, or that it raises. */
  function Analyze(orders: seq<Order>, course: string): CourseAnalysis
  {
    var courseOrders := CourseOrders(orders, course);
    if courseOrders == [] then NoCourseOrders
    else if !TotalsReadable(courseOrders) then Raises
    else Found(Summarize(courseOrders, course))
  }

  // ---------------------------------------------------------------------------
  // The loops

  /** `analyze_course_orders` */
  method AnalyzeCourseOrders(orders: seq<Order>, course: string) returns (r: CourseAnalysis)
    ensures r == Analyze(orders, course)
  {
    var courseOrders := FindCourseOrders(orders, course);
    if courseOrders == [] {
      return NoCourseOrders;
    }
    var totalRevenue := SumOrderTotals(courseOrders);
    if totalRevenue.None? {
      return Raises;
    }
    var newOrders := Filter(courseOrders, o => !IsRecurring(o));
    var recurringOrders := Filter(courseOrders, IsRecurring);
    FilterKeepsTotalsReadable(courseOrders, o => !IsRecurring(o));
    FilterKeepsTotalsReadable(courseOrders, IsRecurring);
    var b := BucketCourseOrders(courseOrders, course);
    var individual := Deduplicated(courseOrders, b.individual);
    var group := Deduplicated(courseOrders, b.group);
    var monthly := Deduplicated(courseOrders, b.monthly);
    var annual := Deduplicated(courseOrders, b.annual);
    FilterKeepsTotalsReadable(courseOrders, IdIn(OrderStore.IdSet(b.individual)));
    FilterKeepsTotalsReadable(courseOrders, IdIn(OrderStore.IdSet(b.group)));
    r := Found(CourseSummary(
      |courseOrders|, totalRevenue.value,
      |newOrders|, SumTotals(newOrders),
      |recurringOrders|, SumTotals(recurringOrders),
      |individual|, |monthly|, |annual|, SumTotals(individual),
      |group|, b.bySeats, SumTotals(group)));
  }

  /** The first loop: the completed orders with an item naming the course. */
  method FindCourseOrders(orders: seq<Order>, course: string) returns (courseOrders: seq<Order>)
    ensures courseOrders == CourseOrders(orders, course)
  {
    courseOrders := [];
    for i := 0 to |orders|
      invariant courseOrders == Filter(orders[..i], CourseOrderTest(course))
    {
      var order := orders[i];
      assert orders[..i + 1] == orders[..i] + [order];
      assert (orders[..i] + [order])[..i] == orders[..i];
      if order.status != Some("completed") {
        continue;
      }
      var containsCourse := OrderContainsCourse(order, course);
      if containsCourse {
        courseOrders := courseOrders + [order];
      }
    }
    assert orders[..|orders|] == orders;
  }

  /** The inner search, which stops at the first item naming the course. */
  method OrderContainsCourse(order: Order, course: string) returns (found: bool)
    ensures found == ContainsCourse(order, course)
  {
    var courseLower := Lower(course);
    found := false;
    for j := 0 to |order.lineItems|
      invariant !found
      invariant forall k :: 0 <= k < j ==> !Mentions(order.lineItems[k], course)
    {
      var item := order.lineItems[j];
      if item.name.Some? && Contains(Lower(item.name.value), courseLower) {
        return true;
      }
    }
  }

  /** `sum(float(o.get('total', 0)) for o in s)`, `None` where `float` raises. */
  method SumOrderTotals(s: seq<Order>) returns (sum: Option<real>)
    ensures sum.Some? <==> TotalsReadable(s)
    ensures sum.Some? ==> sum.value == SumTotals(s)
  {
    var total := 0.0;
    for i := 0 to |s|
      invariant TotalsReadable(s[..i])
      invariant total == SumTotals(s[..i])
    {
      assert s[..i + 1][..i] == s[..i];
      match s[i].total {
        case Malformed =>
          return None;
        case Absent =>
        case Number(v) =>
          total := total + v;
      }
    }
    assert s[..|s|] == s;
    sum := Some(total);
  }

  /** The item loop over the course orders. */
  method BucketCourseOrders(courseOrders: seq<Order>, course: string) returns (b: Buckets)
    ensures b == BucketOrders(courseOrders, course)
  {
    b := NoBuckets;
    for i := 0 to |courseOrders|
      invariant b == BucketOrders(courseOrders[..i], course)
    {
      var order := courseOrders[i];
      assert courseOrders[..i + 1] == courseOrders[..i] + [order];
      assert (courseOrders[..i] + [order])[..i] == courseOrders[..i];
      var items := order.lineItems;
      for j := 0 to |items|
        invariant b == AddItems(BucketOrders(courseOrders[..i], course), order, items[..j], course)
      {
        assert items[..j + 1][..j] == items[..j];
        var kind := ClassifyItem(items[j], course, order);
        b := AddItem(b, order, kind);
      }
      assert items[..|items|] == items;
    }
    assert courseOrders[..|courseOrders|] == courseOrders;
  }

  /**
    The classification of one line item: individual exactly when the item
    names the course and "individual"; group exactly when it names the course
    and "group" or "seats" but not "individual"; monthly before annual; a
    group's seats read from the name when it has a count, else estimated from
    the order total.
   */
  method ClassifyItem(item: LineItem, course: string, order: Order) returns (kind: ItemKind)
    ensures kind == Classify(item, course, OrderTotal(order))
    ensures kind.Individual? <==> Mentions(item, course) && Contains(Lower(item.name.value), "individual")
    ensures kind.Group? <==>
      Mentions(item, course) && !Contains(Lower(item.name.value), "individual")
      && (Contains(Lower(item.name.value), "group") || Contains(Lower(item.name.value), "seats"))
    ensures kind.Individual? ==>
      (kind.term == Monthly <==>
        PaymentTerm(item.metaData) == Some("monthly") || Contains(Lower(item.name.value), "monthly"))
    ensures kind.Individual? ==>
      (kind.term == Annual <==>
        !(PaymentTerm(item.metaData) == Some("monthly") || Contains(Lower(item.name.value), "monthly"))
        && (PaymentTerm(item.metaData) == Some("annual") || Contains(Lower(item.name.value), "annual")))
    ensures kind.Group? && (forall i :: 0 <= i < |item.name.value| ==> !IsDigit(Lower(item.name.value)[i])) ==>
      kind.seats == SeatsFromTotal(OrderTotal(order))
    ensures kind.Group? && ExtractSeats(Lower(item.name.value)).Some? ==>
      exists i, j :: ReadsSeatsAt(Lower(item.name.value), i, j, kind.seats)
  {
    if item.name.None? || !Contains(Lower(item.name.value), Lower(course)) {
      return Other;
    }
    var itemName := Lower(item.name.value);
    if Contains(itemName, "individual") {
      var paymentTerm := FindPaymentTerm(item.metaData);
      if paymentTerm == Some("monthly") || Contains(itemName, "monthly") {
        kind := Individual(Monthly);
      } else if paymentTerm == Some("annual") || Contains(itemName, "annual") {
        kind := Individual(Annual);
      } else {
        kind := Individual(Unspecified);
      }
    } else if Contains(itemName, "group") || Contains(itemName, "seats") {
      var seatMatch := ExtractSeats(itemName);
      var seats: nat;
      if seatMatch.Some? {
        seats := seatMatch.value;
        ExtractSeatsSound(itemName);
      } else {
        seats := SeatsFromTotal(OrderTotal(order));
      }
      kind := Group(seats);
    } else {
      kind := Other;
    }
  }

  lemma ContainsWordAt(pre: string, word: string, post: string)
    ensures Contains(pre + word + post, word)
  {
    var hay := pre + word + post;
    assert hay[|pre|..] == word + post;
    ContainsIffOccurs(hay, word);
  }

  lemma SeatsNameSplits(name: string, prefix: string, digits: string, spaces: string, suffix: string)
    requires name == prefix + digits + spaces + "seats" + suffix
    ensures name == prefix + digits + spaces + "seat" + ("s" + suffix)
    ensures name == (prefix + digits + spaces) + "seats" + suffix
  {
  }

  /** A group item named like "Latin I group 5 seats" is a group purchase of the seats written in its name, whatever the order total. */
  lemma ClassifySeatsInName(item: LineItem, course: string, orderTotal: real,
                            prefix: string, n: nat, width: nat, spaces: string, suffix: string)
    requires Mentions(item, course) && !Contains(Lower(item.name.value), "individual")
    requires Lower(item.name.value) == prefix + PadDigits(n, width) + spaces + "seats" + suffix
    requires forall i :: 0 <= i < |prefix| ==> !IsDigit(prefix[i])
    requires 0 < width && n < Pow10(width)
    requires forall i :: 0 <= i < |spaces| ==> IsSpace(spaces[i])
    ensures Classify(item, course, orderTotal) == Group(n)
  {
    var name := Lower(item.name.value);
    SeatsNameSplits(name, prefix, PadDigits(n, width), spaces, suffix);
    ExtractSeatsOfName(prefix, n, width, spaces, "s" + suffix);
    assert ExtractSeats(name) == Some(n);
    ContainsWordAt(prefix + PadDigits(n, width) + spaces, "seats", suffix);
    assert Contains(name, "seats");
  }

  /** The meta-data loop, which stops at the first `payment-term` entry. */
  method FindPaymentTerm(meta: seq<MetaEntry>) returns (term: Option<string>)
    ensures term == PaymentTerm(meta)
  {
    for k := 0 to |meta|
      invariant PaymentTerm(meta) == PaymentTerm(meta[k..])
    {
      assert meta[k..][1..] == meta[k + 1..];
      if meta[k].key == "payment-term" {
        return Some(Lower(meta[k].value));
      }
    }
    return None;
  }
  // ---------------------------------------------------------------------------
  // Properties

  /** The lists of the report, named so that one lemma speaks of all of them. */
  datatype List = IndividualList | GroupList | MonthlyList | AnnualList | SeatsList(seats: nat)

  /** An item of this kind is appended to list `w`. */
  predicate Fits(kind: ItemKind, w: List)
  {
    match w
    case IndividualList => kind.Individual?
    case GroupList => kind.Group?
    case MonthlyList => kind == Individual(Monthly)
    case AnnualList => kind == Individual(Annual)
    case SeatsList(n) => kind == Group(n)
  }

  function ListOf(b: Buckets, w: List): seq<Order>
  {
    match w
    case IndividualList => b.individual
    case GroupList => b.group
    case MonthlyList => b.monthly
    case AnnualList => b.annual
    case SeatsList(n) => SeatList(b.bySeats, n)
  }

  /** The reference definition of a list's members: the order has a line item naming the course that belongs in it. */
  predicate HasItemFor(o: Order, course: string, w: List)
  {
    exists j :: 0 <= j < |o.lineItems| && Fits(Classify(o.lineItems[j], course, OrderTotal(o)), w)
  }

  function HasItemTest(course: string, w: List): Order -> bool
  {
    o => HasItemFor(o, course, w)
  }

  lemma AddItemList(b: Buckets, o: Order, kind: ItemKind, w: List)
    ensures ListOf(AddItem(b, o, kind), w) == ListOf(b, w) + (if Fits(kind, w) then [o] else [])
  {
  }

  lemma {:induction false} AddItemsList(b: Buckets, o: Order, items: seq<LineItem>, course: string, w: List, x: Order)
    ensures x in ListOf(AddItems(b, o, items, course), w) <==>
      (x in ListOf(b, w) || (x == o && exists j :: 0 <= j < |items| && Fits(Classify(items[j], course, OrderTotal(o)), w)))
  {
    if items != [] {
      var init, last := items[..|items| - 1], items[|items| - 1];
      AddItemsList(b, o, init, course, w, x);
      AddItemList(AddItems(b, o, init, course), o, Classify(last, course, OrderTotal(o)), w);
      if exists j :: 0 <= j < |init| && Fits(Classify(init[j], course, OrderTotal(o)), w) {
        var j :| 0 <= j < |init| && Fits(Classify(init[j], course, OrderTotal(o)), w);
        assert items[j] == init[j];
      }
      if exists j :: 0 <= j < |items| && Fits(Classify(items[j], course, OrderTotal(o)), w) {
        var j :| 0 <= j < |items| && Fits(Classify(items[j], course, OrderTotal(o)), w);
        if j < |init| {
          assert init[j] == items[j];
        }
      }
    }
  }

  /** Each list built by the item loop holds exactly the course orders with an item that belongs in it. */
  lemma {:induction false} BucketOrdersList(s: seq<Order>, course: string, w: List, x: Order)
    ensures x in ListOf(BucketOrders(s, course), w) <==> x in s && HasItemFor(x, course, w)
  {
    if s != [] {
      var init, last := s[..|s| - 1], s[|s| - 1];
      BucketOrdersList(init, course, w, x);
      AddItemsList(BucketOrders(init, course), last, last.lineItems, course, w, x);
      assert s == init + [last];
    }
  }

  predicate KeysNonEmpty(m: map<nat, seq<Order>>)
  {
    forall n :: n in m ==> m[n] != []
  }

  lemma {:induction false} AddItemsKeys(b: Buckets, o: Order, items: seq<LineItem>, course: string)
    requires KeysNonEmpty(b.bySeats)
    ensures KeysNonEmpty(AddItems(b, o, items, course).bySeats)
  {
    if items != [] {
      AddItemsKeys(b, o, items[..|items| - 1], course);
    }
  }

  /** Every seat count in the report lists at least one order. */
  lemma {:induction false} BucketOrdersKeys(s: seq<Order>, course: string)
    ensures KeysNonEmpty(BucketOrders(s, course).bySeats)
  {
    if s != [] {
      BucketOrdersKeys(s[..|s| - 1], course);
      AddItemsKeys(BucketOrders(s[..|s| - 1], course), s[|s| - 1], s[|s| - 1].lineItems, course);
    }
  }

  lemma FilterKeepsDistinctIds(s: seq<Order>, keep: Order -> bool)
    requires OrderStore.HasDistinctIds(s)
    ensures OrderStore.HasDistinctIds(Filter(s, keep))
  {
    var idx := FilterPositions(s, keep);
    var f := Filter(s, keep);
    forall i, j | 0 <= i < j < |f| ensures f[i].id != f[j].id {
      assert f[i] == s[idx[i]] && f[j] == s[idx[j]];
    }
  }

  /** With distinct ids, keeping the orders whose id is in a list of some of them keeps exactly that list's members. */
  lemma SelectByIds(s: seq<Order>, picked: seq<Order>, has: Order -> bool)
    requires OrderStore.HasDistinctIds(s)
    requires forall x :: x in picked <==> x in s && has(x)
    ensures Deduplicated(s, picked) == Filter(s, has)
  {
    forall x | x in s ensures IdIn(OrderStore.IdSet(picked))(x) == has(x) {
      if x.id in OrderStore.IdSet(picked) {
        var y :| y in picked && y.id == x.id;
        var i :| 0 <= i < |s| && s[i] == x;
        var k :| 0 <= k < |s| && s[k] == y;
        assert i == k;
      }
    }
    FilterCongruent(s, IdIn(OrderStore.IdSet(picked)), has);
  }

  /** Without any assumption on ids, a list whose members belong to another list keeps no more orders. */
  lemma SelectByIdsMonotone(s: seq<Order>, picked: seq<Order>, wider: seq<Order>)
    requires forall x :: x in picked ==> x in wider
    ensures |Deduplicated(s, picked)| <= |Deduplicated(s, wider)|
  {
    FilterMonotone(s, IdIn(OrderStore.IdSet(picked)), IdIn(OrderStore.IdSet(wider)));
  }

  lemma {:induction false} SumTotalsSplit(s: seq<Order>, keep: Order -> bool, drop: Order -> bool)
    requires TotalsReadable(s)
    requires forall x :: x in s ==> drop(x) == !keep(x)
    ensures TotalsReadable(Filter(s, keep)) && TotalsReadable(Filter(s, drop))
    ensures SumTotals(Filter(s, keep)) + SumTotals(Filter(s, drop)) == SumTotals(s)
  {
    FilterKeepsTotalsReadable(s, keep);
    FilterKeepsTotalsReadable(s, drop);
    if s != [] {
      var init, last := s[..|s| - 1], s[|s| - 1];
      assert TotalsReadable(init) by {
        forall i | 0 <= i < |init| ensures TotalOrZero(init[i]).Some? {
          assert init[i] == s[i];
        }
      }
      SumTotalsSplit(init, keep, drop);
      var a, b := Filter(init, keep), Filter(init, drop);
      FilterKeepsTotalsReadable(init, keep);
      FilterKeepsTotalsReadable(init, drop);
      if keep(last) {
        assert Filter(s, keep) == a + [last];
        assert (a + [last])[..|a|] == a;
        assert Filter(s, drop) == b;
      } else {
        assert Filter(s, drop) == b + [last];
        assert (b + [last])[..|b|] == b;
        assert Filter(s, keep) == a;
      }
    }
  }

  /** There is no report exactly when no completed order has a line item naming the course. */
  lemma AnalyzeNoCourseOrders(orders: seq<Order>, course: string)
    ensures Analyze(orders, course) == NoCourseOrders <==> forall o :: o in orders ==> !IsCourseOrder(o, course)
  {
    var co := CourseOrders(orders, course);
    if co != [] {
      assert co[0] in co;
    }
  }

  /** The report raises exactly when some course order has a total `float` rejects. */
  lemma AnalyzeRaises(orders: seq<Order>, course: string)
    ensures Analyze(orders, course) == Raises <==>
      exists o :: o in orders && IsCourseOrder(o, course) && o.total.Malformed?
  {
    var co := CourseOrders(orders, course);
    if exists o :: o in orders && IsCourseOrder(o, course) && o.total.Malformed? {
      var o :| o in orders && IsCourseOrder(o, course) && o.total.Malformed?;
      assert o in co;
      var i :| 0 <= i < |co| && co[i] == o;
      assert TotalOrZero(co[i]).None?;
    }
    if !TotalsReadable(co) {
      var i :| 0 <= i < |co| && TotalOrZero(co[i]).None?;
      assert co[i] in co;
    }
  }

  /** New purchases and renewals split the course orders between them, in number and in revenue. */
  lemma SummarizeNewAndRecurring(co: seq<Order>, course: string)
    requires TotalsReadable(co)
    ensures var r := Summarize(co, course);
      && r.totalOrders == r.newOrders + r.recurringOrders
      && r.totalRevenue == r.newRevenue + r.recurringRevenue
  {
    FilterSplit(co, IsRecurring, o => !IsRecurring(o));
    SumTotalsSplit(co, IsRecurring, o => !IsRecurring(o));
  }

  /** Each count is at most the number of course orders, and the monthly and annual counts are among the individual ones. */
  lemma SummarizeBounds(co: seq<Order>, course: string)
    requires TotalsReadable(co)
    ensures var r := Summarize(co, course);
      && r.individualOrders <= r.totalOrders
      && r.groupOrders <= r.totalOrders
      && r.individualMonthly <= r.individualOrders
      && r.individualAnnual <= r.individualOrders
  {
    var b := BucketOrders(co, course);
    forall x | x in b.monthly ensures x in b.individual {
      BucketOrdersList(co, course, MonthlyList, x);
      BucketOrdersList(co, course, IndividualList, x);
    }
    forall x | x in b.annual ensures x in b.individual {
      BucketOrdersList(co, course, AnnualList, x);
      BucketOrdersList(co, course, IndividualList, x);
    }
    SelectByIdsMonotone(co, b.monthly, b.individual);
    SelectByIdsMonotone(co, b.annual, b.individual);
  }

  /** Each de-duplicated list is the list of course orders with an item that belongs in it, when order ids are distinct. */
  lemma SelectedList(co: seq<Order>, course: string, w: List)
    requires OrderStore.HasDistinctIds(co)
    ensures Deduplicated(co, ListOf(BucketOrders(co, course), w)) == Filter(co, HasItemTest(course, w))
  {
    forall x ensures x in ListOf(BucketOrders(co, course), w) <==> x in co && HasItemTest(course, w)(x) {
      BucketOrdersList(co, course, w, x);
    }
    SelectByIds(co, ListOf(BucketOrders(co, course), w), HasItemTest(course, w));
  }

  /** With distinct order ids, each count and revenue is over the course orders that have an item of that kind. */
  lemma SummarizeCounts(co: seq<Order>, course: string)
    requires TotalsReadable(co)
    requires OrderStore.HasDistinctIds(co)
    ensures var r := Summarize(co, course);
      && r.individualOrders == |Filter(co, HasItemTest(course, IndividualList))|
      && r.individualMonthly == |Filter(co, HasItemTest(course, MonthlyList))|
      && r.individualAnnual == |Filter(co, HasItemTest(course, AnnualList))|
      && r.groupOrders == |Filter(co, HasItemTest(course, GroupList))|
      && TotalsReadable(Filter(co, HasItemTest(course, IndividualList)))
      && TotalsReadable(Filter(co, HasItemTest(course, GroupList)))
      && r.individualRevenue == SumTotals(Filter(co, HasItemTest(course, IndividualList)))
      && r.groupRevenue == SumTotals(Filter(co, HasItemTest(course, GroupList)))
  {
    SelectedList(co, course, IndividualList);
    SelectedList(co, course, MonthlyList);
    SelectedList(co, course, AnnualList);
    SelectedList(co, course, GroupList);
    FilterKeepsTotalsReadable(co, HasItemTest(course, IndividualList));
    FilterKeepsTotalsReadable(co, HasItemTest(course, GroupList));
  }

  /** The course orders of a store with distinct ids have distinct ids. */
  lemma CourseOrdersDistinct(orders: seq<Order>, course: string)
    requires OrderStore.HasDistinctIds(orders)
    ensures OrderStore.HasDistinctIds(CourseOrders(orders, course))
  {
    FilterKeepsDistinctIds(orders, CourseOrderTest(course));
  }

  /** A course order has a group item exactly when it is listed under some seat count. */
  lemma GroupIsUnionOfSeatLists(co: seq<Order>, course: string, x: Order)
    ensures var m := BucketOrders(co, course).bySeats;
      x in co && HasItemFor(x, course, GroupList) <==> exists n :: n in m && x in m[n]
  {
    var m := BucketOrders(co, course).bySeats;
    if x in co && HasItemFor(x, course, GroupList) {
      var j :| 0 <= j < |x.lineItems| && Fits(Classify(x.lineItems[j], course, OrderTotal(x)), GroupList);
      var n := Classify(x.lineItems[j], course, OrderTotal(x)).seats;
      assert HasItemFor(x, course, SeatsList(n));
      BucketOrdersList(co, course, SeatsList(n), x);
    }
    if exists n :: n in m && x in m[n] {
      var n :| n in m && x in m[n];
      BucketOrdersList(co, course, SeatsList(n), x);
      var j :| 0 <= j < |x.lineItems| && Fits(Classify(x.lineItems[j], course, OrderTotal(x)), SeatsList(n));
      assert Fits(Classify(x.lineItems[j], course, OrderTotal(x)), GroupList);
    }
  }

  /** Every seat bucket built by the item loop lists exactly the course orders with a group item of that size. */
  lemma BucketSeatLists(m: map<nat, seq<Order>>, co: seq<Order>, course: string)
    requires m == BucketOrders(co, course).bySeats
    ensures forall n: nat, x: Order :: x in SeatList(m, n) <==> x in co && HasItemFor(x, course, SeatsList(n))
  {
    forall n: nat, x: Order
      ensures x in SeatList(m, n) <==> x in co && HasItemFor(x, course, SeatsList(n))
    {
      BucketOrdersList(co, course, SeatsList(n), x);
      assert ListOf(BucketOrders(co, course), SeatsList(n)) == SeatList(m, n);
    }
  }

  /** The seat buckets together hold exactly the course orders with a group item. */
  lemma BucketGroupUnion(m: map<nat, seq<Order>>, co: seq<Order>, course: string)
    requires m == BucketOrders(co, course).bySeats
    ensures forall x: Order :: x in co && HasItemFor(x, course, GroupList) <==> exists n :: n in m && x in m[n]
  {
    forall x: Order
      ensures x in co && HasItemFor(x, course, GroupList) <==> exists n :: n in m && x in m[n]
    {
      GroupIsUnionOfSeatLists(co, course, x);
    }
  }

  /** The three facts about a seat map equal to the one the item loop builds. */
  lemma SeatMapFacts(m: map<nat, seq<Order>>, co: seq<Order>, course: string)
    requires m == BucketOrders(co, course).bySeats
    ensures KeysNonEmpty(m)
    ensures forall n: nat, x: Order :: x in SeatList(m, n) <==> x in co && HasItemFor(x, course, SeatsList(n))
    ensures forall x: Order :: x in co && HasItemFor(x, course, GroupList) <==> exists n :: n in m && x in m[n]
  {
    BucketOrdersKeys(co, course);
    BucketSeatLists(m, co, course);
    BucketGroupUnion(m, co, course);
  }

  lemma SummarizeSeats(co: seq<Order>, course: string)
    requires TotalsReadable(co)
    ensures Summarize(co, course).groupBySeats == BucketOrders(co, course).bySeats
  {
  }

  /** The seat buckets list exactly the course orders with a group item of that size, and no bucket is empty. */
  lemma SummarizeGroupBySeats(co: seq<Order>, course: string, m: map<nat, seq<Order>>)
    requires TotalsReadable(co) && m == Summarize(co, course).groupBySeats
    ensures KeysNonEmpty(m)
    ensures forall n: nat, x: Order :: x in SeatList(m, n) <==> x in co && HasItemFor(x, course, SeatsList(n))
    ensures forall x: Order :: x in co && HasItemFor(x, course, GroupList) <==> exists n :: n in m && x in m[n]
  {
    SummarizeSeats(co, course);
    SeatMapFacts(m, co, course);
  }
}

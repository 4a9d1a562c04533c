/**
  The school's fiscal year runs from September 1 to August 31 and is named
  after the calendar year in which it ends. `get_fiscal_year` maps a date to
  its fiscal year and `filter_orders_fiscal_year` keeps the orders placed in
  one fiscal year.
 */
module Fiscal {
  import opened Text
  import opened Seqs
  import opened Dates
  import opened Orders

  /** `get_fiscal_year`: the fiscal year whose twelve months, September to August, hold the date. */
  function FiscalYear(d: DateTime): (fy: int)
    ensures IsValid(d) ==> !Before(d, FiscalYearStart(fy)) && Before(d, FiscalYearStart(fy + 1))
  {
    if d.month >= 9 then d.year + 1 else d.year
  }

  /** The first instant of fiscal year `fy`: September 1 of the year before, at midnight. */
  function FiscalYearStart(fy: int): DateTime
  {
    DateTime(fy - 1, 9, 1, 0, 0, 0)
  }

  /** A date belongs to fiscal year `fy` exactly when it falls in `[September 1 of fy - 1, September 1 of fy)`. */
  lemma FiscalYearPeriod(d: DateTime, fy: int)
    requires IsValid(d)
    ensures FiscalYear(d) == fy <==> !Before(d, FiscalYearStart(fy)) && Before(d, FiscalYearStart(fy + 1))
  {
  }

  /** Later dates never belong to earlier fiscal years. */
  lemma FiscalYearMonotone(a: DateTime, b: DateTime)
    requires !Before(b, a)
    ensures FiscalYear(a) <= FiscalYear(b)
  {
  }

  /** September 15, 2024 falls in fiscal year 2025; August 15, 2024 in fiscal year 2024. */
  lemma FiscalYearExamples()
    ensures FiscalYear(DateTime(2024, 9, 15, 0, 0, 0)) == 2025
    ensures FiscalYear(DateTime(2024, 8, 15, 0, 0, 0)) == 2024
    ensures FiscalYear(DateTime(2024, 8, 31, 23, 59, 59)) + 1 == FiscalYear(DateTime(2024, 9, 1, 0, 0, 0))
  {
  }

  /** The test the filter applies to an order: a parseable `date_created` in fiscal year `fy`. */
  predicate PlacedIn(o: Order, fy: int)
  {
    var d := ParseDate(o.dateCreated);
    d.Some? && FiscalYear(d.value) == fy
  }

  function PlacedInYear(fy: int): Order -> bool
  {
    o => PlacedIn(o, fy)
  }

  /** `filter_orders_fiscal_year`: orders without a date or with one `strptime` rejects are skipped. */
  method FilterOrdersFiscalYear(orders: seq<Order>, fy: int) returns (filtered: seq<Order>)
    ensures filtered == Filter(orders, PlacedInYear(fy))
  {
    filtered := [];
    for i := 0 to |orders|
      invariant filtered == Filter(orders[..i], PlacedInYear(fy))
    {
      var order := orders[i];
      assert orders[..i + 1] == orders[..i] + [order];
      assert (orders[..i] + [order])[..i] == orders[..i];
      var dateStr := order.dateCreated;
      if dateStr == "" {
        assert ParseDate(dateStr).None?;
        continue;
      }
      var parsed := ParseDate(dateStr);
      if parsed.Some? && FiscalYear(parsed.value) == fy {
        filtered := filtered + [order];
      }
    }
    assert orders[..|orders|] == orders;
  }

  /** What the filter keeps: exactly the orders dated within the fiscal year's twelve months, in their original order. */
  lemma FilterOrdersFiscalYearContents(orders: seq<Order>, fy: int)
    ensures forall o :: o in Filter(orders, PlacedInYear(fy)) <==>
      (o in orders && ParseDate(o.dateCreated).Some?
       && !Before(ParseDate(o.dateCreated).value, FiscalYearStart(fy))
       && Before(ParseDate(o.dateCreated).value, FiscalYearStart(fy + 1)))
    ensures IsSubsequence(Filter(orders, PlacedInYear(fy)), orders)
  {
    forall o: Order | ParseDate(o.dateCreated).Some?
      ensures PlacedIn(o, fy) <==>
        (!Before(ParseDate(o.dateCreated).value, FiscalYearStart(fy))
         && Before(ParseDate(o.dateCreated).value, FiscalYearStart(fy + 1)))
    {
      FiscalYearPeriod(ParseDate(o.dateCreated).value, fy);
    }
    FilterIsSubsequence(orders, PlacedInYear(fy));
  }

  /** Filtering the same orders for two different fiscal years gives disjoint results. */
  lemma FiscalYearsDisjoint(orders: seq<Order>, fy1: int, fy2: int)
    requires fy1 != fy2
    ensures forall o :: !(o in Filter(orders, PlacedInYear(fy1)) && o in Filter(orders, PlacedInYear(fy2)))
  {
  }
}

# WooCommerce order dashboard: the order-report core, in Dafny

This project models the data side of a Streamlit dashboard over a
WooCommerce shop's orders (`streamlit_app.py`). The dashboard keeps a local
list of orders, which it refreshes from the shop, and computes several
reports from that list:

- **Order store** (`order_store.dfy`, module `OrderStore`):
  - `merge_orders` merges a freshly fetched batch into the stored list by
    order id (the fetched version wins), then sorts the list newest first by
    the `date_created` string.
  - `get_latest_order_date` finds the newest parseable order date.
  - Two local steps of the sync are also modelled: the `after` filter of an
    incremental fetch, and the final choice between merging, replacing and
    reporting "No orders found".
- **Summary statistics** (`stats.dfy`, module `Stats`): `calculate_stats`.
  - It counts orders with a readable total.
  - It computes completed revenue, refunded revenue, the average order
    value, distinct customers and the status histogram (`Counter`).
  - It builds per-product revenue from the line items of completed orders.
- **Fiscal years** (`fiscal.dfy`, module `Fiscal`): `get_fiscal_year` (the
  year runs September to August and is named after the year it ends in)
  and `filter_orders_fiscal_year`.
- **Per-product aggregation** (`products.dfy`, module `Products`):
  `aggregate_product_fiscal_year`.
  - It returns ten per-product dictionaries.
  - It counts each order once per product it lists.
  - It splits each product's orders into individual and group orders (order
    total above 200) and into new and renewal orders (`created_via ==
    "subscription"`).
- **Course analysis** (`courses.dfy`, module `Courses`, with `seats.dfy`,
  module `Seats`): `analyze_course_orders`.
  - Course orders are the completed orders with a line item naming the
    course.
  - It splits them into new purchases and renewals.
  - It classifies the matching items as individual (monthly or annual from
    the `payment-term` meta entry or the name) or as group.
  - It buckets group orders by a seat count. The count comes from the regular
    expression `(\d+)\s*seats?` on the item name, or else from a price table.
  - It de-duplicates the individual, group, monthly and annual lists by
    order id.
- **Customer views** (`customers.dfy`, module `Customers`): two pieces of
  logic from the monthly-sales and users views.
  - The exclusion list of product names. Names are compared after
    `' '.join(name.lower().split())`.
  - A customer's subscription length in calendar months.

Shared pieces:
- `orders.dfy`: the order record.
- `text.dfy`: `str` operations.
- `dates.dfy`: `strptime`, `strftime` and datetime order.
- `seqs.dfy`: list comprehensions as `Filter`.

Each loop of the source is a `method` proved equal to a specification
function. The lemmas prove what that function means against an
independent reference definition: membership, counts, sums, round trips and
orderings. A call to `float()` that can raise becomes an explicit error
outcome (`Raises`, or `None` in a sum). The model follows the code in these points:

- `aggregate_product_fiscal_year` and `analyze_course_orders` raise on a
  completed (course) order whose `total` is not a number; they do not skip
  the record.
- A full resync, or an incremental one with an empty store, stores the
  fetched list as fetched, without the newest-first sort.
- `group_by_seats` is not de-duplicated. An order with two group items of
  the same size appears twice in that bucket.

## Model

| member | source | states |
|---|---|---|
| Text.Lower | streamlit_app.py:433 | `s.lower()` keeps the length and lower-cases each character |
| Text.ContainsIffOccurs | streamlit_app.py:433 | `needle in hay` holds exactly when the needle occurs at some position of the haystack |
| Text.LexLessIrreflexive | streamlit_app.py:110 | string `<`, the sort key's order, is irreflexive |
| Text.LexLessTransitive | streamlit_app.py:110 | string `<` is transitive |
| Text.LexLessTotal | streamlit_app.py:110 | any two different strings are ordered one way or the other |
| Text.WordsOfJoin | streamlit_app.py:790-792 | splitting the space-join of words gives the words back |
| Text.NormalizeIdempotent | streamlit_app.py:790-792 | normalising a normalised name changes nothing, so keywords can be stored normalised |
| Text.NormalizeStrip | streamlit_app.py:805-807 | stripping a name before normalising it makes no difference |
| Text.WordsIgnoresOuterSpaces | streamlit_app.py:805-807 | white space around a string does not change `split()` |
| Seqs.Filter | streamlit_app.py:289-290 | a comprehension's result is no longer than its input and holds exactly the input's elements that pass the test |
| Seqs.FilterCounts | streamlit_app.py:289-290 | each passing element is kept with its multiplicity; every other element is dropped |
| Seqs.FilterIsSubsequence | streamlit_app.py:289-290 | a comprehension keeps its elements in their original order |
| Seqs.FilterSplit | streamlit_app.py:448-449 | a test and its negation split a list between them |
| Dates.ParseAs | streamlit_app.py:87-90 | a date `strptime` accepts is a valid datetime |
| Dates.ParseDate | streamlit_app.py:87-90 | a string the dashboard's parse (format chosen by a `T` in it) accepts gives a valid datetime and has the 19 characters of one of the two formats, with `T` or a space between date and time |
| Dates.ParseDateCanonical | streamlit_app.py:87-90 | a string the dashboard's parse accepts is exactly its date written back at full width with the separator it has |
| Dates.ParseAsFormatAs | streamlit_app.py:87-90 | formatting a valid datetime and parsing it with the same separator gives it back |
| Dates.FormatAsParseAs | streamlit_app.py:87-90 | a string the parser accepts is exactly the formatting of what it parsed |
| Dates.ParseDateFormatIso | streamlit_app.py:179-180 | the `after` value written with `strftime` parses back to the same datetime |
| Dates.BeforeIsStrictTotalOrder | streamlit_app.py:92 | datetime `<` is a strict total order |
| OrderStore.AssignById | streamlit_app.py:101-106 | the comprehension and the overwrite loop build the dictionary and its key insertion order that the merge is specified by |
| OrderStore.ValuesInKeyOrder | streamlit_app.py:109 | `list(values())` lists the dictionary's values in key insertion order |
| OrderStore.MergedOrders | streamlit_app.py:99-112 | the merge's result is newest first and a permutation of the dictionary's values |
| OrderStore.MergeOrders | streamlit_app.py:99-112 | the merge method returns the dictionary's values in key-insertion order, sorted newest first |
| OrderStore.MergeWinner | streamlit_app.py:101-106 | the version kept for an id is the last one with that id in the fetched batch, else the last one in the stored list |
| OrderStore.MergeContents | streamlit_app.py:99-112 | the merged list has distinct ids, exactly the ids of both inputs, the winning version of each, and is newest first |
| OrderStore.MergeIdempotent | streamlit_app.py:99-112 | merging the same batch a second time changes nothing |
| OrderStore.SortNewestFirst | streamlit_app.py:110 | the sort returns a permutation of its input |
| OrderStore.SortIsNewestFirst | streamlit_app.py:110 | the sort's result is ordered by descending date string |
| OrderStore.SortOfNewestFirst | streamlit_app.py:110 | the sort leaves a list that is already newest first unchanged, which is the stable sort's behaviour |
| OrderStore.PermutationKeepsIds | streamlit_app.py:109-110 | reordering the values neither loses nor adds an id and keeps ids distinct |
| OrderStore.DistinctIdsCount | streamlit_app.py:102 | a list with distinct ids has as many ids as orders |
| OrderStore.GetLatestOrderDate | streamlit_app.py:76-97 | returns no date exactly when no order has a parseable date; otherwise returns one of the parsed dates, and no parsed date is later |
| OrderStore.AfterParameter | streamlit_app.py:129-139 | an incremental fetch filters by the newest stored date, written with `T` between date and time, which parses back to one of the stored dates and is not earlier than any of them; a full fetch, or a store without a parseable date, does not filter |
| OrderStore.FinishSync | streamlit_app.py:242-276 | "No orders found" exactly when nothing was fetched and no store is merged into; merge when incremental with a store, else store the fetched list; the message chosen by incremental and fetched count; no new orders keep the store's size |
| Stats.CalculateStats | streamlit_app.py:284-331 | empty result exactly for no orders; otherwise each figure is the count, sum, customer set, status histogram or product table over the right subset, and the average is completed revenue over the number of completed orders |
| Stats.ValidOrders | streamlit_app.py:293-300 | the validation loop keeps, in order, exactly the orders whose total `float()` accepts |
| Stats.BookProducts | streamlit_app.py:319-329 | the product loop over the completed orders computes the product table that `RevenueByProductContents` characterises |
| Stats.BookItems | streamlit_app.py:322-329 | one order's item loop computes the item step that `AddItemsAt` characterises |
| Stats.CompletedOnlyBook | streamlit_app.py:319-329 | running the product loop over only the completed orders gives the same table |
| Stats.StatusCountsCount | streamlit_app.py:310 | a status is a key exactly when some valid order has it, and its count is the number of such orders |
| Stats.StatusCountsTotal | streamlit_app.py:310 | the histogram's counts add up to the number of valid orders |
| Stats.CustomerCountBound | streamlit_app.py:308 | there are never more distinct customers than valid orders, and at least one if there is an order |
| Stats.AddItemsAt | streamlit_app.py:322-329 | one order's item loop adds each readable item total to its product and creates entries only for booked names |
| Stats.RevenueByProductContents | streamlit_app.py:319-329 | the product table lists exactly the products some completed valid order sells, each with its booked item revenue |
| Stats.ProductRevenueIgnoresOthers | streamlit_app.py:320-321 | an order that is not completed, or has no valid total, adds nothing to the product table |
| Stats.RevenueSplitsByStatus | streamlit_app.py:304-305 | completed and refunded revenue together are the revenue of the orders with either status |
| Fiscal.FiscalYear | streamlit_app.py:333-339 | a valid date lies in the twelve months of its fiscal year: on or after September 1 of the year before, and before September 1 of that year |
| Fiscal.FiscalYearPeriod | streamlit_app.py:333-339 | a valid date is in fiscal year `fy` exactly when it falls in [September 1 of `fy - 1`, September 1 of `fy`) |
| Fiscal.FiscalYearMonotone | streamlit_app.py:333-339 | a later date never belongs to an earlier fiscal year |
| Fiscal.FiscalYearExamples | streamlit_app.py:336-339 | September 2024 is in fiscal year 2025 and August 2024 in 2024 |
| Fiscal.FilterOrdersFiscalYear | streamlit_app.py:341-357 | the loop keeps the orders whose date parses to the fiscal year, in order, skipping missing and unparseable dates |
| Fiscal.FilterOrdersFiscalYearContents | streamlit_app.py:341-357 | the filter keeps exactly the orders dated within the fiscal year's twelve months, in their original order |
| Fiscal.FiscalYearsDisjoint | streamlit_app.py:341-357 | filters for two different fiscal years share no order |
| Products.AggregateProductFiscalYear | streamlit_app.py:359-418 | the loops compute the aggregation function, raising where it raises |
| Products.AggregateRaises | streamlit_app.py:379 | the aggregation raises exactly when some completed order has a total `float()` rejects |
| Products.ListOrderItems | streamlit_app.py:383-390 | the item loop of one order computes the item step of the aggregation |
| Products.ListItemsAt | streamlit_app.py:383-390 | `products_in_order` is the set of names with readable item totals; a name gets a revenue entry exactly when an item with a total field lists it |
| Products.CountedIff | streamlit_app.py:383-390 | a product is counted in an order exactly when one of its items books revenue under it |
| Products.CountProducts | streamlit_app.py:395-412 | the counting loop, in any set order, computes the tally of every product of the order |
| Products.TallyAllAt | streamlit_app.py:395-412 | tallying an order touches exactly its products |
| Products.TallyBalanced | streamlit_app.py:395-412 | one tally keeps each pair of splits adding up to the product's order count and revenue |
| Products.AddOrderAt | streamlit_app.py:374-412 | one order changes a product's line only by its item revenue and, if it counts, one tally |
| Products.AggregateLine | streamlit_app.py:374-412 | each product's line equals its reference figures: listed products, item revenue, and the number and order-total sum of its orders overall, as individual orders (total at most 200), as group orders (above 200), as new purchases and as renewals; the splits balance |
| Products.AggregateKeysAndRevenue | streamlit_app.py:383-390 | a product has a revenue entry exactly when some completed order lists it, and its revenue is the booked item revenue |
| Products.AggregateCounts | streamlit_app.py:395-412 | order, group and renewal counts are the numbers of completed orders counting the product overall, above the threshold, and by subscription |
| Products.AggregateOtherCounts | streamlit_app.py:399-412 | individual and new counts are the numbers of completed orders counting the product at or below the threshold, and not by subscription |
| Products.AggregateSplitRevenue | streamlit_app.py:399-412 | individual, group, new and renewal revenues are the sums of the order totals of exactly those orders |
| Products.AggregateBalanced | streamlit_app.py:395-412 | every product's individual and group figures, and its new and renewal figures, add up |
| Products.AggregateSplitsAddUp | streamlit_app.py:414-418 | in the ten returned dictionaries, counted products have revenue entries, counts and revenues of each split pair add up, and each split revenue read from its dictionary is the sum of the order totals of the orders in that split |
| Seats.SeatsFromTotal | streamlit_app.py:492-503 | the fallback estimate is always 2, 4, 6, 8 or 10 |
| Seats.SeatsFromTotalMonotone | streamlit_app.py:494-503 | a larger order total never gives fewer estimated seats |
| Seats.ExtractSeats | streamlit_app.py:488-490 | a seat count is found only in a name that holds a digit |
| Seats.ExtractSeatsSound | streamlit_app.py:488-490 | a seat count read from a name is the value of a whole run of digits in it, followed by optional white space and `seat` |
| Seats.ExtractSeatsOfName | streamlit_app.py:488-490 | a name with no digits before "N seat" yields N |
| Seats.ExtractSeatsPrefix | streamlit_app.py:488 | characters before the first digit never change the result |
| Seats.ExtractSeatsSkipsRun | streamlit_app.py:488 | a run of digits not followed by `seat` is passed over |
| Seats.ExtractSeatsExample | streamlit_app.py:488-490 | "latin 2 seats" is read as 2 |
| Courses.AnalyzeCourseOrders | streamlit_app.py:420-536 | the loops compute the analysis function: no report, an exception, or the report |
| Courses.FindCourseOrders | streamlit_app.py:422-438 | the first loop keeps, in order, the completed orders with an item naming the course |
| Courses.OrderContainsCourse | streamlit_app.py:429-435 | the search with `break` finds an item naming the course exactly when one exists |
| Courses.SumOrderTotals | streamlit_app.py:445 | the sum is defined exactly when every total is readable, and then is the sum of the totals |
| Courses.BucketCourseOrders | streamlit_app.py:460-507 | the nested item loop computes the per-list buckets |
| Courses.ClassifyItem | streamlit_app.py:462-507 | an item is individual exactly when its name holds the course and "individual"; group exactly when it holds the course and "group" or "seats" but not "individual"; monthly when the payment term or name says so, annual only when not monthly; a group item of a name without digits gets the seats estimated from the order total, one with a count gets a count read from a digit run followed by `seat` |
| Courses.ClassifySeatsInName | streamlit_app.py:483-490 | a group item whose name is written "… N seats", with no digit before N, is a group purchase of N seats whatever the order total |
| Courses.FindPaymentTerm | streamlit_app.py:472-476 | the meta loop yields the lower-cased value of the first `payment-term` entry |
| Courses.BucketOrdersList | streamlit_app.py:460-507 | each list built by the item loop holds exactly the course orders with an item that belongs in it |
| Courses.AnalyzeNoCourseOrders | streamlit_app.py:440-441 | there is no report exactly when no completed order has an item naming the course |
| Courses.AnalyzeRaises | streamlit_app.py:445 | the analysis raises exactly when some course order has a total `float()` rejects |
| Courses.SummarizeNewAndRecurring | streamlit_app.py:444-451 | new purchases and renewals split the course orders, in number and in revenue |
| Courses.SummarizeBounds | streamlit_app.py:509-533 | individual and group counts are at most the total, and monthly and annual counts at most the individual count |
| Courses.SelectedList | streamlit_app.py:511-520 | with distinct ids, each de-duplicated list is the course orders with an item of that kind, once each |
| Courses.SummarizeCounts | streamlit_app.py:509-535 | with distinct ids, each count and revenue is over the course orders that have an item of that kind |
| Courses.CourseOrdersDistinct | streamlit_app.py:422-438 | the course orders of a store with distinct ids have distinct ids |
| Courses.SummarizeGroupBySeats | streamlit_app.py:483-507 | each seat bucket holds exactly the course orders with a group item of that size; no bucket is empty; the buckets together hold exactly the orders with a group item |
| Customers.IsExcluded | streamlit_app.py:762-807 | a product name is left out exactly when it normalises like one of the keywords |
| Customers.ExcludedByNormalForm | streamlit_app.py:805-807 | case, runs of white space and surrounding white space never decide whether a name is left out |
| Customers.KeywordsExcluded | streamlit_app.py:762-792 | every keyword, and its normalised form, is left out |
| Customers.SubscriptionMonths | streamlit_app.py:1071-1082 | a positive subscription length means both dates parse as the dashboard parses dates, the first is strictly earlier, and the length is their distance in calendar months |
| Customers.MonthIndexMonotone | streamlit_app.py:1079-1080 | a date that is not earlier never has an earlier month |
| Customers.SubscriptionMonthsOfDates | streamlit_app.py:1071-1082 | for two dates in the same store format, the length is the number of calendar months from first to last, or 0 when the last is earlier |
| Customers.SubscriptionMonthsMixedFormats | streamlit_app.py:1071-1082 | a first date with `T` and a last date with a space give 0 months, because the last date is parsed with the first date's format |

## Left out

- Fetching from the shop: the HTTP session, retries, paging, timeouts, credentials and progress widgets. These are network I/O. `AfterParameter` and `FinishSync` take the loaded and fetched lists as parameters.
- Reading and writing the JSON data file: file I/O. The stored list is a parameter.
- The Streamlit pages, charts, tables and the other view functions (`show_monthly_sales` and `show_users` beyond the two pieces in `Customers`): presentation. `config.py` is not part of this model.
- Floating point: totals are exact reals and nothing is rounded. `float()` is modelled only as accepting or rejecting a total.
- Unicode: lower-casing, white space and `\d` are modelled for ASCII only.
- `strptime` leniency: only the exact 19-character forms (`2024-09-01 08:05:00`, `2024-09-01T08:05:00`) are accepted. Python also accepts one-digit fields, and any run of one or more white-space characters where the format has a space.
- JSON shape errors: a non-dictionary order or item, a `null` name, status or customer id, and a non-numeric id are not modelled. Absent string fields are the empty string, which every use in the core treats like absence.
- Sets iterated in an order the source does not fix: `products_in_order` is processed in any order, and every order gives the same result.
- Stats.CalculateStats: the key order of `revenue_by_product` and of the status `Counter` is not modelled; both are maps.
- Courses.AnalyzeCourseOrders: the key order of `group_by_seats` is not modelled; it is a map.
- Courses.SummarizeCounts: the exact counts are stated only when order ids are distinct. The incremental merge guarantees that, but a full resync or a sync into an empty store keeps the fetched list as fetched, which can repeat an id. For such lists the exact counts are not proved; only the bounds of `SummarizeBounds` are stated.
- Products.AggregateProductFiscalYear: the ten dictionaries are rebuilt from one map of per-product records, keyed as the `defaultdict`s would be. Their key order is not modelled.
- OrderStore.FinishSync: the success messages' text and elapsed time are not modelled; only which message is chosen.
- Customers: `SubscriptionMonths` takes the first and last order dates as given. The string comparison that picks them in the users view is not modelled.

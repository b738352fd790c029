# Brazilian e-commerce dashboard: the aggregation layer in Dafny

This project models the data layer of a small Streamlit dashboard over the
Olist e-commerce dataset. It covers the date-range filter and the six
functions that turn a table of order or payment rows into a summary table:

- daily orders and revenue (`create_daily_orders_df`);
- customers per state (`create_custate_df`);
- sellers per state (`create_sellstate_df`);
- payment rows per payment type (`create_paymethod_df`);
- revenue per payment type (`create_payvalue_df`);
- canceled orders per day (`create_cancellation_df`).

It also models how the page wires them together and how it reads its two
headline metrics, "Total orders" and "Total Revenue", off the daily table.

Tables are sequences of immutable records, with typed fields in place of
pandas columns:

- timestamps are seconds since the epoch (`nat`);
- a timestamp's calendar day is `t / 86400`;
- money is an integer number of centavos.

A summary table is a sequence of `Tally(key, value)` rows. The daily orders
table is the exception: it has rows `DayRow(day, orderCount, paymentValue)`.

Modules (one file each):

- `Tables` holds the records and the day arithmetic.
- `KeyOrder` holds Python's string order and the sorted key column that
  `groupby` produces.
- `Aggregation` holds generic per-key sums, per-key distinct counts and the
  descending sort, with their conservation lemmas.
- `DateFilter`, `Daily`, `Demographics` and `Payments` hold the components.
- `Dashboard` is the render cycle.
- `Scenarios` holds two worked examples.

Behaviour of `dashboard/Dashboard.py` that the model keeps:

- `resample(rule='D')` (line 9) emits a row for every day from the first
  purchase day to the last; a day without purchases gets 0 in both columns.
- `sort_values(ascending=False)` (line 25) uses pandas' default sort, which
  is not stable, so the order of states with equal counts is left open
  (`IsStateSummary`).
- The payment groupers (lines 39 and 45) return rows in `groupby` key
  order, which is ascending payment type.
- The filter (lines 95-102) compares timestamps with the midnight instants
  of the two dates picked, so of the end date only a purchase at exactly
  midnight is kept (`DateFilter.WindowInDays`).
- A start date after the end date gives an empty table.

## Model

| member | source | states |
|---|---|---|
| DateFilter.FilterByDate | dashboard/Dashboard.py:95-102 | a row is in the filtered table exactly when it is in the input and `start <= t <= end` holds for its purchase timestamp, both bounds being midnight instants; the table never grows |
| DateFilter.FilterKeepsCopies | dashboard/Dashboard.py:95-98 | the filter never alters or duplicates rows: a row in the window keeps its multiplicity, a row outside it has multiplicity 0 |
| DateFilter.FilterDistributes | dashboard/Dashboard.py:95-98 | the mask keeps the original order: filtering a concatenation is concatenating the filtered parts |
| DateFilter.FilterSingleton | dashboard/Dashboard.py:95-98 | a single row survives exactly when its timestamp is in the window (with `FilterDistributes` this fixes the result) |
| DateFilter.FilterIdempotent | dashboard/Dashboard.py:95-98 | applying the same window twice gives the same table as applying it once |
| DateFilter.FilterNothingInWindow | dashboard/Dashboard.py:95-98 | if no row's timestamp is in the window, the filtered table is empty |
| DateFilter.FilterReversedIsEmpty | dashboard/Dashboard.py:95-98 | a start date after the end date keeps no row |
| DateFilter.WindowInDays | dashboard/Dashboard.py:96-97 | the window holds whole days from the start date up to the day before the end date; of the end day it holds only the midnight instant |
| KeyOrder.GroupKeys | dashboard/Dashboard.py:39 | the `groupby` key column: strictly ascending in Python string order (so no key repeats), and holding exactly the values present in the input column |
| Aggregation.SumsByKeyConserve | dashboard/Dashboard.py:45 | when every row's key is listed exactly once, the per-key sums add up to the sum over all rows |
| Aggregation.NuniqueByKeyCovers | dashboard/Dashboard.py:10 | the per-key `nunique` counts add up to at least the number of distinct ids among rows with a listed key |
| Aggregation.NuniqueByKeyPartition | dashboard/Dashboard.py:21 | if no id occurs under two keys and the keys are distinct, the per-key `nunique` counts add up to exactly the number of distinct ids among rows with a listed key |
| Aggregation.SortDescending | dashboard/Dashboard.py:25 | `sort_values(ascending=False)` returns a permutation of the table (same multiset of rows) whose counts do not increase down the table |
| Aggregation.PermutationKeepsDistinctKeys | dashboard/Dashboard.py:25 | reordering a table whose keys are distinct keeps them distinct |
| Aggregation.ColumnOfPermutation | dashboard/Dashboard.py:25 | reordering a table leaves the total of its count column unchanged |
| Daily.FirstDay | dashboard/Dashboard.py:9 | the first resample bin is the earliest purchase day: it is the day of some row, and no row is earlier |
| Daily.LastDay | dashboard/Dashboard.py:9 | the last resample bin is the latest purchase day: it is the day of some row, and no row is later |
| Daily.Bins | dashboard/Dashboard.py:9 | `resample(rule='D')` bins: none for an empty table; otherwise consecutive days from the first purchase day to the last, with no repeats and every purchase day included |
| Daily.DailyOrders | dashboard/Dashboard.py:8-17 | `create_daily_orders_df` is empty exactly when the input is; its days strictly ascend with no gaps, run from the earliest purchase day to the latest, and every purchase day has a row |
| Daily.DailyBucketContents | dashboard/Dashboard.py:9-12 | a day's `order_count` is the number of distinct order ids bought that day; its `payment_value` is the sum of that day's payment rows, repeated order ids included |
| Daily.EmptyDaysAreZero | dashboard/Dashboard.py:9-12 | a day's `order_count` is 0 exactly when nothing was bought that day, and such a day also has `payment_value` 0 |
| Daily.DailyRevenueConserved | dashboard/Dashboard.py:9-12 | the daily `payment_value`s add up to the input's total `payment_value` |
| Daily.DailyOrderCountCovers | dashboard/Dashboard.py:9-12 | the daily `order_count`s add up to at least the number of distinct order ids |
| Daily.DailyOrderCountExact | dashboard/Dashboard.py:9-12 | if all rows of an order share one purchase day, the daily `order_count`s add up to exactly the number of distinct order ids |
| Daily.ResampleOrderCountExact | dashboard/Dashboard.py:10 | for any list of distinct bins that covers every row's day, the `nunique` column adds up to the number of distinct order ids, provided no order spans two days |
| Daily.CanceledRows | dashboard/Dashboard.py:50 | `df[df['order_status'] == 'canceled']` keeps exactly the rows whose status is `"canceled"` |
| Daily.Cancellations | dashboard/Dashboard.py:49-58 | `create_cancellation_df` is empty exactly when no row is canceled; its days follow each other with no gaps |
| Daily.CancellationsAreDailyOrderCounts | dashboard/Dashboard.py:49-58 | the cancellation series has the same days and counts as the `order_count` column of the daily orders table computed on the canceled rows alone |
| Daily.CanceledRowsDistribute | dashboard/Dashboard.py:50 | selecting the canceled rows of a concatenation is concatenating the canceled rows of each part |
| Daily.SameCancellations | dashboard/Dashboard.py:49-58 | two tables with the same canceled rows have the same cancellation series |
| Daily.CancellationsIgnoreAddedRow | dashboard/Dashboard.py:50-53 | inserting a row that is not canceled, anywhere in the table, leaves the cancellation series unchanged |
| Daily.CancellationsIgnoreEditedRows | dashboard/Dashboard.py:50-53 | rewriting rows that are not canceled both before and after the rewrite leaves the cancellation series unchanged |
| Daily.SameCanceledRows | dashboard/Dashboard.py:50 | such a rewrite leaves the selected canceled rows unchanged |
| Payments.TypeKeys | dashboard/Dashboard.py:39 | the payment-type key column is ascending with no repeats, holds exactly the payment types present, and lists every row's type |
| Payments.PaymentMethods | dashboard/Dashboard.py:38-41 | `create_paymethod_df` has one row per distinct payment type, in ascending type order; each count is how many times the type occurs in the `payment_type` column (rows, not distinct orders) |
| Payments.CountIsMultiplicity | dashboard/Dashboard.py:39 | `count()` per type equals the type's multiplicity in the column |
| Payments.PaymentMethodCountsAddUp | dashboard/Dashboard.py:39-40 | the per-type counts add up to the number of payment rows |
| Payments.PaymentValues | dashboard/Dashboard.py:44-46 | `create_payvalue_df` has one row per distinct payment type, in ascending type order; each value is the sum of `payment_value` over the rows of that type |
| Payments.PaymentValuesAddUp | dashboard/Dashboard.py:45 | the per-type sums add up to the total `payment_value` |
| Demographics.StateGroups | dashboard/Dashboard.py:21 | `groupby(state).id.nunique()` has one row per state present (no state twice, none missing, none invented); each value is the number of distinct ids in that state; states come out in ascending order |
| Demographics.SameIds | dashboard/Dashboard.py:21 | the generic per-key distinct ids agree with the ids located in the state |
| Demographics.StateCounts | dashboard/Dashboard.py:20-26 | group and sort produce a table with one row per state present and no duplicate states; each count is the number of distinct ids in that state, and counts do not increase down the table |
| Demographics.CustomerStates | dashboard/Dashboard.py:20-26 | `create_custate_df` meets that description for the `customer_id`/`customer_state` columns |
| Demographics.SellerStates | dashboard/Dashboard.py:29-35 | `create_sellstate_df` meets that description for the `seller_id`/`seller_state` columns |
| Demographics.SummaryRows | dashboard/Dashboard.py:21-25 | a row is in an admissible result exactly when its key is a state present and its value is that state's distinct-id count |
| Demographics.StateSummaryUnique | dashboard/Dashboard.py:25 | any two admissible results hold the same rows (equal multisets), so only the order of tied states is left open |
| Demographics.StateCountsAddUp | dashboard/Dashboard.py:21-25 | if each id lives in a single state, the per-state counts add up to the number of distinct ids |
| Dashboard.Refresh | dashboard/Dashboard.py:104-109 | the customer panel summarises the date-filtered orders, while the seller panel summarises the whole, unfiltered seller table |
| Dashboard.TotalRevenueIsWindowRevenue | dashboard/Dashboard.py:118 | Total Revenue equals the sum of `payment_value` over the order rows inside the picked range |
| Dashboard.TotalOrdersIsWindowOrders | dashboard/Dashboard.py:114 | if all rows of an order share one purchase day, Total orders equals the number of distinct order ids inside the picked range |
| Dashboard.PaymentPanelsReadWindowPayments | dashboard/Dashboard.py:99-108 | both payment panels summarise the payments table cut to the picked range: their counts add up to its number of rows and their sums to its total `payment_value` |
| Dashboard.SellerPanelIgnoresDateRange | dashboard/Dashboard.py:106 | the seller panel is the same whatever range is picked |
| Dashboard.EmptyWindowEmptiesPanels | dashboard/Dashboard.py:95-109 | a range with no order rows and no payment rows empties every panel except the seller panel, and both metrics read 0 |
| Dashboard.ReversedRangeEmptiesPanels | dashboard/Dashboard.py:95-109 | a start date after the end date empties every panel except the seller panel |
| Scenarios.DailyOrdersExample | dashboard/Dashboard.py:8-17 | three orders on 2024-01-01 paying 10, 20 and 30 and one on 2024-01-02 paying 5 give exactly two rows: (day 19723, 3, 60) and (day 19724, 1, 5) |
| Scenarios.CustomerStatesExample | dashboard/Dashboard.py:20-26 | customers c1 and c2 in SP and c3 in RJ give exactly `[("SP", 2), ("RJ", 1)]` |

## Left out

- CSV loading, `pd.to_datetime` parsing, and the pre-sort and `reset_index` of the loaded tables (dashboard/Dashboard.py:61-77). These are file I/O and library parsing; the model takes the three tables as already-typed sequences.
- Streamlit widgets, the min/max date computation for the widget, the metric cards, and the matplotlib/seaborn charts (dashboard/Dashboard.py:79-92, 111-200). These are presentation; the picked dates are parameters of `Dashboard.Refresh`.
- The `sort_values` and `head(5)` calls made only for rendering (dashboard/Dashboard.py:136, 144, 160, 177).
- Babel `format_currency`, a foreign locale-formatting call. `Dashboard.TotalRevenue` is the number before formatting.
- Floating-point `payment_value` arithmetic. Amounts are integer centavos, so sums are exact.
- The `inplace=True` passed to `agg` (dashboard/Dashboard.py:53). It has no effect on the result.
- Missing values. pandas' `count`, `nunique` and `sum` skip NaN; every field of a model record is present.
- Time zones and sub-day resample offsets. Timestamps are UTC seconds, and days start at multiples of 86400.
- Column renames and `reset_index` on the summary tables. These are column bookkeeping: the record fields carry the renamed columns.
- Demographics.StateCounts: pandas' quicksort may order tied states differently from this insertion sort. The contract, `IsStateSummary`, therefore leaves the tie order open rather than fixing one.

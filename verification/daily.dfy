/** The two daily resamplers: `create_daily_orders_df` and
    `create_cancellation_df`.  `resample(rule='D', on=...)` puts the rows into
    one bin per calendar day, from the day of the earliest purchase to the
    day of the latest, and reports every bin, empty ones included (their
    `nunique` and `sum` are 0). */
module Daily {
  import opened Tables
  import opened Aggregation

  /** A row of the daily orders table: the day (the bin label in column
      `order_purchase_timestamp`), `order_count` and `payment_value`. */
  datatype DayRow = DayRow(day: nat, orderCount: int, paymentValue: int)

  /** The calendar day of an order's purchase: its resample bin. */
  function PurchaseDay(r: OrderRow): nat
  {
    DayOf(r.purchaseTime)
  }

  function OrderIdOf(r: OrderRow): string
  {
    r.orderId
  }

  function PaymentOf(r: OrderRow): int
  {
    r.paymentValue
  }

  /** The earliest purchase day among the rows. */
  function FirstDay(rows: seq<OrderRow>): (d: nat)
    requires |rows| > 0
    ensures exists i :: 0 <= i < |rows| && PurchaseDay(rows[i]) == d
    ensures forall x :: x in rows ==> d <= PurchaseDay(x)
  {
    if |rows| == 1 then PurchaseDay(rows[0])
    else
      var rest := FirstDay(rows[1..]);
      assert forall x :: x in rows ==> x == rows[0] || x in rows[1..];
      if PurchaseDay(rows[0]) <= rest then PurchaseDay(rows[0]) else rest
  }

  /** The latest purchase day among the rows. */
  function LastDay(rows: seq<OrderRow>): (d: nat)
    requires |rows| > 0
    ensures exists i :: 0 <= i < |rows| && PurchaseDay(rows[i]) == d
    ensures forall x :: x in rows ==> PurchaseDay(x) <= d
  {
    if |rows| == 1 then PurchaseDay(rows[0])
    else
      var rest := LastDay(rows[1..]);
      assert forall x :: x in rows ==> x == rows[0] || x in rows[1..];
      if PurchaseDay(rows[0]) >= rest then PurchaseDay(rows[0]) else rest
  }

  /** `n` consecutive days starting at `first`. */
  function Days(first: nat, n: nat): (r: seq<nat>)
    ensures |r| == n
    ensures forall i :: 0 <= i < n ==> r[i] == first + i
    decreases n
  {
    if n == 0 then [] else [first] + Days(first + 1, n - 1)
  }

  /** The bin labels `resample(rule='D')` produces for the rows: none for an
      empty table, otherwise every day from the first purchase day to the last. */
  function Bins(rows: seq<OrderRow>): (r: seq<nat>)
    ensures |r| == 0 <==> |rows| == 0
    ensures forall i :: 0 <= i < |r| - 1 ==> r[i + 1] == r[i] + 1
    ensures Distinct(r)
    ensures forall x :: x in rows ==> PurchaseDay(x) in r
    ensures |r| > 0 ==> r[0] == FirstDay(rows) && r[|r| - 1] == LastDay(rows)
  {
    if |rows| == 0 then []
    else
      var lo := FirstDay(rows);
      var r := Days(lo, LastDay(rows) - lo + 1);
      assert forall x :: x in rows ==> r[PurchaseDay(x) - lo] == PurchaseDay(x);
      r
  }

  /** One resample bin of the orders table. */
  function Bucket(rows: seq<OrderRow>, d: nat): DayRow
  {
    DayRow(d, |KeyIds(rows, PurchaseDay, d, OrderIdOf)|, KeySum(rows, PurchaseDay, d, PaymentOf))
  }

  /** The aggregated bins, one per label, in label order. */
  function Resample(rows: seq<OrderRow>, days: seq<nat>): (r: seq<DayRow>)
    ensures |r| == |days|
    ensures forall i :: 0 <= i < |r| ==> r[i] == Bucket(rows, days[i])
  {
    if |days| == 0 then [] else [Bucket(rows, days[0])] + Resample(rows, days[1..])
  }

  /** `create_daily_orders_df`: one row per calendar day from the first to
      the last purchase day, ascending and without gaps.  A day's
      `order_count` is the number of distinct order ids purchased that day
      and its `payment_value` the sum over all of that day's payment rows. */
  function DailyOrders(rows: seq<OrderRow>): (r: seq<DayRow>)
    ensures |r| == 0 <==> |rows| == 0
    ensures forall i :: 0 <= i < |r| - 1 ==> r[i + 1].day == r[i].day + 1
    ensures forall x :: x in rows ==> exists i :: 0 <= i < |r| && r[i].day == PurchaseDay(x)
    ensures |r| > 0 ==> r[0].day == FirstDay(rows) && r[|r| - 1].day == LastDay(rows)
  {
    var days := Bins(rows);
    var r := Resample(rows, days);
    forall x | x in rows
      ensures exists i :: 0 <= i < |r| && r[i].day == PurchaseDay(x)
    {
      var i :| 0 <= i < |days| && days[i] == PurchaseDay(x);
      assert r[i].day == PurchaseDay(x);
    }
    r
  }

  /** What each daily row holds: `order_count` is the number of distinct
      order ids purchased that day; `payment_value` is that day's payment
      rows summed, repeated order ids included. */
  lemma DailyBucketContents(rows: seq<OrderRow>)
    ensures forall d :: d in DailyOrders(rows) ==>
              && d.orderCount == |set x | x in rows && PurchaseDay(x) == d.day :: x.orderId|
              && d.paymentValue == Total(RowsWithKey(rows, PurchaseDay, d.day), PaymentOf)
  {
    forall d | d in DailyOrders(rows)
      ensures d.orderCount == |set x | x in rows && PurchaseDay(x) == d.day :: x.orderId|
      ensures d.paymentValue == Total(RowsWithKey(rows, PurchaseDay, d.day), PaymentOf)
    {
      BucketContents(rows, d);
    }
  }

  lemma BucketContents(rows: seq<OrderRow>, d: DayRow)
    requires d in DailyOrders(rows)
    ensures d.orderCount == |set x | x in rows && PurchaseDay(x) == d.day :: x.orderId|
    ensures d.paymentValue == Total(RowsWithKey(rows, PurchaseDay, d.day), PaymentOf)
  {
    assert d == Bucket(rows, d.day);
    KeySumOfRowsWithKey(rows, PurchaseDay, d.day, PaymentOf);
    var ids := set x | x in rows && PurchaseDay(x) == d.day :: x.orderId;
    assert KeyIds(rows, PurchaseDay, d.day, OrderIdOf) == ids by {
      forall o | o in ids
        ensures o in KeyIds(rows, PurchaseDay, d.day, OrderIdOf)
      {
        var x :| x in rows && PurchaseDay(x) == d.day && x.orderId == o;
        assert OrderIdOf(x) == o;
      }
    }
  }

  function DayRevenue(d: DayRow): int
  {
    d.paymentValue
  }

  function DayOrders(d: DayRow): int
  {
    d.orderCount
  }

  /** Total of the `payment_value` column: the "Total Revenue" metric. */
  function RevenueColumn(ds: seq<DayRow>): int
  {
    Total(ds, DayRevenue)
  }

  /** Total of the `order_count` column: the "Total orders" metric. */
  function OrderCountColumn(ds: seq<DayRow>): int
  {
    Total(ds, DayOrders)
  }

  lemma {:induction false} ResampleColumns(rows: seq<OrderRow>, days: seq<nat>)
    ensures RevenueColumn(Resample(rows, days)) == Column(SumsByKey(rows, PurchaseDay, days, PaymentOf))
    ensures OrderCountColumn(Resample(rows, days)) == Column(NuniqueByKey(rows, PurchaseDay, days, OrderIdOf))
  {
    if |days| > 0 {
      ResampleColumns(rows, days[1..]);
    }
  }

  /** The daily `payment_value`s add up to the table's total `payment_value`:
      no payment row is lost or counted twice. */
  lemma DailyRevenueConserved(rows: seq<OrderRow>)
    ensures RevenueColumn(DailyOrders(rows)) == Total(rows, PaymentOf)
  {
    ResampleColumns(rows, Bins(rows));
    SumsByKeyConserve(rows, PurchaseDay, Bins(rows), PaymentOf);
  }

  /** The daily `order_count`s add up to at least the number of distinct
      order ids: an order whose rows fall on two days is counted on each. */
  lemma DailyOrderCountCovers(rows: seq<OrderRow>)
    ensures OrderCountColumn(DailyOrders(rows)) >= |Ids(rows, OrderIdOf)|
  {
    ResampleColumns(rows, Bins(rows));
    NuniqueByKeyCovers(rows, PurchaseDay, Bins(rows), OrderIdOf);
    AllKeysListed(rows, PurchaseDay, Bins(rows), OrderIdOf);
  }

  /** All rows of one order share its purchase day. */
  predicate OrdersOnOneDay(rows: seq<OrderRow>)
  {
    forall x, y :: x in rows && y in rows && x.orderId == y.orderId ==> PurchaseDay(x) == PurchaseDay(y)
  }

  /** When every order's rows share a day, the daily `order_count`s add up
      to exactly the number of distinct order ids. */
  lemma DailyOrderCountExact(rows: seq<OrderRow>)
    requires OrdersOnOneDay(rows)
    ensures OrderCountColumn(DailyOrders(rows)) == |Ids(rows, OrderIdOf)|
  {
    var days := Bins(rows);
    assert DailyOrders(rows) == Resample(rows, days);
    forall x, y | x in rows && y in rows && OrderIdOf(x) == OrderIdOf(y)
      ensures PurchaseDay(x) == PurchaseDay(y)
    {
    }
    ResampleOrderCountExact(rows, days);
  }

  lemma ResampleOrderCountExact(rows: seq<OrderRow>, days: seq<nat>)
    requires Distinct(days)
    requires forall x :: x in rows ==> PurchaseDay(x) in days
    requires forall x, y :: x in rows && y in rows && OrderIdOf(x) == OrderIdOf(y) ==> PurchaseDay(x) == PurchaseDay(y)
    ensures OrderCountColumn(Resample(rows, days)) == |Ids(rows, OrderIdOf)|
  {
    ResampleColumns(rows, days);
    NuniqueByKeyPartition(rows, PurchaseDay, days, OrderIdOf);
    AllKeysListed(rows, PurchaseDay, days, OrderIdOf);
  }

  /** A day's `order_count` is zero exactly when nothing was purchased that
      day, and then its `payment_value` is zero too. */
  lemma EmptyDaysAreZero(rows: seq<OrderRow>)
    ensures forall d :: d in DailyOrders(rows) ==>
              && (d.orderCount == 0 <==> forall x :: x in rows ==> PurchaseDay(x) != d.day)
              && (d.orderCount == 0 ==> d.paymentValue == 0)
  {
    forall d | d in DailyOrders(rows)
      ensures d.orderCount == 0 <==> forall x :: x in rows ==> PurchaseDay(x) != d.day
      ensures d.orderCount == 0 ==> d.paymentValue == 0
    {
      EmptyDay(rows, d);
    }
  }

  lemma EmptyDay(rows: seq<OrderRow>, d: DayRow)
    requires d in DailyOrders(rows)
    ensures d.orderCount == 0 <==> forall x :: x in rows ==> PurchaseDay(x) != d.day
    ensures d.orderCount == 0 ==> d.paymentValue == 0
  {
    assert d == Bucket(rows, d.day);
    if forall x :: x in rows ==> PurchaseDay(x) != d.day {
      KeySumAbsent(rows, PurchaseDay, d.day, PaymentOf);
    } else {
      var x :| x in rows && PurchaseDay(x) == d.day;
      assert x.orderId in KeyIds(rows, PurchaseDay, d.day, OrderIdOf);
    }
  }

  /** The `order_status` that marks a canceled order. */
  const CanceledStatus: string := "canceled"

  /** `df[df['order_status'] == 'canceled']`. */
  function CanceledRows(rows: seq<OrderRow>): (r: seq<OrderRow>)
    ensures forall x :: x in r <==> x in rows && x.status == CanceledStatus
    ensures |r| <= |rows|
  {
    if |rows| == 0 then []
    else
      assert forall x :: x in rows <==> x == rows[0] || x in rows[1..];
      var rest := CanceledRows(rows[1..]);
      if rows[0].status == CanceledStatus then [rows[0]] + rest else rest
  }

  /** `create_cancellation_df`: the canceled rows resampled by day, each
      day's `cancel_count` being its number of distinct canceled order ids. */
  function Cancellations(rows: seq<OrderRow>): (r: seq<Tally<nat>>)
    ensures |r| == 0 <==> forall x :: x in rows ==> x.status != CanceledStatus
    ensures forall i :: 0 <= i < |r| - 1 ==> r[i + 1].key == r[i].key + 1
  {
    var canceled := CanceledRows(rows);
    assert |canceled| > 0 ==> canceled[0] in canceled;
    NuniqueByKey(canceled, PurchaseDay, Bins(canceled), OrderIdOf)
  }

  /** The cancellation series is the `order_count` column of the daily
      orders table computed over the canceled rows alone. */
  lemma CancellationsAreDailyOrderCounts(rows: seq<OrderRow>)
    ensures var r := Cancellations(rows);
            var d := DailyOrders(CanceledRows(rows));
            |r| == |d| && forall i :: 0 <= i < |r| ==> r[i].key == d[i].day && r[i].value == d[i].orderCount
  {
    var canceled := CanceledRows(rows);
    var days := Bins(canceled);
    assert Cancellations(rows) == NuniqueByKey(canceled, PurchaseDay, days, OrderIdOf);
    assert DailyOrders(canceled) == Resample(canceled, days);
  }

  /** Selecting canceled rows commutes with concatenation. */
  lemma {:induction false} CanceledRowsDistribute(a: seq<OrderRow>, b: seq<OrderRow>)
    ensures CanceledRows(a + b) == CanceledRows(a) + CanceledRows(b)
    decreases |a|
  {
    if |a| == 0 {
      assert a + b == b;
    } else {
      assert (a + b)[0] == a[0];
      assert (a + b)[1..] == a[1..] + b;
      CanceledRowsDistribute(a[1..], b);
    }
  }

  /** Adding a row that is not canceled, anywhere, leaves the cancellation
      series unchanged. */
  lemma CancellationsIgnoreAddedRow(a: seq<OrderRow>, b: seq<OrderRow>, x: OrderRow)
    requires x.status != CanceledStatus
    ensures Cancellations(a + [x] + b) == Cancellations(a + b)
  {
    CanceledRowsDistribute(a + [x], b);
    CanceledRowsDistribute(a, [x]);
    CanceledRowsDistribute(a, b);
    assert CanceledRows([x]) == [] by {
      assert [x][1..] == [];
    }
    assert CanceledRows(a + [x]) == CanceledRows(a);
    assert CanceledRows(a + [x] + b) == CanceledRows(a + b);
    SameCancellations(a + [x] + b, a + b);
  }

  /** The cancellation series sees the canceled rows only. */
  lemma SameCancellations(u: seq<OrderRow>, v: seq<OrderRow>)
    requires CanceledRows(u) == CanceledRows(v)
    ensures Cancellations(u) == Cancellations(v)
  {
  }

  /** Rewriting rows that are not canceled, before and after, leaves the
      cancellation series unchanged. */
  lemma {:induction false} CancellationsIgnoreEditedRows(a: seq<OrderRow>, b: seq<OrderRow>)
    requires |a| == |b|
    requires forall i :: 0 <= i < |a| ==>
               a[i] == b[i] || (a[i].status != CanceledStatus && b[i].status != CanceledStatus)
    ensures Cancellations(a) == Cancellations(b)
  {
    SameCanceledRows(a, b);
    SameCancellations(a, b);
  }

  lemma {:induction false} SameCanceledRows(a: seq<OrderRow>, b: seq<OrderRow>)
    requires |a| == |b|
    requires forall i :: 0 <= i < |a| ==>
               a[i] == b[i] || (a[i].status != CanceledStatus && b[i].status != CanceledStatus)
    ensures CanceledRows(a) == CanceledRows(b)
    decreases |a|
  {
    if |a| > 0 {
      SameCanceledRows(a[1..], b[1..]);
    }
  }
}

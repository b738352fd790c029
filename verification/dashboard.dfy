/** The dashboard's data flow (the part below the widgets): both dated
    tables are cut to the picked date range, the six aggregators run on the
    results, and the two headline metrics are read off the daily table. */
module Dashboard {
  import opened Tables
  import opened Aggregation
  import opened DateFilter
  import opened Daily
  import opened Demographics
  import opened Payments

  /** The three tables as loaded at start-up. */
  datatype Dataset = Dataset(orders: seq<OrderRow>, payments: seq<PaymentRow>, sellers: seq<SellerRow>)

  /** Every summary table the page renders. */
  datatype Panels = Panels(
    daily: seq<DayRow>,
    customerStates: seq<Tally<string>>,
    sellerStates: seq<Tally<string>>,
    paymentMethods: seq<Tally<string>>,
    paymentValues: seq<Tally<string>>,
    cancellations: seq<Tally<nat>>)

  function OrderTime(r: OrderRow): nat
  {
    r.purchaseTime
  }

  function PaymentTime(p: PaymentRow): nat
  {
    p.purchaseTime
  }

  /** The orders table cut to the picked range (`filter_all`). */
  function WindowOrders(data: Dataset, startDay: nat, endDay: nat): seq<OrderRow>
  {
    FilterByDate(data.orders, OrderTime, startDay, endDay)
  }

  /** The payments table cut to the picked range (`filter_paym`). */
  function WindowPayments(data: Dataset, startDay: nat, endDay: nat): seq<PaymentRow>
  {
    FilterByDate(data.payments, PaymentTime, startDay, endDay)
  }

  /** One render cycle for the dates picked in the widget.  The seller panel
      is computed from the whole seller table, not a filtered one. */
  function Refresh(data: Dataset, startDay: nat, endDay: nat): (p: Panels)
    ensures IsStateSummary(CustomerMemberships(WindowOrders(data, startDay, endDay)), p.customerStates)
    ensures IsStateSummary(SellerMemberships(data.sellers), p.sellerStates)
  {
    var orders := WindowOrders(data, startDay, endDay);
    var payments := WindowPayments(data, startDay, endDay);
    Panels(
      DailyOrders(orders),
      CustomerStates(orders),
      SellerStates(data.sellers),
      PaymentMethods(payments),
      PaymentValues(payments),
      Cancellations(orders))
  }

  /** The "Total orders" metric: the sum of the daily `order_count` column. */
  function TotalOrders(p: Panels): int
  {
    OrderCountColumn(p.daily)
  }

  /** The "Total Revenue" metric, before currency formatting: the sum of the
      daily `payment_value` column. */
  function TotalRevenue(p: Panels): int
  {
    RevenueColumn(p.daily)
  }

  /** Total Revenue is the sum of `payment_value` over the order rows
      purchased within the picked range. */
  lemma TotalRevenueIsWindowRevenue(data: Dataset, startDay: nat, endDay: nat)
    ensures TotalRevenue(Refresh(data, startDay, endDay)) == Total(WindowOrders(data, startDay, endDay), PaymentOf)
  {
    DailyRevenueConserved(WindowOrders(data, startDay, endDay));
  }

  /** When every order's rows share a purchase day, Total orders is the
      number of distinct order ids purchased within the picked range. */
  lemma TotalOrdersIsWindowOrders(data: Dataset, startDay: nat, endDay: nat)
    requires OrdersOnOneDay(data.orders)
    ensures TotalOrders(Refresh(data, startDay, endDay)) == |Ids(WindowOrders(data, startDay, endDay), OrderIdOf)|
  {
    DailyOrderCountExact(WindowOrders(data, startDay, endDay));
  }

  /** Both payment panels summarise the payments table cut to the picked
      range, not the orders table: their counts add up to its row count and
      their sums to its total `payment_value`. */
  lemma PaymentPanelsReadWindowPayments(data: Dataset, startDay: nat, endDay: nat)
    ensures Column(Refresh(data, startDay, endDay).paymentMethods) == |WindowPayments(data, startDay, endDay)|
    ensures Column(Refresh(data, startDay, endDay).paymentValues) == Total(WindowPayments(data, startDay, endDay), AmountOf)
  {
    PaymentMethodCountsAddUp(WindowPayments(data, startDay, endDay));
    PaymentValuesAddUp(WindowPayments(data, startDay, endDay));
  }

  /** The seller panel is the same whatever range is picked. */
  lemma SellerPanelIgnoresDateRange(data: Dataset, s1: nat, e1: nat, s2: nat, e2: nat)
    ensures Refresh(data, s1, e1).sellerStates == Refresh(data, s2, e2).sellerStates
    ensures Refresh(data, s1, e1).sellerStates == SellerStates(data.sellers)
  {
  }

  /** A range that holds no order row and no payment row empties every
      panel but the seller one, and both metrics read zero. */
  lemma EmptyWindowEmptiesPanels(data: Dataset, startDay: nat, endDay: nat)
    requires forall r :: r in data.orders ==> !InWindow(r.purchaseTime, startDay, endDay)
    requires forall p :: p in data.payments ==> !InWindow(p.purchaseTime, startDay, endDay)
    ensures var p := Refresh(data, startDay, endDay);
            && p.daily == [] && p.customerStates == [] && p.cancellations == []
            && p.paymentMethods == [] && p.paymentValues == []
            && TotalOrders(p) == 0 && TotalRevenue(p) == 0
  {
    FilterNothingInWindow(data.orders, OrderTime, startDay, endDay);
    FilterNothingInWindow(data.payments, PaymentTime, startDay, endDay);
    assert CustomerMemberships([]) == [];
  }

  /** A reversed range (start after end) empties every panel but the seller one. */
  lemma ReversedRangeEmptiesPanels(data: Dataset, startDay: nat, endDay: nat)
    requires startDay > endDay
    ensures var p := Refresh(data, startDay, endDay);
            && p.daily == [] && p.customerStates == [] && p.cancellations == []
            && p.paymentMethods == [] && p.paymentValues == []
  {
    FilterReversedIsEmpty(data.orders, OrderTime, startDay, endDay);
    FilterReversedIsEmpty(data.payments, PaymentTime, startDay, endDay);
    assert CustomerMemberships([]) == [];
  }
}

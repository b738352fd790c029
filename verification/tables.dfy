/** The three tables the dashboard loads, with typed fields in place of
    pandas columns, and the calendar arithmetic shared by the filter and the
    daily resamplers.  Timestamps are seconds since the epoch (UTC, no time
    zones); money is an integer amount of centavos. */
module Tables {

  /** Length of one calendar day in seconds: the width of a `resample(rule='D')` bin. */
  const SecondsPerDay: nat := 86400

  /** The calendar day (days since the epoch) a timestamp falls on. */
  function DayOf(t: nat): nat
  {
    t / SecondsPerDay
  }

  /** The instant at which a calendar day begins; `pd.to_datetime` of a date. */
  function Midnight(day: nat): nat
  {
    day * SecondsPerDay
  }

  /** A timestamp lies on day `d` exactly when it is in `[Midnight(d), Midnight(d + 1))`. */
  lemma DayBounds(t: nat)
    ensures Midnight(DayOf(t)) <= t < Midnight(DayOf(t) + 1)
    ensures DayOf(Midnight(DayOf(t))) == DayOf(t)
  {
  }

  /** A row of `all_data.csv`: one payment of one order, joined with its customer. */
  datatype OrderRow = OrderRow(
    orderId: string,
    customerId: string,
    customerState: string,
    purchaseTime: nat,
    status: string,
    paymentValue: int)

  /** A row of `paym_date.csv`: one payment with its type and the order's purchase time. */
  datatype PaymentRow = PaymentRow(
    orderId: string,
    paymentType: string,
    purchaseTime: nat,
    paymentValue: int)

  /** A row of `seller_database.csv`. */
  datatype SellerRow = SellerRow(sellerId: string, sellerState: string)
}

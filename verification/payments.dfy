/** The two payment-type groupers: `create_paymethod_df` (rows per payment
    type) and `create_payvalue_df` (`payment_value` summed per payment
    type).  Both keep the key order of `groupby`: ascending payment type. */
module Payments {
  import opened Tables
  import opened KeyOrder
  import opened Aggregation

  function PaymentTypeOf(p: PaymentRow): string
  {
    p.paymentType
  }

  /** The weight `count()` gives a row whose `order_id` is present. */
  function CountOne(p: PaymentRow): int
  {
    1
  }

  function AmountOf(p: PaymentRow): int
  {
    p.paymentValue
  }

  /** The `payment_type` column. */
  function PaymentTypes(rows: seq<PaymentRow>): (r: seq<string>)
    ensures |r| == |rows|
    ensures forall i :: 0 <= i < |rows| ==> r[i] == rows[i].paymentType
  {
    if |rows| == 0 then [] else [rows[0].paymentType] + PaymentTypes(rows[1..])
  }

  /** The keys strictly ascend down the table. */
  predicate KeysAscending(ts: seq<Tally<string>>)
  {
    forall i, j :: 0 <= i < j < |ts| ==> Below(ts[i].key, ts[j].key)
  }

  /** The `groupby("payment_type")` key column for these rows, with the
      facts the groupers need about it. */
  function TypeKeys(rows: seq<PaymentRow>): (ks: seq<string>)
    ensures Ascending(ks)
    ensures Distinct(ks)
    ensures forall t :: t in ks <==> t in PaymentTypes(rows)
    ensures forall p :: p in rows ==> PaymentTypeOf(p) in ks
  {
    var ks := GroupKeys(PaymentTypes(rows));
    AscendingIsDistinct(ks);
    assert forall i :: 0 <= i < |rows| ==> PaymentTypes(rows)[i] in ks;
    ks
  }

  /** `create_paymethod_df`: one row per distinct payment type, ascending,
      holding the number of payment rows of that type (rows, not distinct
      orders). */
  function PaymentMethods(rows: seq<PaymentRow>): (r: seq<Tally<string>>)
    ensures KeysAscending(r)
    ensures forall t :: HasKey(r, t) <==> t in PaymentTypes(rows)
    ensures forall i :: 0 <= i < |r| ==> r[i].value == multiset(PaymentTypes(rows))[r[i].key]
  {
    var ks := TypeKeys(rows);
    var r := SumsByKey(rows, PaymentTypeOf, ks, CountOne);
    forall i | 0 <= i < |r|
      ensures r[i].value == multiset(PaymentTypes(rows))[r[i].key]
    {
      CountIsMultiplicity(rows, ks[i]);
    }
    assert forall t :: HasKey(r, t) <==> t in ks by {
      forall t | t in ks
        ensures HasKey(r, t)
      {
        var i :| 0 <= i < |ks| && ks[i] == t;
        assert r[i].key == t;
      }
    }
    r
  }

  /** Counting rows of a type is the type's multiplicity in the column. */
  lemma {:induction false} CountIsMultiplicity(rows: seq<PaymentRow>, t: string)
    ensures KeySum(rows, PaymentTypeOf, t, CountOne) == multiset(PaymentTypes(rows))[t]
  {
    if |rows| > 0 {
      CountIsMultiplicity(rows[1..], t);
      assert PaymentTypes(rows) == [rows[0].paymentType] + PaymentTypes(rows[1..]);
    }
  }

  /** `create_payvalue_df`: one row per distinct payment type, ascending,
      holding the sum of `payment_value` over the rows of that type. */
  function PaymentValues(rows: seq<PaymentRow>): (r: seq<Tally<string>>)
    ensures KeysAscending(r)
    ensures forall t :: HasKey(r, t) <==> t in PaymentTypes(rows)
    ensures forall i :: 0 <= i < |r| ==>
              r[i].value == Total(RowsWithKey(rows, PaymentTypeOf, r[i].key), AmountOf)
  {
    var ks := TypeKeys(rows);
    var r := SumsByKey(rows, PaymentTypeOf, ks, AmountOf);
    forall i | 0 <= i < |r|
      ensures r[i].value == Total(RowsWithKey(rows, PaymentTypeOf, r[i].key), AmountOf)
    {
      KeySumOfRowsWithKey(rows, PaymentTypeOf, ks[i], AmountOf);
    }
    assert forall t :: HasKey(r, t) <==> t in ks by {
      forall t | t in ks
        ensures HasKey(r, t)
      {
        var i :| 0 <= i < |ks| && ks[i] == t;
        assert r[i].key == t;
      }
    }
    r
  }

  lemma {:induction false} CountOneTotal(rows: seq<PaymentRow>)
    ensures Total(rows, CountOne) == |rows|
  {
    if |rows| > 0 {
      CountOneTotal(rows[1..]);
    }
  }

  /** The per-type row counts add up to the number of payment rows. */
  lemma PaymentMethodCountsAddUp(rows: seq<PaymentRow>)
    ensures Column(PaymentMethods(rows)) == |rows|
  {
    SumsByKeyConserve(rows, PaymentTypeOf, TypeKeys(rows), CountOne);
    CountOneTotal(rows);
  }

  /** The per-type revenues add up to the total `payment_value`. */
  lemma PaymentValuesAddUp(rows: seq<PaymentRow>)
    ensures Column(PaymentValues(rows)) == Total(rows, AmountOf)
  {
    SumsByKeyConserve(rows, PaymentTypeOf, TypeKeys(rows), AmountOf);
  }
}

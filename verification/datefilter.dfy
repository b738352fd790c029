/** The date-range filter applied to the order and payment tables before
    aggregation: a boolean mask `start <= t <= end`, where both bounds are
    the midnight instants of the dates picked in the date widget. */
module DateFilter {
  import opened Tables

  /** `pd.to_datetime(start_date) <= t <= pd.to_datetime(end_date)`. */
  predicate InWindow(t: nat, startDay: nat, endDay: nat)
  {
    Midnight(startDay) <= t <= Midnight(endDay)
  }

  /** The rows whose timestamp (read by `time`) lies in the window, in their
      original order and unchanged.  `FilterKeepsCopies` says a row is kept
      with all its copies or not at all; `FilterDistributes` pins down the
      order. */
  function FilterByDate<T(!new)>(rows: seq<T>, time: T -> nat, startDay: nat, endDay: nat): (r: seq<T>)
    ensures forall x :: x in r <==> x in rows && InWindow(time(x), startDay, endDay)
    ensures |r| <= |rows|
  {
    if |rows| == 0 then []
    else
      assert forall x :: x in rows <==> x == rows[0] || x in rows[1..];
      var rest := FilterByDate(rows[1..], time, startDay, endDay);
      if InWindow(time(rows[0]), startDay, endDay) then [rows[0]] + rest else rest
  }

  /** The filter only removes rows: each row in the window keeps its
      multiplicity, each row outside it disappears. */
  lemma {:induction false} FilterKeepsCopies<T(!new)>(rows: seq<T>, time: T -> nat, startDay: nat, endDay: nat)
    ensures forall x :: multiset(FilterByDate(rows, time, startDay, endDay))[x]
                     == (if InWindow(time(x), startDay, endDay) then multiset(rows)[x] else 0)
    decreases |rows|
  {
    if |rows| > 0 {
      FilterKeepsCopies(rows[1..], time, startDay, endDay);
      assert rows == [rows[0]] + rows[1..];
      assert multiset(rows) == multiset{rows[0]} + multiset(rows[1..]);
    }
  }

  /** Filtering a concatenation filters each part: the kept rows keep their
      relative order. */
  lemma {:induction false} FilterDistributes<T(!new)>(a: seq<T>, b: seq<T>, time: T -> nat, startDay: nat, endDay: nat)
    ensures FilterByDate(a + b, time, startDay, endDay)
         == FilterByDate(a, time, startDay, endDay) + FilterByDate(b, time, startDay, endDay)
    decreases |a|
  {
    if |a| == 0 {
      assert a + b == b;
    } else {
      assert (a + b)[0] == a[0];
      assert (a + b)[1..] == a[1..] + b;
      FilterDistributes(a[1..], b, time, startDay, endDay);
      var fb := FilterByDate(b, time, startDay, endDay);
      var rest := FilterByDate(a[1..], time, startDay, endDay);
      if InWindow(time(a[0]), startDay, endDay) {
        assert FilterByDate(a + b, time, startDay, endDay) == [a[0]] + (rest + fb);
        assert FilterByDate(a, time, startDay, endDay) == [a[0]] + rest;
      } else {
        assert FilterByDate(a + b, time, startDay, endDay) == rest + fb;
        assert FilterByDate(a, time, startDay, endDay) == rest;
      }
    }
  }

  /** A single row survives exactly when its timestamp is in the window. */
  lemma FilterSingleton<T(!new)>(x: T, time: T -> nat, startDay: nat, endDay: nat)
    ensures FilterByDate([x], time, startDay, endDay)
         == if InWindow(time(x), startDay, endDay) then [x] else []
  {
    assert [x][1..] == [];
  }

  /** Filtering twice with the same window is filtering once. */
  lemma {:induction false} FilterIdempotent<T(!new)>(rows: seq<T>, time: T -> nat, startDay: nat, endDay: nat)
    ensures FilterByDate(FilterByDate(rows, time, startDay, endDay), time, startDay, endDay)
         == FilterByDate(rows, time, startDay, endDay)
    decreases |rows|
  {
    if |rows| > 0 {
      var rest := FilterByDate(rows[1..], time, startDay, endDay);
      FilterIdempotent(rows[1..], time, startDay, endDay);
      if InWindow(time(rows[0]), startDay, endDay) {
        assert ([rows[0]] + rest)[0] == rows[0];
        assert ([rows[0]] + rest)[1..] == rest;
      }
    }
  }

  /** A window no row falls in keeps nothing. */
  lemma {:induction false} FilterNothingInWindow<T(!new)>(rows: seq<T>, time: T -> nat, startDay: nat, endDay: nat)
    requires forall x :: x in rows ==> !InWindow(time(x), startDay, endDay)
    ensures FilterByDate(rows, time, startDay, endDay) == []
    decreases |rows|
  {
    if |rows| > 0 {
      assert forall x :: x in rows[1..] ==> x in rows;
      FilterNothingInWindow(rows[1..], time, startDay, endDay);
    }
  }

  /** A reversed range keeps nothing. */
  lemma {:induction false} FilterReversedIsEmpty<T(!new)>(rows: seq<T>, time: T -> nat, startDay: nat, endDay: nat)
    requires startDay > endDay
    ensures FilterByDate(rows, time, startDay, endDay) == []
    decreases |rows|
  {
    if |rows| > 0 {
      assert Midnight(endDay) < Midnight(startDay);
      FilterReversedIsEmpty(rows[1..], time, startDay, endDay);
    }
  }

  /** The window in calendar days: every instant of the days from `startDay`
      up to the day before `endDay`, and of `endDay` only its first instant,
      midnight.  Purchases later on the end day are dropped. */
  lemma WindowInDays(t: nat, startDay: nat, endDay: nat)
    ensures InWindow(t, startDay, endDay)
        <==> (startDay <= DayOf(t) < endDay) || (startDay <= endDay && t == Midnight(endDay))
  {
    DayBounds(t);
    if DayOf(t) < startDay {
      assert Midnight(DayOf(t) + 1) <= Midnight(startDay);
    }
    if DayOf(t) >= endDay + 1 {
      assert Midnight(endDay + 1) <= Midnight(DayOf(t));
    }
    if endDay < DayOf(t) {
      assert Midnight(endDay + 1) <= Midnight(DayOf(t));
    }
  }
}

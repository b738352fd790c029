/** Worked examples: concrete inputs whose summaries are pinned down. */
module Scenarios {
  import opened Tables
  import opened Aggregation
  import opened Daily
  import opened Demographics

  /** Midnight of 2024-01-01, in seconds since the epoch: day 19723. */
  const NewYear2024: nat := 1704067200

  /** Three orders on 2024-01-01 paying 10, 20 and 30, and one on 2024-01-02
      paying 5. */
  function SampleOrders(): seq<OrderRow>
  {
    [ OrderRow("o1", "c1", "SP", NewYear2024 + 3600, "delivered", 10),
      OrderRow("o2", "c2", "SP", NewYear2024 + 7200, "delivered", 20),
      OrderRow("o3", "c3", "RJ", NewYear2024 + 9000, "delivered", 30),
      OrderRow("o4", "c1", "SP", NewYear2024 + 86400 + 60, "delivered", 5) ]
  }

  lemma SampleDays()
    ensures PurchaseDay(SampleOrders()[0]) == 19723
    ensures PurchaseDay(SampleOrders()[1]) == 19723
    ensures PurchaseDay(SampleOrders()[2]) == 19723
    ensures PurchaseDay(SampleOrders()[3]) == 19724
  {
  }

  lemma FirstLastCons(x: OrderRow, rest: seq<OrderRow>)
    requires |rest| > 0
    ensures FirstDay([x] + rest) == if PurchaseDay(x) <= FirstDay(rest) then PurchaseDay(x) else FirstDay(rest)
    ensures LastDay([x] + rest) == if PurchaseDay(x) >= LastDay(rest) then PurchaseDay(x) else LastDay(rest)
  {
    assert ([x] + rest)[1..] == rest;
  }

  lemma SampleBins()
    ensures Bins(SampleOrders()) == [19723, 19724]
  {
    var rows := SampleOrders();
    SampleDays();
    var a, b, c, d := rows[0], rows[1], rows[2], rows[3];
    assert rows == [a] + ([b] + ([c] + [d]));
    FirstLastCons(c, [d]);
    FirstLastCons(b, [c] + [d]);
    FirstLastCons(a, [b] + ([c] + [d]));
    assert Days(19723, 2) == [19723, 19724];
  }

  lemma SampleIds()
    ensures KeyIds(SampleOrders(), PurchaseDay, 19723, OrderIdOf) == {"o1", "o2", "o3"}
    ensures KeyIds(SampleOrders(), PurchaseDay, 19724, OrderIdOf) == {"o4"}
  {
    var rows := SampleOrders();
    SampleDays();
    assert forall x :: x in rows <==> x == rows[0] || x == rows[1] || x == rows[2] || x == rows[3];
  }

  lemma SampleSums()
    ensures KeySum(SampleOrders(), PurchaseDay, 19723, PaymentOf) == 60
    ensures KeySum(SampleOrders(), PurchaseDay, 19724, PaymentOf) == 5
  {
    var rows := SampleOrders();
    SampleDays();
    assert rows[1..][1..][1..] == [rows[3]];
    assert rows[1..][1..][1..][1..] == [];
  }

  lemma SampleBuckets()
    ensures Bucket(SampleOrders(), 19723) == DayRow(19723, 3, 60)
    ensures Bucket(SampleOrders(), 19724) == DayRow(19724, 1, 5)
  {
    SampleIds();
    SampleSums();
    assert "o1" != "o2" && "o1" != "o3" && "o2" != "o3";
    assert |{"o1", "o2", "o3"}| == 3;
  }

  /** The sample yields two daily rows: (3 orders, 60) and (1 order, 5). */
  lemma DailyOrdersExample()
    ensures DailyOrders(SampleOrders()) == [DayRow(19723, 3, 60), DayRow(19724, 1, 5)]
  {
    var rows := SampleOrders();
    SampleBins();
    SampleBuckets();
    var days: seq<nat> := [19723, 19724];
    assert days[1..] == [19724];
    assert Resample(rows, days[1..]) == [Bucket(rows, 19724)];
    assert DailyOrders(rows) == Resample(rows, days);
  }

  /** Customers c1 and c2 in SP and c3 in RJ. */
  function SampleCustomers(): seq<Membership>
  {
    [Membership("c1", "SP"), Membership("c2", "SP"), Membership("c3", "RJ")]
  }

  lemma SampleCustomerSummary()
    ensures IsStateSummary(SampleCustomers(), [Tally("SP", 2), Tally("RJ", 1)])
  {
    var ms := SampleCustomers();
    assert States(ms) == ["SP", "SP", "RJ"];
    assert forall m :: m in ms <==> m == ms[0] || m == ms[1] || m == ms[2];
    assert IdsInState(ms, "SP") == {"c1", "c2"};
    assert IdsInState(ms, "RJ") == {"c3"};
    var c := [Tally("SP", 2), Tally("RJ", 1)];
    assert c[0].key == "SP" && c[1].key == "RJ";
    assert HasKey(c, "SP") && HasKey(c, "RJ");
    forall t
      ensures HasKey(c, t) <==> t in States(ms)
    {
      if HasKey(c, t) {
        var i :| 0 <= i < |c| && c[i].key == t;
        assert i == 0 || i == 1;
      }
    }
  }

  /** A table sorted by descending metric that holds two rows with
      different metrics holds them in that order. */
  lemma SortedPair(r: seq<Tally<string>>, x: Tally<string>, y: Tally<string>)
    requires multiset(r) == multiset([x, y])
    requires x.value > y.value
    requires NonIncreasing(r)
    ensures r == [x, y]
  {
    assert |r| == |multiset([x, y])| == 2;
    assert r == [r[0], r[1]];
    assert multiset(r) == multiset{r[0], r[1]};
    assert multiset([x, y]) == multiset{x, y};
  }

  /** The state grouper on the sample: SP with 2 customers, then RJ with 1. */
  lemma CustomerStatesExample()
    ensures StateCounts(SampleCustomers()) == [Tally("SP", 2), Tally("RJ", 1)]
  {
    var ms := SampleCustomers();
    var c := [Tally("SP", 2), Tally("RJ", 1)];
    var r := StateCounts(ms);
    SampleCustomerSummary();
    StateSummaryUnique(ms, r, c);
    SortedPair(r, c[0], c[1]);
  }
}

/** The grouping primitives every summary table is built from.  A summary
    table is a sequence of (key, metric) rows, `Tally`; the metric of a row
    is either a sum over the input rows carrying that key (`groupby(...).sum()`,
    `.count()`, `resample(...).agg("sum")`) or the number of distinct ids among
    them (`.nunique()`). */
module Aggregation {

  /** One row of a summary table. */
  datatype Tally<K> = Tally(key: K, value: int)

  /** No element occurs twice. */
  predicate Distinct<T(==)>(s: seq<T>)
  {
    forall i, j :: 0 <= i < j < |s| ==> s[i] != s[j]
  }

  /** Sum of `w` over all rows: a column `.sum()`. */
  function Total<T>(xs: seq<T>, w: T -> int): int
  {
    if |xs| == 0 then 0 else w(xs[0]) + Total(xs[1..], w)
  }

  /** Sum of `w` over the rows whose key is `k`. */
  function KeySum<T, K(==)>(xs: seq<T>, key: T -> K, k: K, w: T -> int): int
  {
    if |xs| == 0 then 0
    else (if key(xs[0]) == k then w(xs[0]) else 0) + KeySum(xs[1..], key, k, w)
  }

  /** The distinct ids among the rows whose key is `k`. */
  function KeyIds<T(==), K(==), I(==)>(xs: seq<T>, key: T -> K, k: K, id: T -> I): set<I>
  {
    set x | x in xs && key(x) == k :: id(x)
  }

  /** The distinct ids among the rows whose key is one of `ks`. */
  function KeysIds<T(==), K(==), I(==)>(xs: seq<T>, key: T -> K, ks: seq<K>, id: T -> I): set<I>
  {
    set x | x in xs && key(x) in ks :: id(x)
  }

  /** The distinct ids among all rows: a column `.nunique()`. */
  function Ids<T(==), I(==)>(xs: seq<T>, id: T -> I): set<I>
  {
    set x | x in xs :: id(x)
  }

  /** The metric of one summary row. */
  function ValueOf<K>(t: Tally<K>): int
  {
    t.value
  }

  /** Sum of the metric column of a summary table. */
  function Column<K>(ts: seq<Tally<K>>): int
  {
    Total(ts, ValueOf)
  }

  /** One row per key of `ks`, in that order, holding the sum of `w` over
      the rows with that key. */
  function SumsByKey<T, K(==)>(xs: seq<T>, key: T -> K, ks: seq<K>, w: T -> int): (r: seq<Tally<K>>)
    ensures |r| == |ks|
    ensures forall i :: 0 <= i < |r| ==> r[i].key == ks[i] && r[i].value == KeySum(xs, key, ks[i], w)
  {
    if |ks| == 0 then []
    else [Tally(ks[0], KeySum(xs, key, ks[0], w))] + SumsByKey(xs, key, ks[1..], w)
  }

  /** One row per key of `ks`, in that order, holding the number of distinct
      ids among the rows with that key. */
  function NuniqueByKey<T(==), K(==), I(==)>(xs: seq<T>, key: T -> K, ks: seq<K>, id: T -> I): (r: seq<Tally<K>>)
    ensures |r| == |ks|
    ensures forall i :: 0 <= i < |r| ==> r[i].key == ks[i] && r[i].value == |KeyIds(xs, key, ks[i], id)|
  {
    if |ks| == 0 then []
    else [Tally(ks[0], |KeyIds(xs, key, ks[0], id)|)] + NuniqueByKey(xs, key, ks[1..], id)
  }

  /** A key that no row carries sums to zero. */
  lemma {:induction false} KeySumAbsent<T, K>(xs: seq<T>, key: T -> K, k: K, w: T -> int)
    requires forall x :: x in xs ==> key(x) != k
    ensures KeySum(xs, key, k, w) == 0
  {
    if |xs| > 0 {
      assert forall x :: x in xs[1..] ==> x in xs;
      KeySumAbsent(xs[1..], key, k, w);
    }
  }

  /** The rows whose key is `k`, in their original order. */
  function RowsWithKey<T(==,!new), K(==)>(xs: seq<T>, key: T -> K, k: K): (r: seq<T>)
    ensures forall x :: x in r <==> x in xs && key(x) == k
  {
    if |xs| == 0 then []
    else
      assert forall x :: x in xs <==> x == xs[0] || x in xs[1..];
      var rest := RowsWithKey(xs[1..], key, k);
      if key(xs[0]) == k then [xs[0]] + rest else rest
  }

  /** A per-key sum is the plain sum over the rows carrying that key. */
  lemma {:induction false} KeySumOfRowsWithKey<T(!new), K>(xs: seq<T>, key: T -> K, k: K, w: T -> int)
    ensures KeySum(xs, key, k, w) == Total(RowsWithKey(xs, key, k), w)
  {
    if |xs| > 0 {
      KeySumOfRowsWithKey(xs[1..], key, k, w);
    }
  }

  /** The table has a row for key `k`. */
  predicate HasKey<K(==)>(ts: seq<Tally<K>>, k: K)
  {
    exists i :: 0 <= i < |ts| && ts[i].key == k
  }

  lemma {:induction false} ColumnOfEmptyInput<T, K>(key: T -> K, ks: seq<K>, w: T -> int)
    ensures Column(SumsByKey([], key, ks, w)) == 0
  {
    if |ks| > 0 {
      ColumnOfEmptyInput(key, ks[1..], w);
    }
  }

  /** Peeling the first input row off every per-key sum at once: it lands in
      exactly one bucket when its key is listed, and in none otherwise. */
  lemma {:induction false} ColumnOfFirstRow<T, K>(xs: seq<T>, key: T -> K, ks: seq<K>, w: T -> int)
    requires Distinct(ks)
    requires |xs| > 0
    ensures Column(SumsByKey(xs, key, ks, w))
         == (if key(xs[0]) in ks then w(xs[0]) else 0) + Column(SumsByKey(xs[1..], key, ks, w))
  {
    if |ks| > 0 {
      assert forall j :: 0 <= j < |ks[1..]| ==> ks[1..][j] != ks[0];
      ColumnOfFirstRow(xs, key, ks[1..], w);
      assert key(xs[0]) in ks <==> key(xs[0]) == ks[0] || key(xs[0]) in ks[1..];
    }
  }

  /** Sum conservation: when every row's key is listed exactly once, the
      per-key sums add up to the sum over all rows. */
  lemma {:induction false} SumsByKeyConserve<T, K>(xs: seq<T>, key: T -> K, ks: seq<K>, w: T -> int)
    requires Distinct(ks)
    requires forall x :: x in xs ==> key(x) in ks
    ensures Column(SumsByKey(xs, key, ks, w)) == Total(xs, w)
  {
    if |xs| == 0 {
      ColumnOfEmptyInput(key, ks, w);
    } else {
      ColumnOfFirstRow(xs, key, ks, w);
      assert forall x :: x in xs[1..] ==> x in xs;
      SumsByKeyConserve(xs[1..], key, ks, w);
    }
  }

  /** Union bound: the per-key distinct counts add up to at least the number
      of distinct ids among the rows with a listed key. */
  lemma {:induction false} NuniqueByKeyCovers<T, K, I>(xs: seq<T>, key: T -> K, ks: seq<K>, id: T -> I)
    ensures Column(NuniqueByKey(xs, key, ks, id)) >= |KeysIds(xs, key, ks, id)|
  {
    if |ks| == 0 {
      assert KeysIds(xs, key, ks, id) == {};
    } else {
      NuniqueByKeyCovers(xs, key, ks[1..], id);
      assert KeysIds(xs, key, ks, id) == KeyIds(xs, key, ks[0], id) + KeysIds(xs, key, ks[1..], id);
    }
  }

  /** Partition: when ids never cross keys and the keys are distinct, the
      per-key distinct counts add up to exactly the number of distinct ids. */
  lemma {:induction false} NuniqueByKeyPartition<T, K, I>(xs: seq<T>, key: T -> K, ks: seq<K>, id: T -> I)
    requires Distinct(ks)
    requires forall x, y :: x in xs && y in xs && id(x) == id(y) ==> key(x) == key(y)
    ensures Column(NuniqueByKey(xs, key, ks, id)) == |KeysIds(xs, key, ks, id)|
  {
    if |ks| == 0 {
      assert KeysIds(xs, key, ks, id) == {};
    } else {
      assert forall j :: 0 <= j < |ks[1..]| ==> ks[1..][j] != ks[0];
      NuniqueByKeyPartition(xs, key, ks[1..], id);
      var head := KeyIds(xs, key, ks[0], id);
      var tail := KeysIds(xs, key, ks[1..], id);
      assert KeysIds(xs, key, ks, id) == head + tail;
      assert head * tail == {} by {
        forall i | i in head
          ensures i !in tail
        {
          var x :| x in xs && key(x) == ks[0] && id(x) == i;
          assert forall y :: y in xs && id(y) == i ==> key(y) !in ks[1..];
        }
      }
    }
  }

  /** When every row's key is listed, the ids of the listed keys are all ids. */
  lemma AllKeysListed<T, K, I>(xs: seq<T>, key: T -> K, ks: seq<K>, id: T -> I)
    requires forall x :: x in xs ==> key(x) in ks
    ensures KeysIds(xs, key, ks, id) == Ids(xs, id)
  {
  }

  /** The metric column is non-increasing from top to bottom. */
  predicate NonIncreasing<K>(ts: seq<Tally<K>>)
  {
    forall i, j :: 0 <= i < j < |ts| ==> ts[i].value >= ts[j].value
  }

  /** No key occurs in two rows. */
  predicate DistinctKeys<K(==)>(ts: seq<Tally<K>>)
  {
    forall i, j :: 0 <= i < j < |ts| ==> ts[i].key != ts[j].key
  }

  /** Places `t` into a table sorted by descending metric, before the first
      row whose metric it reaches. */
  function InsertDescending<K>(t: Tally<K>, ts: seq<Tally<K>>): (r: seq<Tally<K>>)
    requires NonIncreasing(ts)
    ensures NonIncreasing(r)
    ensures multiset(r) == multiset(ts) + multiset{t}
  {
    if |ts| == 0 || t.value >= ts[0].value then
      [t] + ts
    else
      var rest := InsertDescending(t, ts[1..]);
      assert ts == [ts[0]] + ts[1..];
      assert forall j :: 0 <= j < |rest| ==> rest[j].value <= ts[0].value by {
        forall j | 0 <= j < |rest|
          ensures rest[j].value <= ts[0].value
        {
          assert rest[j] in multiset(rest);
          if rest[j] != t {
            assert rest[j] in multiset(ts[1..]);
          }
        }
      }
      [ts[0]] + rest
  }

  /** `sort_values(by=metric, ascending=False)`: a permutation of the table
      whose metric column is non-increasing.  The order among equal metrics
      is whatever this insertion sort yields; pandas' default quicksort does
      not promise one either. */
  function SortDescending<K>(ts: seq<Tally<K>>): (r: seq<Tally<K>>)
    ensures NonIncreasing(r)
    ensures multiset(r) == multiset(ts)
  {
    if |ts| == 0 then []
    else
      assert ts == [ts[0]] + ts[1..];
      InsertDescending(ts[0], SortDescending(ts[1..]))
  }

  /** Reordering rows keeps the metric total. */
  lemma {:induction false} ColumnOfPermutation<K>(a: seq<Tally<K>>, b: seq<Tally<K>>)
    requires multiset(a) == multiset(b)
    ensures Column(a) == Column(b)
    decreases |a|
  {
    if |a| > 0 {
      assert a[0] in multiset(b);
      var j :| 0 <= j < |b| && b[j] == a[0];
      var b' := b[..j] + b[j + 1..];
      var tail := [b[j]] + b[j + 1..];
      assert b == b[..j] + tail;
      assert tail[1..] == b[j + 1..];
      assert multiset(b) == multiset(b[..j]) + multiset{b[j]} + multiset(b[j + 1..]);
      assert multiset(b') == multiset(b[..j]) + multiset(b[j + 1..]);
      assert a == [a[0]] + a[1..];
      assert multiset(a) == multiset{a[0]} + multiset(a[1..]);
      assert multiset(a[1..]) == multiset(a) - multiset{a[0]};
      assert multiset(a[1..]) == multiset(b');
      ColumnOfPermutation(a[1..], b');
      ColumnOfConcat(b[..j], tail);
      ColumnOfConcat(b[..j], b[j + 1..]);
    }
  }

  lemma {:induction false} ColumnOfConcat<K>(a: seq<Tally<K>>, b: seq<Tally<K>>)
    ensures Column(a + b) == Column(a) + Column(b)
    decreases |a|
  {
    if |a| == 0 {
      assert a + b == b;
    } else {
      assert (a + b)[0] == a[0];
      assert (a + b)[1..] == a[1..] + b;
      ColumnOfConcat(a[1..], b);
    }
  }

  /** Reordering rows keeps the keys distinct. */
  lemma PermutationKeepsDistinctKeys<K>(a: seq<Tally<K>>, b: seq<Tally<K>>)
    requires multiset(a) == multiset(b)
    requires DistinctKeys(a)
    ensures DistinctKeys(b)
  {
    forall i, j | 0 <= i < j < |b|
      ensures b[i].key != b[j].key
    {
      assert b[i] in multiset(a) && b[j] in multiset(a);
      var p :| 0 <= p < |a| && a[p] == b[i];
      var q :| 0 <= q < |a| && a[q] == b[j];
      if p == q {
        MultiplicityOfRepeat(b, i, j);
        MultiplicityOfDistinct(a, p);
      }
    }
  }

  /** An element found at two positions occurs at least twice. */
  lemma MultiplicityOfRepeat<T>(s: seq<T>, i: nat, j: nat)
    requires i < j < |s| && s[i] == s[j]
    ensures multiset(s)[s[i]] >= 2
  {
    assert s == s[..i] + [s[i]] + s[i + 1..j] + [s[j]] + s[j + 1..];
  }

  /** In a table with distinct keys, each row occurs once. */
  lemma MultiplicityOfDistinct<K>(a: seq<Tally<K>>, p: nat)
    requires DistinctKeys(a) && p < |a|
    ensures multiset(a)[a[p]] == 1
  {
    assert a == a[..p] + [a[p]] + a[p + 1..];
    assert a[p] !in a[..p];
    assert a[p] !in a[p + 1..];
  }
}

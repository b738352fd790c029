/** The order pandas gives to string keys: `groupby` sorts its key column
    with Python's `<` on `str`, which compares code point by code point and
    puts a proper prefix first. */
module KeyOrder {

  /** Python's `a < b` on strings. */
  predicate Below(a: string, b: string)
    decreases |a|
  {
    if |a| == 0 then |b| > 0
    else |b| > 0 && (a[0] < b[0] || (a[0] == b[0] && Below(a[1..], b[1..])))
  }

  lemma {:induction false} BelowIrreflexive(a: string)
    ensures !Below(a, a)
    decreases |a|
  {
    if |a| > 0 {
      BelowIrreflexive(a[1..]);
    }
  }

  lemma {:induction false} BelowTransitive(a: string, b: string, c: string)
    requires Below(a, b) && Below(b, c)
    ensures Below(a, c)
    decreases |a|
  {
    if |a| > 0 && a[0] == b[0] && b[0] == c[0] {
      BelowTransitive(a[1..], b[1..], c[1..]);
    }
  }

  lemma {:induction false} BelowTotal(a: string, b: string)
    requires a != b
    ensures Below(a, b) || Below(b, a)
    decreases |a|
  {
    if |a| > 0 && |b| > 0 && a[0] == b[0] {
      assert a == [a[0]] + a[1..] && b == [b[0]] + b[1..];
      BelowTotal(a[1..], b[1..]);
    }
  }

  /** Every key is strictly below every later key; in particular no key repeats. */
  predicate Ascending(ks: seq<string>)
  {
    forall i, j :: 0 <= i < j < |ks| ==> Below(ks[i], ks[j])
  }

  lemma AscendingIsDistinct(ks: seq<string>)
    requires Ascending(ks)
    ensures forall i, j :: 0 <= i < j < |ks| ==> ks[i] != ks[j]
  {
    forall i, j | 0 <= i < j < |ks|
      ensures ks[i] != ks[j]
    {
      BelowIrreflexive(ks[i]);
    }
  }

  /** Adds `k` to an ascending key column, unless it is already there. */
  function Insert(k: string, ks: seq<string>): (r: seq<string>)
    requires Ascending(ks)
    ensures Ascending(r)
    ensures forall x :: x in r <==> x == k || x in ks
  {
    if |ks| == 0 then [k]
    else if k == ks[0] then ks
    else if Below(k, ks[0]) then
      assert forall j :: 0 < j < |ks| ==> Below(k, ks[j]) by {
        forall j | 0 < j < |ks|
          ensures Below(k, ks[j])
        {
          BelowTransitive(k, ks[0], ks[j]);
        }
      }
      [k] + ks
    else
      BelowTotal(k, ks[0]);
      var rest := Insert(k, ks[1..]);
      assert forall x :: x in ks[1..] ==> Below(ks[0], x);
      assert forall j :: 0 <= j < |rest| ==> Below(ks[0], rest[j]) by {
        forall j | 0 <= j < |rest|
          ensures Below(ks[0], rest[j])
        {
          assert rest[j] in rest;
        }
      }
      [ks[0]] + rest
  }

  /** The key column of `groupby(by=...)`: the distinct values of `xs`, ascending. */
  function GroupKeys(xs: seq<string>): (r: seq<string>)
    ensures Ascending(r)
    ensures forall x :: x in r <==> x in xs
  {
    if |xs| == 0 then [] else Insert(xs[0], GroupKeys(xs[1..]))
  }
}

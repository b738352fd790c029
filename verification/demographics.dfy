/** The two state demographics: `create_custate_df` (distinct customers per
    `customer_state`) and `create_sellstate_df` (distinct sellers per
    `seller_state`).  Both group by state, count distinct ids with
    `nunique`, and sort by that count, highest first, with pandas' default
    sort, which does not keep ties in any promised order. */
module Demographics {
  import opened Tables
  import opened KeyOrder
  import opened Aggregation

  /** An (id, state) pair: a customer or a seller and where it is. */
  datatype Membership = Membership(id: string, state: string)

  function IdOf(m: Membership): string
  {
    m.id
  }

  function StateOf(m: Membership): string
  {
    m.state
  }

  /** The `customer_id` and `customer_state` columns of the orders table. */
  function CustomerMemberships(rows: seq<OrderRow>): (ms: seq<Membership>)
    ensures |ms| == |rows|
    ensures forall i :: 0 <= i < |rows| ==> ms[i] == Membership(rows[i].customerId, rows[i].customerState)
  {
    if |rows| == 0 then []
    else [Membership(rows[0].customerId, rows[0].customerState)] + CustomerMemberships(rows[1..])
  }

  /** The `seller_id` and `seller_state` columns of the seller table. */
  function SellerMemberships(rows: seq<SellerRow>): (ms: seq<Membership>)
    ensures |ms| == |rows|
    ensures forall i :: 0 <= i < |rows| ==> ms[i] == Membership(rows[i].sellerId, rows[i].sellerState)
  {
    if |rows| == 0 then []
    else [Membership(rows[0].sellerId, rows[0].sellerState)] + SellerMemberships(rows[1..])
  }

  /** The state column. */
  function States(ms: seq<Membership>): (r: seq<string>)
    ensures |r| == |ms|
    ensures forall i :: 0 <= i < |ms| ==> r[i] == ms[i].state
  {
    if |ms| == 0 then [] else [ms[0].state] + States(ms[1..])
  }

  /** The distinct ids located in state `s`. */
  function IdsInState(ms: seq<Membership>, s: string): set<string>
  {
    set m | m in ms && m.state == s :: m.id
  }

  /** What every admissible result of the state grouper satisfies, whatever
      order the sort leaves tied states in: one row per state present (no
      state twice, none missing, none invented), each holding the number of
      distinct ids in that state, counts non-increasing down the table. */
  ghost predicate IsStateSummary(ms: seq<Membership>, r: seq<Tally<string>>)
  {
    && DistinctKeys(r)
    && (forall s :: HasKey(r, s) <==> s in States(ms))
    && (forall i :: 0 <= i < |r| ==> r[i].value == |IdsInState(ms, r[i].key)|)
    && NonIncreasing(r)
  }

  /** `groupby(by=state).id.nunique().reset_index()`: ascending states. */
  function StateGroups(ms: seq<Membership>): (g: seq<Tally<string>>)
    ensures DistinctKeys(g)
    ensures forall s :: HasKey(g, s) <==> s in States(ms)
    ensures forall i :: 0 <= i < |g| ==> g[i].value == |IdsInState(ms, g[i].key)|
    ensures forall i, j :: 0 <= i < j < |g| ==> Below(g[i].key, g[j].key)
  {
    var ks := GroupKeys(States(ms));
    AscendingIsDistinct(ks);
    var g := NuniqueByKey(ms, StateOf, ks, IdOf);
    forall i | 0 <= i < |g|
      ensures g[i].value == |IdsInState(ms, g[i].key)|
    {
      SameIds(ms, ks[i]);
    }
    assert forall s :: HasKey(g, s) <==> s in ks by {
      forall s | s in ks
        ensures HasKey(g, s)
      {
        var i :| 0 <= i < |ks| && ks[i] == s;
        assert g[i].key == s;
      }
    }
    g
  }

  lemma SameIds(ms: seq<Membership>, s: string)
    ensures KeyIds(ms, StateOf, s, IdOf) == IdsInState(ms, s)
  {
    forall c | c in IdsInState(ms, s)
      ensures c in KeyIds(ms, StateOf, s, IdOf)
    {
      var m :| m in ms && m.state == s && m.id == c;
      assert StateOf(m) == s && IdOf(m) == c;
    }
  }

  /** The state grouper followed by `sort_values(ascending=False)`. */
  function StateCounts(ms: seq<Membership>): (r: seq<Tally<string>>)
    ensures IsStateSummary(ms, r)
  {
    var g := StateGroups(ms);
    var r := SortDescending(g);
    PermutationKeepsDistinctKeys(g, r);
    forall i | 0 <= i < |r|
      ensures r[i].value == |IdsInState(ms, r[i].key)|
    {
      assert r[i] in multiset(g);
    }
    forall s
      ensures HasKey(r, s) <==> HasKey(g, s)
    {
      if HasKey(r, s) {
        var i :| 0 <= i < |r| && r[i].key == s;
        assert r[i] in multiset(g);
      }
      if HasKey(g, s) {
        var i :| 0 <= i < |g| && g[i].key == s;
        assert g[i] in multiset(r);
      }
    }
    r
  }

  /** `create_custate_df`: distinct customers per customer state. */
  function CustomerStates(rows: seq<OrderRow>): (r: seq<Tally<string>>)
    ensures IsStateSummary(CustomerMemberships(rows), r)
  {
    StateCounts(CustomerMemberships(rows))
  }

  /** `create_sellstate_df`: distinct sellers per seller state. */
  function SellerStates(rows: seq<SellerRow>): (r: seq<Tally<string>>)
    ensures IsStateSummary(SellerMemberships(rows), r)
  {
    StateCounts(SellerMemberships(rows))
  }

  /** The rows of an admissible result are exactly the (state, count)
      pairs of the states present. */
  lemma SummaryRows(ms: seq<Membership>, r: seq<Tally<string>>, y: Tally<string>)
    requires IsStateSummary(ms, r)
    ensures y in r <==> y.key in States(ms) && y.value == |IdsInState(ms, y.key)|
  {
    if y in r {
      var p :| 0 <= p < |r| && r[p] == y;
      assert HasKey(r, y.key);
    }
    if y.key in States(ms) && y.value == |IdsInState(ms, y.key)| {
      assert HasKey(r, y.key);
      var p :| 0 <= p < |r| && r[p].key == y.key;
      assert r[p] == y;
    }
  }

  /** The summary is determined up to the order of tied rows: any two
      admissible results hold the same rows. */
  lemma StateSummaryUnique(ms: seq<Membership>, a: seq<Tally<string>>, b: seq<Tally<string>>)
    requires IsStateSummary(ms, a) && IsStateSummary(ms, b)
    ensures multiset(a) == multiset(b)
  {
    forall y
      ensures multiset(a)[y] == multiset(b)[y]
    {
      SummaryRows(ms, a, y);
      SummaryRows(ms, b, y);
      if y in a {
        var p :| 0 <= p < |a| && a[p] == y;
        var q :| 0 <= q < |b| && b[q] == y;
        MultiplicityOfDistinct(a, p);
        MultiplicityOfDistinct(b, q);
      }
    }
  }

  /** Each id lives in one state. */
  predicate OneStatePerId(ms: seq<Membership>)
  {
    forall m, n :: m in ms && n in ms && m.id == n.id ==> m.state == n.state
  }

  /** When each id lives in one state, the per-state counts add up to the
      number of distinct ids. */
  lemma StateCountsAddUp(ms: seq<Membership>)
    requires OneStatePerId(ms)
    ensures Column(StateCounts(ms)) == |set m | m in ms :: m.id|
  {
    var ks := GroupKeys(States(ms));
    AscendingIsDistinct(ks);
    var g := NuniqueByKey(ms, StateOf, ks, IdOf);
    assert forall m :: m in ms ==> StateOf(m) in ks by {
      forall m | m in ms
        ensures StateOf(m) in ks
      {
        var i :| 0 <= i < |ms| && ms[i] == m;
        assert States(ms)[i] == m.state;
      }
    }
    NuniqueByKeyPartition(ms, StateOf, ks, IdOf);
    AllKeysListed(ms, StateOf, ks, IdOf);
    ColumnOfPermutation(SortDescending(StateGroups(ms)), StateGroups(ms));
    assert StateGroups(ms) == g;
    assert Ids(ms, IdOf) == set m | m in ms :: m.id;
  }
}

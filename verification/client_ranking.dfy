/** `get_top_clients`: the clients ordered by `total_requests`, highest
    first, through Python's stable `sorted(..., reverse=True)`, then cut to
    the first `limit`. */
module ClientRanking {
  import opened MetricRecords
  import opened Slices

  /** Non-increasing by `total_requests`. */
  predicate SortedByTotalDesc(s: seq<ClientMetrics>)
  {
    forall i, j | 0 <= i < j < |s| :: s[j].totalRequests <= s[i].totalRequests
  }

  /** Places `x` after every element whose total is at least its own, so
      that among equal totals the element inserted last comes last. */
  function InsertByTotal(x: ClientMetrics, s: seq<ClientMetrics>): (r: seq<ClientMetrics>)
    ensures |r| == |s| + 1
    ensures multiset(r) == multiset(s) + multiset{x}
    decreases |s|
  {
    if |s| == 0 then [x]
    else if s[0].totalRequests < x.totalRequests then [x] + s
    else
      assert s == [s[0]] + s[1..];
      [s[0]] + InsertByTotal(x, s[1..])
  }

  /** `sorted(clients, key=lambda c: c.total_requests, reverse=True)`: a
      stable sort by decreasing total, written as insertion of each element
      in turn into the sorted prefix before it. */
  function SortByTotalDesc(s: seq<ClientMetrics>): (r: seq<ClientMetrics>)
    ensures |r| == |s|
    ensures multiset(r) == multiset(s)
  {
    if |s| == 0 then []
    else
      assert s == s[..|s| - 1] + [s[|s| - 1]];
      InsertByTotal(s[|s| - 1], SortByTotalDesc(s[..|s| - 1]))
  }

  /** The elements of `s` whose total is `v`, in their order in `s`. */
  function WithTotal(s: seq<ClientMetrics>, v: nat): seq<ClientMetrics>
  {
    if |s| == 0 then []
    else (if s[0].totalRequests == v then [s[0]] else []) + WithTotal(s[1..], v)
  }

  /** `get_top_clients(limit)`: the sorted list cut with `[:limit]`. */
  function TopClients(clients: seq<ClientMetrics>, limit: int): seq<ClientMetrics>
  {
    TakePrefix(SortByTotalDesc(clients), limit)
  }

  lemma SortedTail(s: seq<ClientMetrics>)
    requires |s| != 0 && SortedByTotalDesc(s)
    ensures SortedByTotalDesc(s[1..])
  {
    assert forall i, j | 0 <= i < j < |s| :: s[j].totalRequests <= s[i].totalRequests;
    forall i, j | 0 <= i < j < |s[1..]|
      ensures s[1..][j].totalRequests <= s[1..][i].totalRequests
    {
      assert s[1..][j] == s[j + 1] && s[1..][i] == s[i + 1];
    }
  }

  /** The head of a sorted list has the largest total. */
  lemma SortedHeadIsMax(s: seq<ClientMetrics>)
    requires |s| != 0 && SortedByTotalDesc(s)
    ensures forall i | 0 <= i < |s| :: s[i].totalRequests <= s[0].totalRequests
  {
    assert forall i, j | 0 <= i < j < |s| :: s[j].totalRequests <= s[i].totalRequests;
    forall i | 0 <= i < |s|
      ensures s[i].totalRequests <= s[0].totalRequests
    {
      if i != 0 {
        assert s[i].totalRequests <= s[0].totalRequests;
      }
    }
  }

  /** An upper bound on every total survives insertion. */
  lemma {:induction false} InsertBounded(x: ClientMetrics, s: seq<ClientMetrics>, bound: nat)
    requires x.totalRequests <= bound
    requires forall i | 0 <= i < |s| :: s[i].totalRequests <= bound
    ensures forall i | 0 <= i < |InsertByTotal(x, s)| :: InsertByTotal(x, s)[i].totalRequests <= bound
    decreases |s|
  {
    assert forall i | 0 <= i < |s| :: s[i].totalRequests <= bound;
    var r := InsertByTotal(x, s);
    if |s| != 0 && x.totalRequests <= s[0].totalRequests {
      assert forall i | 0 <= i < |s[1..]| :: s[1..][i].totalRequests <= bound by {
        forall i | 0 <= i < |s[1..]|
          ensures s[1..][i].totalRequests <= bound
        {
          assert s[1..][i] == s[i + 1];
        }
      }
      InsertBounded(x, s[1..], bound);
      var t := InsertByTotal(x, s[1..]);
      assert forall i | 0 <= i < |t| :: t[i].totalRequests <= bound;
      forall i | 0 <= i < |r|
        ensures r[i].totalRequests <= bound
      {
        if i != 0 {
          assert r[i] == t[i - 1];
        }
      }
    } else if |s| != 0 {
      forall i | 0 <= i < |r|
        ensures r[i].totalRequests <= bound
      {
        if i != 0 {
          assert r[i] == s[i - 1];
        }
      }
    }
  }

  /** A sorted list stays sorted under a head no smaller than any of it. */
  lemma ConsSorted(h: ClientMetrics, t: seq<ClientMetrics>)
    requires SortedByTotalDesc(t)
    requires forall i | 0 <= i < |t| :: t[i].totalRequests <= h.totalRequests
    ensures SortedByTotalDesc([h] + t)
  {
    assert forall i | 0 <= i < |t| :: t[i].totalRequests <= h.totalRequests;
    assert forall i, j | 0 <= i < j < |t| :: t[j].totalRequests <= t[i].totalRequests;
    var r := [h] + t;
    forall i, j | 0 <= i < j < |r|
      ensures r[j].totalRequests <= r[i].totalRequests
    {
      assert r[j] == t[j - 1];
      if i != 0 {
        assert r[i] == t[i - 1];
      }
    }
  }

  lemma {:induction false} InsertKeepsSorted(x: ClientMetrics, s: seq<ClientMetrics>)
    requires SortedByTotalDesc(s)
    ensures SortedByTotalDesc(InsertByTotal(x, s))
    decreases |s|
  {
    if |s| != 0 {
      SortedHeadIsMax(s);
      if s[0].totalRequests < x.totalRequests {
        ConsSorted(x, s);
      } else {
        SortedTail(s);
        InsertKeepsSorted(x, s[1..]);
        assert forall i | 0 <= i < |s[1..]| :: s[1..][i].totalRequests <= s[0].totalRequests by {
          forall i | 0 <= i < |s[1..]|
            ensures s[1..][i].totalRequests <= s[0].totalRequests
          {
            assert s[1..][i] == s[i + 1];
          }
        }
        InsertBounded(x, s[1..], s[0].totalRequests);
        ConsSorted(s[0], InsertByTotal(x, s[1..]));
      }
    }
  }

  /** The result of the sort is ordered by decreasing total. */
  lemma {:induction false} SortIsSorted(s: seq<ClientMetrics>)
    ensures SortedByTotalDesc(SortByTotalDesc(s))
  {
    if |s| != 0 {
      SortIsSorted(s[..|s| - 1]);
      InsertKeepsSorted(s[|s| - 1], SortByTotalDesc(s[..|s| - 1]));
    }
  }

  lemma {:induction false} WithTotalAppend(s: seq<ClientMetrics>, x: ClientMetrics, v: nat)
    ensures WithTotal(s + [x], v) == WithTotal(s, v) + (if x.totalRequests == v then [x] else [])
    decreases |s|
  {
    if |s| == 0 {
      AppendToEmpty(s, x);
    } else {
      var head := if s[0].totalRequests == v then [s[0]] else [];
      var tail := if x.totalRequests == v then [x] else [];
      AppendTail(s, x);
      assert WithTotal(s + [x], v) == head + WithTotal(s[1..] + [x], v);
      WithTotalAppend(s[1..], x, v);
      assert head + (WithTotal(s[1..], v) + tail) == (head + WithTotal(s[1..], v)) + tail;
    }
  }

  lemma {:induction false} WithTotalNone(s: seq<ClientMetrics>, v: nat)
    requires forall i | 0 <= i < |s| :: s[i].totalRequests < v
    ensures WithTotal(s, v) == []
    decreases |s|
  {
    assert forall i | 0 <= i < |s| :: s[i].totalRequests < v;
    if |s| != 0 {
      assert forall i | 0 <= i < |s[1..]| :: s[1..][i].totalRequests < v by {
        forall i | 0 <= i < |s[1..]|
          ensures s[1..][i].totalRequests < v
        {
          assert s[1..][i] == s[i + 1];
        }
      }
      WithTotalNone(s[1..], v);
    }
  }

  /** Inserting into a sorted list puts `x` behind every element of equal
      total that was already there. */
  lemma {:induction false} InsertWithTotal(x: ClientMetrics, s: seq<ClientMetrics>, v: nat)
    requires SortedByTotalDesc(s)
    ensures WithTotal(InsertByTotal(x, s), v) == WithTotal(s, v) + (if x.totalRequests == v then [x] else [])
    decreases |s|
  {
    if |s| == 0 {
      assert [x][1..] == [];
    } else if s[0].totalRequests < x.totalRequests {
      assert ([x] + s)[1..] == s;
      if x.totalRequests == v {
        SortedHeadIsMax(s);
        WithTotalNone(s, v);
      }
    } else {
      SortedTail(s);
      InsertWithTotal(x, s[1..], v);
      assert ([s[0]] + InsertByTotal(x, s[1..]))[1..] == InsertByTotal(x, s[1..]);
    }
  }

  /** A non-empty sequence is its front followed by its last element. */
  lemma SplitLast<T>(s: seq<T>)
    requires |s| != 0
    ensures s == s[..|s| - 1] + [s[|s| - 1]]
  {
  }

  /** Stability: for every total, the clients with that total appear in the
      sorted list in the same order as in the input. */
  lemma {:induction false} SortIsStable(s: seq<ClientMetrics>, v: nat)
    ensures WithTotal(SortByTotalDesc(s), v) == WithTotal(s, v)
  {
    if |s| != 0 {
      var init, last := s[..|s| - 1], s[|s| - 1];
      var sortedInit := SortByTotalDesc(init);
      var tail := if last.totalRequests == v then [last] else [];
      assert SortByTotalDesc(s) == InsertByTotal(last, sortedInit);
      assert WithTotal(InsertByTotal(last, sortedInit), v) == WithTotal(sortedInit, v) + tail by {
        SortIsSorted(init);
        InsertWithTotal(last, sortedInit, v);
      }
      assert WithTotal(sortedInit, v) == WithTotal(init, v) by {
        SortIsStable(init, v);
      }
      assert WithTotal(s, v) == WithTotal(init, v) + tail by {
        SplitLast(s);
        WithTotalAppend(init, last, v);
      }
    }
  }

  /** A prefix of a sorted list is sorted. */
  lemma PrefixSorted(s: seq<ClientMetrics>, k: nat)
    requires SortedByTotalDesc(s) && k <= |s|
    ensures SortedByTotalDesc(s[..k])
  {
    assert forall i, j | 0 <= i < j < |s| :: s[j].totalRequests <= s[i].totalRequests;
    forall i, j | 0 <= i < j < k
      ensures s[..k][j].totalRequests <= s[..k][i].totalRequests
    {
      assert s[..k][j] == s[j] && s[..k][i] == s[i];
    }
  }

  /** A prefix holds some of the elements of the whole. */
  lemma PrefixSubMultiset(s: seq<ClientMetrics>, k: nat)
    requires k <= |s|
    ensures multiset(s[..k]) <= multiset(s)
  {
    assert s == s[..k] + s[k..];
  }

  /** In a sorted list, an element outside the first `k` has a total no
      larger than any of the first `k`. */
  lemma PrefixDominates(s: seq<ClientMetrics>, k: nat, c: ClientMetrics, i: nat)
    requires SortedByTotalDesc(s) && i < k <= |s|
    requires c in s && c !in s[..k]
    ensures c.totalRequests <= s[i].totalRequests
  {
    assert forall i, j | 0 <= i < j < |s| :: s[j].totalRequests <= s[i].totalRequests;
    var j :| 0 <= j < |s| && s[j] == c;
    assert forall m | 0 <= m < k :: s[..k][m] == s[m];
    assert k <= j;
  }

  /** `get_top_clients(limit)`: at most `limit` clients, ordered by
      decreasing total, each taken from the input, and no client left out
      has more requests than any client returned. */
  lemma TopClientsSpec(clients: seq<ClientMetrics>, limit: int)
    ensures var r := TopClients(clients, limit);
      && SortedByTotalDesc(r)
      && (0 <= limit ==> |r| == if limit < |clients| then limit else |clients|)
      && multiset(r) <= multiset(clients)
      && (forall c, i | c in clients && c !in r && 0 <= i < |r| :: c.totalRequests <= r[i].totalRequests)
  {
    var sorted := SortByTotalDesc(clients);
    var r := TopClients(clients, limit);
    var k := |r|;
    assert r == sorted[..k];
    SortIsSorted(clients);
    PrefixSorted(sorted, k);
    PrefixSubMultiset(sorted, k);
    forall c, i | c in clients && c !in r && 0 <= i < k
      ensures c.totalRequests <= r[i].totalRequests
    {
      assert c in multiset(sorted);
      PrefixDominates(sorted, k, c, i);
    }
  }
}

/** `MetricsCollector`: global counters, per-client tallies, a bounded queue
    of response times, a front-pruned queue of request timestamps and a
    bounded history of snapshots. The collector's state is also described as
    a value (`CollectorState`) so that each operation has a specification
    function the class methods are proved against. */
module MetricsCollection {
  import opened Wrappers
  import opened Slices
  import opened MetricRecords
  import opened ClientRanking

  /** `deque(maxlen=1000)` for response times. */
  const ResponseTimeCapacity: nat := 1000
  /** `deque(maxlen=100)` for snapshots. */
  const SnapshotCapacity: nat := 100
  /** The constructor's default `history_window_seconds`. */
  const DefaultHistoryWindowSeconds: int := 300
  /** The default `limit` of `get_top_clients`. */
  const DefaultTopClientsLimit: int := 10
  /** The default `limit` of `get_historical_snapshots`. */
  const DefaultHistoryLimit: int := 50
  /** Requests per second are measured over the last minute. */
  const RateWindowSeconds: real := 60.0
  /** A client is active if it was seen in the last five minutes. */
  const ActiveWindowSeconds: real := 300.0

  datatype CollectorState = CollectorState(
    totalRequests: nat,
    allowedRequests: nat,
    rejectedRequests: nat,
    responseTimes: seq<real>,
    /** `client_metrics.values()` in insertion order; the dict key is each
        entry's `clientId`. */
    clientMetrics: seq<ClientMetrics>,
    requestTimestamps: seq<real>,
    snapshots: seq<MetricSnapshot>,
    startTime: real)

  /** The state right after construction or `reset_metrics`. */
  function Empty(now: real): CollectorState
  {
    CollectorState(0, 0, 0, [], [], [], [], now)
  }

  // ---------------------------------------------------------------------
  // Client lookup: the dict keyed by client id

  /** Where `clientId` sits in the insertion order, or -1 if it is absent. */
  function IndexOf(clients: seq<ClientMetrics>, clientId: string): (i: int)
    ensures -1 <= i < |clients|
    ensures 0 <= i ==> clients[i].clientId == clientId
    ensures 0 <= i ==> forall j | 0 <= j < i :: clients[j].clientId != clientId
    ensures i == -1 ==> forall j | 0 <= j < |clients| :: clients[j].clientId != clientId
  {
    if |clients| == 0 then -1
    else if clients[0].clientId == clientId then 0
    else
      var k := IndexOf(clients[1..], clientId);
      assert forall j | 0 < j < |clients| :: clients[j] == clients[1..][j - 1];
      if k < 0 then -1 else k + 1
  }

  /** `client_metrics.get(client_id)`. */
  function ClientOf(clients: seq<ClientMetrics>, clientId: string): Option<ClientMetrics>
  {
    var i := IndexOf(clients, clientId);
    if i < 0 then None else Some(clients[i])
  }

  /** No client id occurs twice: the sequence really is a dict's values. */
  predicate DistinctIds(clients: seq<ClientMetrics>)
  {
    forall i, j | 0 <= i < j < |clients| :: clients[i].clientId != clients[j].clientId
  }

  /** The per-client step of `record_request`: create the entry on first
      sight, then count the request in it. */
  function RecordClient(clients: seq<ClientMetrics>, clientId: string, allowed: bool, now: real): seq<ClientMetrics>
  {
    var i := IndexOf(clients, clientId);
    if i < 0 then clients + [Counted(NewClientMetrics(clientId, now), allowed, now)]
    else clients[i := Counted(clients[i], allowed, now)]
  }

  // ---------------------------------------------------------------------
  // Timestamps

  /** `_cleanup_old_data`: pop from the front while the oldest timestamp is
      before the cutoff. */
  function DropExpired(s: seq<real>, cutoff: real): seq<real>
  {
    if |s| != 0 && s[0] < cutoff then DropExpired(s[1..], cutoff) else s
  }

  /** Pruning only removes from the front: what remains is a suffix,
      everything popped was before the cutoff, and the new front (if any)
      is not. */
  lemma {:induction false} DropExpiredSpec(s: seq<real>, cutoff: real)
    ensures var r := DropExpired(s, cutoff);
      && |r| <= |s| && r == s[|s| - |r|..]
      && (forall i | 0 <= i < |s| - |r| :: s[i] < cutoff)
      && (|r| != 0 ==> cutoff <= r[0])
    decreases |s|
  {
    if |s| != 0 && s[0] < cutoff {
      DropExpiredSpec(s[1..], cutoff);
      assert forall i | 0 < i < |s| :: s[i] == s[1..][i - 1];
    }
  }

  predicate NonDecreasing(s: seq<real>)
  {
    forall i, j | 0 <= i < j < |s| :: s[i] <= s[j]
  }

  // ---------------------------------------------------------------------
  // Derived figures of a snapshot

  /** How many entries are strictly after `cutoff` (the length of the list
      comprehension `[t for t in s if t > cutoff]`). */
  function CountAfter(s: seq<real>, cutoff: real): (n: nat)
    ensures n <= |s|
  {
    if |s| == 0 then 0
    else (if cutoff < s[0] then 1 else 0) + CountAfter(s[1..], cutoff)
  }

  function Sum(s: seq<real>): real
  {
    if |s| == 0 then 0.0 else s[0] + Sum(s[1..])
  }

  /** `sum(s) / len(s) if s else 0.0`. */
  function Average(s: seq<real>): real
  {
    if |s| == 0 then 0.0 else Sum(s) / |s| as real
  }

  function LastRequestTimes(clients: seq<ClientMetrics>): (r: seq<real>)
    ensures |r| == |clients|
    ensures forall i | 0 <= i < |clients| :: r[i] == clients[i].lastRequestTime
  {
    if |clients| == 0 then []
    else
      assert forall i | 0 < i < |clients| :: clients[i] == clients[1..][i - 1];
      [clients[0].lastRequestTime] + LastRequestTimes(clients[1..])
  }

  /** Clients whose last request is within the active window of `now`. */
  function ActiveClients(clients: seq<ClientMetrics>, now: real): nat
  {
    CountAfter(LastRequestTimes(clients), now - ActiveWindowSeconds)
  }

  /** The snapshot `get_current_metrics` takes at `now`. */
  function Snapshot(st: CollectorState, now: real): MetricSnapshot
  {
    MetricSnapshot(
      now,
      st.totalRequests,
      st.allowedRequests,
      st.rejectedRequests,
      Average(st.responseTimes),
      ActiveClients(st.clientMetrics, now),
      CountAfter(st.requestTimestamps, now - RateWindowSeconds) as real / RateWindowSeconds,
      RejectionRate(st.rejectedRequests, st.totalRequests))
  }

  // ---------------------------------------------------------------------
  // The operations on the state

  /** The global-counter step of `record_request`. */
  function CountOutcome(st: CollectorState, allowed: bool): CollectorState
  {
    if allowed then st.(totalRequests := st.totalRequests + 1, allowedRequests := st.allowedRequests + 1)
    else st.(totalRequests := st.totalRequests + 1, rejectedRequests := st.rejectedRequests + 1)
  }

  /** The queue step of `record_request`: the response time goes into the
      bounded queue, the clock reading onto the timestamps. */
  function AppendSamples(st: CollectorState, responseTimeMs: real, now: real): CollectorState
  {
    st.(responseTimes := BoundedAppend(st.responseTimes, responseTimeMs, ResponseTimeCapacity),
        requestTimestamps := st.requestTimestamps + [now])
  }

  /** The client-dict step of `record_request`. */
  function CountClient(st: CollectorState, clientId: string, allowed: bool, now: real): CollectorState
  {
    st.(clientMetrics := RecordClient(st.clientMetrics, clientId, allowed, now))
  }

  /** `_cleanup_old_data` with the given cutoff. */
  function PruneTimestamps(st: CollectorState, cutoff: real): CollectorState
  {
    st.(requestTimestamps := DropExpired(st.requestTimestamps, cutoff))
  }

  /** `record_request` at `now`: the four steps in the order the source
      takes them, the last being `_cleanup_old_data(now)`. */
  function AfterRecord(st: CollectorState, historyWindowSeconds: int, clientId: string,
                       allowed: bool, responseTimeMs: real, now: real): CollectorState
  {
    PruneTimestamps(
      CountClient(AppendSamples(CountOutcome(st, allowed), responseTimeMs, now), clientId, allowed, now),
      now - historyWindowSeconds as real)
  }

  /** `get_current_metrics` at `now`: the snapshot is appended to the
      bounded history. */
  function AfterSnapshot(st: CollectorState, now: real): CollectorState
  {
    st.(snapshots := BoundedAppend(st.snapshots, Snapshot(st, now), SnapshotCapacity))
  }

  /** `get_historical_snapshots(limit)`: `list(snapshots)[-limit:]`. */
  function HistoricalSnapshots(snapshots: seq<MetricSnapshot>, limit: int): seq<MetricSnapshot>
  {
    DropPrefix(snapshots, -limit)
  }

  // ---------------------------------------------------------------------
  // Invariant

  function SumTotals(clients: seq<ClientMetrics>): nat
  {
    if |clients| == 0 then 0 else clients[0].totalRequests + SumTotals(clients[1..])
  }

  /** What every reachable state satisfies: the global total splits into
      allowed and rejected, the bounded queues respect their bounds, the
      client entries have distinct ids, each tally is consistent, and the
      client totals add up to the global total. */
  predicate WellFormed(st: CollectorState)
  {
    && st.totalRequests == st.allowedRequests + st.rejectedRequests
    && |st.responseTimes| <= ResponseTimeCapacity
    && |st.snapshots| <= SnapshotCapacity
    && DistinctIds(st.clientMetrics)
    && (forall i | 0 <= i < |st.clientMetrics| :: Consistent(st.clientMetrics[i]))
    && SumTotals(st.clientMetrics) == st.totalRequests
  }

  // ---------------------------------------------------------------------
  // Lemmas

  lemma EmptyWellFormed(now: real)
    ensures WellFormed(Empty(now))
    ensures Empty(now).totalRequests == 0 && Empty(now).clientMetrics == []
  {
  }

  lemma {:induction false} SumTotalsAppend(s: seq<ClientMetrics>, c: ClientMetrics)
    ensures SumTotals(s + [c]) == SumTotals(s) + c.totalRequests
    decreases |s|
  {
    if |s| == 0 {
      AppendToEmpty(s, c);
    } else {
      AppendTail(s, c);
      SumTotalsAppend(s[1..], c);
    }
  }

  lemma {:induction false} SumTotalsUpdate(s: seq<ClientMetrics>, i: nat, c: ClientMetrics)
    requires i < |s|
    ensures SumTotals(s[i := c]) + s[i].totalRequests == SumTotals(s) + c.totalRequests
    decreases |s|
  {
    if i == 0 {
      assert s[i := c][1..] == s[1..];
    } else {
      assert s[i := c][1..] == s[1..][i - 1 := c];
      SumTotalsUpdate(s[1..], i - 1, c);
    }
  }

  /** `IndexOf` looks only at the ids. */
  lemma IndexOfSameIds(a: seq<ClientMetrics>, b: seq<ClientMetrics>, clientId: string)
    requires |a| == |b|
    requires forall j | 0 <= j < |a| :: a[j].clientId == b[j].clientId
    ensures IndexOf(a, clientId) == IndexOf(b, clientId)
  {
    assert forall j | 0 <= j < |a| :: a[j].clientId == b[j].clientId;
  }

  /** Appending an entry does not move the ones already there. */
  lemma IndexOfAppend(s: seq<ClientMetrics>, c: ClientMetrics, clientId: string)
    ensures IndexOf(s + [c], clientId) ==
      if 0 <= IndexOf(s, clientId) then IndexOf(s, clientId)
      else if c.clientId == clientId then |s| else -1
  {
    var t := s + [c];
    assert forall j | 0 <= j < |s| :: t[j] == s[j];
    assert t[|s|] == c;
  }

  /** `record_request`'s effect on the client dict: the requesting client's
      entry is created on first sight (with `first_request_time = now`) and
      counts the request; every other client's entry is untouched; existing
      entries keep their place and a new one goes last. */
  lemma RecordClientEffect(clients: seq<ClientMetrics>, clientId: string, allowed: bool, now: real, other: string)
    requires other != clientId
    ensures var r := RecordClient(clients, clientId, allowed, now);
      && ClientOf(r, clientId) == Some(Counted(
           match ClientOf(clients, clientId)
           case Some(c) => c
           case None => NewClientMetrics(clientId, now), allowed, now))
      && ClientOf(r, other) == ClientOf(clients, other)
      && |r| == |clients| + (if ClientOf(clients, clientId).None? then 1 else 0)
      && forall j | 0 <= j < |clients| :: r[j].clientId == clients[j].clientId
  {
    var i := IndexOf(clients, clientId);
    var r := RecordClient(clients, clientId, allowed, now);
    if i < 0 {
      var c := Counted(NewClientMetrics(clientId, now), allowed, now);
      IndexOfAppend(clients, c, clientId);
      IndexOfAppend(clients, c, other);
      assert r[|clients|] == c;
    } else {
      var c := Counted(clients[i], allowed, now);
      assert forall j | 0 <= j < |clients| :: r[j].clientId == clients[j].clientId;
      IndexOfSameIds(r, clients, clientId);
      IndexOfSameIds(r, clients, other);
      var k := IndexOf(clients, other);
      if 0 <= k {
        assert k != i;
      }
    }
  }

  /** The client step keeps the ids distinct, each tally consistent, and
      raises the sum of the client totals by exactly one. */
  lemma RecordClientKeepsInvariant(clients: seq<ClientMetrics>, clientId: string, allowed: bool, now: real)
    requires DistinctIds(clients)
    requires forall i | 0 <= i < |clients| :: Consistent(clients[i])
    ensures var r := RecordClient(clients, clientId, allowed, now);
      && DistinctIds(r)
      && (forall i | 0 <= i < |r| :: Consistent(r[i]))
      && SumTotals(r) == SumTotals(clients) + 1
  {
    assert forall i, j | 0 <= i < j < |clients| :: clients[i].clientId != clients[j].clientId;
    assert forall i | 0 <= i < |clients| :: Consistent(clients[i]);
    var i := IndexOf(clients, clientId);
    var r := RecordClient(clients, clientId, allowed, now);
    if i < 0 {
      var c := Counted(NewClientMetrics(clientId, now), allowed, now);
      SumTotalsAppend(clients, c);
      assert forall j | 0 <= j < |clients| :: r[j] == clients[j];
      assert r[|clients|] == c;
    } else {
      var c := Counted(clients[i], allowed, now);
      SumTotalsUpdate(clients, i, c);
      assert forall j | 0 <= j < |clients| :: r[j].clientId == clients[j].clientId;
    }
  }

  /** `record_request` raises the total by one and exactly one of the two
      outcome counters by one, according to `allowed`. */
  lemma RecordCounters(st: CollectorState, historyWindowSeconds: int, clientId: string,
                       allowed: bool, responseTimeMs: real, now: real)
    ensures var nx := AfterRecord(st, historyWindowSeconds, clientId, allowed, responseTimeMs, now);
      && nx.totalRequests == st.totalRequests + 1
      && nx.allowedRequests + nx.rejectedRequests == st.allowedRequests + st.rejectedRequests + 1
      && (allowed <==> nx.allowedRequests == st.allowedRequests + 1)
      && (!allowed <==> nx.rejectedRequests == st.rejectedRequests + 1)
      && nx.snapshots == st.snapshots && nx.startTime == st.startTime
  {
  }

  /** `record_request` keeps the invariant. */
  lemma RecordKeepsWellFormed(st: CollectorState, historyWindowSeconds: int, clientId: string,
                              allowed: bool, responseTimeMs: real, now: real)
    requires WellFormed(st)
    ensures WellFormed(AfterRecord(st, historyWindowSeconds, clientId, allowed, responseTimeMs, now))
  {
    RecordClientKeepsInvariant(st.clientMetrics, clientId, allowed, now);
  }

  /** `get_current_metrics` keeps the invariant. */
  lemma SnapshotKeepsWellFormed(st: CollectorState, now: real)
    requires WellFormed(st)
    ensures WellFormed(AfterSnapshot(st, now))
  {
  }

  /** `response_times` holds the most recent at most 1000 values in arrival
      order: appending to the bounded queue is the same as keeping the last
      1000 of the full history. */
  lemma BoundedAppendKeepsLast<T>(s: seq<T>, x: T, cap: nat)
    requires 0 < cap
    ensures BoundedAppend(KeepLast(s, cap), x, cap) == KeepLast(s + [x], cap)
  {
    var k := KeepLast(s, cap);
    if |s| < cap {
      assert k == s;
    } else {
      assert k == s[|s| - cap..];
      assert k[1..] + [x] == (s + [x])[|s + [x]| - cap..];
    }
  }

  /** Appending a reading no earlier than any stored one keeps the
      timestamps ordered and bounded by it. */
  lemma AppendKeepsOrder(s: seq<real>, now: real)
    requires NonDecreasing(s)
    requires forall i | 0 <= i < |s| :: s[i] <= now
    ensures NonDecreasing(s + [now])
    ensures forall i | 0 <= i < |s + [now]| :: (s + [now])[i] <= now
  {
    assert forall i | 0 <= i < |s| :: s[i] <= now;
    assert forall i, j | 0 <= i < j < |s| :: s[i] <= s[j];
    var t := s + [now];
    assert forall i | 0 <= i < |s| :: t[i] == s[i];
    forall i, j | 0 <= i < j < |t|
      ensures t[i] <= t[j]
    {
      if j < |s| {
        assert t[i] == s[i] && t[j] == s[j];
      }
    }
  }

  /** Pruning ordered timestamps keeps them ordered, keeps the newest one
      when it is not expired, and leaves nothing before the cutoff. */
  lemma DropExpiredOrdered(s: seq<real>, cutoff: real)
    requires NonDecreasing(s)
    requires |s| != 0 && cutoff <= s[|s| - 1]
    ensures var r := DropExpired(s, cutoff);
      && NonDecreasing(r)
      && |r| != 0 && r[|r| - 1] == s[|s| - 1]
      && (forall i | 0 <= i < |r| :: cutoff <= r[i])
  {
    var r := DropExpired(s, cutoff);
    DropExpiredSpec(s, cutoff);
    var d := |s| - |r|;
    assert forall i | 0 <= i < d :: s[i] < cutoff;
    assert d < |s|;
    assert r == s[d..];
    assert forall i, j | 0 <= i < j < |s| :: s[i] <= s[j];
    forall i | 0 <= i < |r|
      ensures cutoff <= r[i]
    {
      assert r[i] == s[d + i] && r[0] == s[d];
    }
    forall i, j | 0 <= i < j < |r|
      ensures r[i] <= r[j]
    {
      assert r[i] == s[d + i] && r[j] == s[d + j];
    }
  }

  /** Pruning never adds a timestamp later than the ones it was given. */
  lemma DropExpiredBounded(s: seq<real>, cutoff: real, bound: real)
    requires forall i | 0 <= i < |s| :: s[i] <= bound
    ensures var r := DropExpired(s, cutoff); forall i | 0 <= i < |r| :: r[i] <= bound
  {
    assert forall i | 0 <= i < |s| :: s[i] <= bound;
    var r := DropExpired(s, cutoff);
    DropExpiredSpec(s, cutoff);
    forall i | 0 <= i < |r|
      ensures r[i] <= bound
    {
      assert r[i] == s[|s| - |r| + i];
    }
  }

  /** With a clock that never runs backwards and a non-negative history
      window, `record_request` leaves the timestamps ordered, ending with
      `now`, and none of them is older than `now - history_window_seconds`. */
  lemma RecordPrunesTimestamps(st: CollectorState, historyWindowSeconds: int, clientId: string,
                               allowed: bool, responseTimeMs: real, now: real)
    requires 0 <= historyWindowSeconds
    requires NonDecreasing(st.requestTimestamps)
    requires forall i | 0 <= i < |st.requestTimestamps| :: st.requestTimestamps[i] <= now
    ensures var ts := AfterRecord(st, historyWindowSeconds, clientId, allowed, responseTimeMs, now).requestTimestamps;
      && NonDecreasing(ts)
      && |ts| != 0 && ts[|ts| - 1] == now
      && (forall i | 0 <= i < |ts| :: now - historyWindowSeconds as real <= ts[i] <= now)
  {
    var cutoff := now - historyWindowSeconds as real;
    var s := st.requestTimestamps + [now];
    var mid := CountClient(AppendSamples(CountOutcome(st, allowed), responseTimeMs, now), clientId, allowed, now);
    assert mid.requestTimestamps == s;
    assert AfterRecord(st, historyWindowSeconds, clientId, allowed, responseTimeMs, now).requestTimestamps
      == DropExpired(s, cutoff);
    AppendKeepsOrder(st.requestTimestamps, now);
    DropExpiredOrdered(s, cutoff);
    DropExpiredBounded(s, cutoff, now);
  }

  /** `get_current_metrics` copies the three counters, measures
      `requests_per_second` over the timestamps of the last minute, counts
      the clients seen in the last five minutes, and gives the rejected
      percentage (0 when nothing was counted); the history grows by this
      snapshot, dropping the oldest once 100 are kept. */
  lemma SnapshotSpec(st: CollectorState, now: real)
    ensures var snap := Snapshot(st, now);
      && snap.timestamp == now
      && snap.totalRequests == st.totalRequests
      && snap.allowedRequests == st.allowedRequests
      && snap.rejectedRequests == st.rejectedRequests
      && snap.avgResponseTimeMs == Average(st.responseTimes)
      && snap.requestsPerSecond * 60.0
         == |set i | 0 <= i < |st.requestTimestamps| && now - 60.0 < st.requestTimestamps[i]| as real
      && snap.activeClients
         == |set i | 0 <= i < |st.clientMetrics| && now - 300.0 < st.clientMetrics[i].lastRequestTime|
      && snap.activeClients <= |st.clientMetrics|
      && (0 < st.totalRequests ==> snap.rejectionRate * st.totalRequests as real == st.rejectedRequests as real * 100.0)
      && (st.totalRequests == 0 ==> snap.rejectionRate == 0.0)
    ensures var nx := AfterSnapshot(st, now);
      && nx == st.(snapshots := nx.snapshots)
      && |nx.snapshots| != 0 && nx.snapshots[|nx.snapshots| - 1] == Snapshot(st, now)
      && (|st.snapshots| < SnapshotCapacity ==> nx.snapshots == st.snapshots + [Snapshot(st, now)])
      && (|st.snapshots| == SnapshotCapacity ==> nx.snapshots == st.snapshots[1..] + [Snapshot(st, now)])
  {
    CountAfterIndices(st.requestTimestamps, now - RateWindowSeconds);
    ActiveClientsSpec(st.clientMetrics, now);
  }

  /** The snapshot's average response time is 0 when no response time is
      kept, and otherwise lies between the fastest and slowest kept. */
  lemma SnapshotAverageBounds(st: CollectorState, now: real, lo: real, hi: real)
    requires forall i | 0 <= i < |st.responseTimes| :: lo <= st.responseTimes[i] <= hi
    ensures |st.responseTimes| == 0 ==> Snapshot(st, now).avgResponseTimeMs == 0.0
    ensures |st.responseTimes| != 0 ==> lo <= Snapshot(st, now).avgResponseTimeMs <= hi
  {
    AverageBounds(st.responseTimes, lo, hi);
  }

  /** Counting from the front equals counting the last entry on its own. */
  lemma {:induction false} CountAfterLast(s: seq<real>, cutoff: real)
    requires |s| != 0
    ensures CountAfter(s, cutoff) == CountAfter(s[..|s| - 1], cutoff) + (if cutoff < s[|s| - 1] then 1 else 0)
    decreases |s|
  {
    if 1 < |s| {
      CountAfterLast(s[1..], cutoff);
      assert s[1..][..|s| - 2] == s[..|s| - 1][1..];
    }
  }

  /** `CountAfter` is the number of positions whose entry is strictly after
      the cutoff. */
  lemma {:induction false} CountAfterIndices(s: seq<real>, cutoff: real)
    ensures CountAfter(s, cutoff) == |set i | 0 <= i < |s| && cutoff < s[i]|
    decreases |s|
  {
    if |s| != 0 {
      var n := |s| - 1;
      CountAfterIndices(s[..n], cutoff);
      CountAfterLast(s, cutoff);
      var front := set i | 0 <= i < |s[..n]| && cutoff < s[..n][i];
      var all := set i | 0 <= i < |s| && cutoff < s[i];
      if cutoff < s[n] {
        assert all == front + {n};
      } else {
        assert all == front;
      }
    }
  }

  /** The active clients are exactly those whose last request is within
      the last 300 seconds of `now`. */
  lemma ActiveClientsSpec(clients: seq<ClientMetrics>, now: real)
    ensures ActiveClients(clients, now)
         == |set i | 0 <= i < |clients| && now - 300.0 < clients[i].lastRequestTime|
  {
    var times := LastRequestTimes(clients);
    CountAfterIndices(times, now - ActiveWindowSeconds);
    assert (set i | 0 <= i < |times| && now - ActiveWindowSeconds < times[i])
        == (set i | 0 <= i < |clients| && now - 300.0 < clients[i].lastRequestTime);
  }

  /** `CountAfter` counts exactly the entries after the cutoff: all of them
      when every entry is, none when none is. */
  lemma {:induction false} CountAfterBounds(s: seq<real>, cutoff: real)
    ensures (forall i | 0 <= i < |s| :: cutoff < s[i]) ==> CountAfter(s, cutoff) == |s|
    ensures (forall i | 0 <= i < |s| :: s[i] <= cutoff) ==> CountAfter(s, cutoff) == 0
  {
    if |s| != 0 {
      CountAfterBounds(s[1..], cutoff);
      assert forall i | 0 < i < |s| :: s[i] == s[1..][i - 1];
    }
  }

  /** A later cutoff never counts more. */
  lemma {:induction false} CountAfterAntitone(s: seq<real>, lo: real, hi: real)
    requires lo <= hi
    ensures CountAfter(s, hi) <= CountAfter(s, lo)
  {
    if |s| != 0 {
      CountAfterAntitone(s[1..], lo, hi);
    }
  }

  lemma TailWithin(s: seq<real>, lo: real, hi: real)
    requires |s| != 0
    requires forall i | 0 <= i < |s| :: lo <= s[i] <= hi
    ensures lo <= s[0] <= hi
    ensures forall i | 0 <= i < |s[1..]| :: lo <= s[1..][i] <= hi
  {
    assert forall i | 0 <= i < |s| :: lo <= s[i] <= hi;
    forall i | 0 <= i < |s[1..]|
      ensures lo <= s[1..][i] <= hi
    {
      assert s[1..][i] == s[i + 1];
    }
  }

  lemma {:induction false} SumBounds(s: seq<real>, lo: real, hi: real)
    requires forall i | 0 <= i < |s| :: lo <= s[i] <= hi
    ensures |s| as real * lo <= Sum(s) <= |s| as real * hi
  {
    if |s| != 0 {
      TailWithin(s, lo, hi);
      SumBounds(s[1..], lo, hi);
    }
  }

  /** Dividing both sides by a positive count keeps the order. */
  lemma ScaleBack(a: real, b: real, n: real)
    requires 0.0 < n && a * n <= b * n
    ensures a <= b
  {
  }

  /** The average response time lies between the fastest and the slowest
      response kept, and is 0.0 when none is kept. */
  lemma AverageBounds(s: seq<real>, lo: real, hi: real)
    requires forall i | 0 <= i < |s| :: lo <= s[i] <= hi
    ensures |s| == 0 ==> Average(s) == 0.0
    ensures |s| != 0 ==> lo <= Average(s) <= hi
  {
    if |s| != 0 {
      SumBounds(s, lo, hi);
      var n := |s| as real;
      var avg := Average(s);
      assert avg * n == Sum(s);
      ScaleBack(lo, avg, n);
      ScaleBack(avg, hi, n);
    }
  }

  /** `get_historical_snapshots(limit)` returns the newest `limit`
      snapshots, oldest first; `limit == 0` (a `[-0:]` slice) returns the
      whole history. */
  lemma HistoricalSnapshotsSpec(snapshots: seq<MetricSnapshot>, limit: int)
    ensures var r := HistoricalSnapshots(snapshots, limit);
      && r == snapshots[|snapshots| - |r|..]
      && (0 < limit ==> |r| == if limit < |snapshots| then limit else |snapshots|)
      && (limit == 0 ==> r == snapshots)
  {
  }

  // ---------------------------------------------------------------------
  // The collector object

  class MetricsCollector {
    const historyWindowSeconds: int
    var totalRequests: nat
    var allowedRequests: nat
    var rejectedRequests: nat
    var responseTimes: seq<real>
    var clientMetrics: seq<ClientMetrics>
    var requestTimestamps: seq<real>
    var snapshots: seq<MetricSnapshot>
    var startTime: real

    /** The collector's fields as one value. */
    function State(): CollectorState
      reads this
    {
      CollectorState(totalRequests, allowedRequests, rejectedRequests, responseTimes,
                     clientMetrics, requestTimestamps, snapshots, startTime)
    }

    predicate Valid()
      reads this
    {
      WellFormed(State())
    }

    /** `MetricsCollector(history_window_seconds=300)`, started at `now`. */
    constructor (now: real, historyWindowSeconds: int := DefaultHistoryWindowSeconds)
      ensures this.historyWindowSeconds == historyWindowSeconds
      ensures State() == Empty(now) && Valid()
    {
      this.historyWindowSeconds := historyWindowSeconds;
      totalRequests, allowedRequests, rejectedRequests := 0, 0, 0;
      responseTimes, clientMetrics, requestTimestamps, snapshots := [], [], [], [];
      startTime := now;
      new;
      EmptyWellFormed(now);
    }

    /** `record_request(client_id, allowed, response_time_ms)` with the
        clock reading `currentTime`. */
    method RecordRequest(clientId: string, allowed: bool, responseTimeMs: real, currentTime: real)
      modifies this
      ensures State() == AfterRecord(old(State()), historyWindowSeconds, clientId, allowed, responseTimeMs, currentTime)
      ensures old(Valid()) ==> Valid()
    {
      ghost var before := State();
      CountGlobal(allowed);
      AppendRequestSamples(responseTimeMs, currentTime);
      UpdateClientMetrics(clientId, allowed, currentTime);
      CleanupOldData(currentTime);
      if WellFormed(before) {
        RecordKeepsWellFormed(before, historyWindowSeconds, clientId, allowed, responseTimeMs, currentTime);
      }
    }

    /** Lines 73-77 of `record_request`: the global counters. */
    method CountGlobal(allowed: bool)
      modifies this
      ensures State() == CountOutcome(old(State()), allowed)
    {
      totalRequests := totalRequests + 1;
      if allowed {
        allowedRequests := allowedRequests + 1;
      } else {
        rejectedRequests := rejectedRequests + 1;
      }
    }

    /** Lines 79-83 of `record_request`: the two queue appends. */
    method AppendRequestSamples(responseTimeMs: real, currentTime: real)
      modifies this
      ensures State() == AppendSamples(old(State()), responseTimeMs, currentTime)
    {
      responseTimes := BoundedAppend(responseTimes, responseTimeMs, ResponseTimeCapacity);
      requestTimestamps := requestTimestamps + [currentTime];
    }

    /** Lines 85-98 of `record_request`: get-or-create the client's entry,
        then count the request in it. */
    method UpdateClientMetrics(clientId: string, allowed: bool, currentTime: real)
      modifies this
      ensures State() == CountClient(old(State()), clientId, allowed, currentTime)
    {
      var i := IndexOf(clientMetrics, clientId);
      if i < 0 {
        clientMetrics := clientMetrics + [NewClientMetrics(clientId, currentTime)];
        i := |clientMetrics| - 1;
      }
      clientMetrics := clientMetrics[i := Counted(clientMetrics[i], allowed, currentTime)];
    }

    /** `_cleanup_old_data(current_time)`: pops expired timestamps from the
        front; nothing else changes. */
    method CleanupOldData(currentTime: real)
      modifies this
      ensures State() == PruneTimestamps(old(State()), currentTime - historyWindowSeconds as real)
    {
      var cutoff := currentTime - historyWindowSeconds as real;
      while |requestTimestamps| != 0 && requestTimestamps[0] < cutoff
        invariant DropExpired(requestTimestamps, cutoff) == DropExpired(old(requestTimestamps), cutoff)
        invariant State() == old(State()).(requestTimestamps := requestTimestamps)
        decreases |requestTimestamps|
      {
        requestTimestamps := requestTimestamps[1..];
      }
    }

    /** `get_current_metrics()` with the clock reading `currentTime`. */
    method GetCurrentMetrics(currentTime: real) returns (snapshot: MetricSnapshot)
      modifies this
      ensures snapshot == Snapshot(old(State()), currentTime)
      ensures State() == AfterSnapshot(old(State()), currentTime)
      ensures old(Valid()) ==> Valid()
    {
      snapshot := Snapshot(State(), currentTime);
      snapshots := BoundedAppend(snapshots, snapshot, SnapshotCapacity);
    }

    /** `get_client_metrics()`: every client's tally, in first-seen order. */
    method GetClientMetrics() returns (clients: seq<ClientMetrics>)
      ensures clients == clientMetrics
      ensures Valid() ==> forall i | 0 <= i < |clients| :: Consistent(clients[i])
    {
      clients := clientMetrics;
    }

    /** `get_top_clients(limit=10)`. */
    method GetTopClients(limit: int := DefaultTopClientsLimit) returns (top: seq<ClientMetrics>)
      ensures top == TopClients(clientMetrics, limit)
      ensures SortedByTotalDesc(top) && multiset(top) <= multiset(clientMetrics)
    {
      TopClientsSpec(clientMetrics, limit);
      top := TopClients(clientMetrics, limit);
    }

    /** `get_historical_snapshots(limit=50)`. */
    method GetHistoricalSnapshots(limit: int := DefaultHistoryLimit) returns (history: seq<MetricSnapshot>)
      ensures history == HistoricalSnapshots(snapshots, limit)
      ensures history == snapshots[|snapshots| - |history|..]
    {
      HistoricalSnapshotsSpec(snapshots, limit);
      history := HistoricalSnapshots(snapshots, limit);
    }

    /** `get_uptime_seconds()` with the clock reading `now`: the time since
        construction or the last reset, the only two places `startTime` is
        set. */
    method GetUptimeSeconds(now: real) returns (uptime: real)
      ensures startTime + uptime == now
      ensures startTime <= now ==> 0.0 <= uptime
    {
      uptime := now - startTime;
    }

    /** `reset_metrics()` with the clock reading `now`: every counter, queue,
        tally and the history are emptied and the start time restarts. */
    method ResetMetrics(now: real)
      modifies this
      ensures State() == Empty(now) && Valid()
    {
      totalRequests, allowedRequests, rejectedRequests := 0, 0, 0;
      responseTimes := [];
      clientMetrics := [];
      requestTimestamps := [];
      snapshots := [];
      startTime := now;
      EmptyWellFormed(now);
    }
  }
}

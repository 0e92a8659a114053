# Rate limiter core, modelled in Dafny

This project models the in-process core of the `rate-limiter` service:

- **The sliding-window admission engine** (`SlidingWindowAlgorithm`).
  - Every client key owns a table that maps a half-second bucket index to a request count.
  - A check may prune stale buckets once the table is over-full.
  - It then sums the counts inside the window. It either counts the request in the current bucket and reports `remaining`, or rejects the request with `remaining = 0` and `retry_after = 1`.
- **The algorithm factory.**
- **The service facade** (`RateLimiterService`).
  - It derives the key `client_id:resource` and delegates the decision to the engine.
  - It records the decision in the metrics collector.
  - It swaps configurations, and rebuilds the engine only when the algorithm identifier changes.
- **The metrics collector** (`MetricsCollector`).
  - Global counters and per-client tallies.
  - A response-time queue bounded at 1000.
  - A timestamp queue pruned from the front to the history window.
  - A snapshot history bounded at 100, top clients by total, and reset.
- **The response models** built from the collector's records: the client rejection rate, the snapshot copy, and the three-level health status.

Objects whose fields the source updates in place are Dafny classes: the engine, the collector and the service. Their methods are proved against specification functions on values:

- `Decide` gives one admission decision on one key's table.
- `AfterRecord`, `AfterSnapshot` and `Empty` are the collector's state after recording, after a snapshot and after a reset.

The properties the source promises are proved as lemmas about those functions: the allow rule, the quota invariant, the frame conditions, the counter and client-tally invariant, the timestamp cutoff, stable ordering of top clients, and the health thresholds.

Clock readings are parameters, and times and rates are exact reals:

- The engine takes the reading `currentTime` and computes the bucket as Python does: `int(currentTime / 0.5)`, truncating toward zero.
- The collector's operations take the reading `now` or `currentTime`.
- `check_rate_limit` takes three values: the engine's reading, the measured response time and the collector's reading.

Modules, one per file:

| file | module | models |
|---|---|---|
| wrappers.dfy | `Wrappers` | `Option`, `Result`, `Outcome` |
| models.dfy | `Models` | `ConfigResponse`, `RateLimitResponse`, `AlgorithmType` |
| slices.dfy | `Slices` | Python's `s[:n]`, `s[n:]` and `deque(maxlen=…)` |
| bucket_table.dfy | `BucketTable` | a key's bucket table and its in-window sum |
| sliding_window.dfy | `SlidingWindow` | `SlidingWindowAlgorithm` |
| algorithm_factory.dfy | `AlgorithmFactory` | `AlgorithmFactory.create_algorithm` |
| metric_records.dfy | `MetricRecords` | `MetricSnapshot`, `ClientMetrics`, the rejection percentage |
| client_ranking.dfy | `ClientRanking` | the stable descending sort of `get_top_clients` |
| metrics_collector.dfy | `MetricsCollection` | `MetricsCollector` |
| metrics_response.dfy | `MetricsResponse` | the response models of `metrics_response.py` |
| rate_limiter_service.dfy | `Service` | `RateLimiterService` |

## Model

| member | source | states |
|---|---|---|
| Slices.TakePrefix | src/metrics/metrics_collector.py:163-167 | `s[:n]` is a prefix of `s` of length `min(n, len(s))`, or `len(s) + n` (at least 0) for a negative `n` |
| Slices.DropPrefix | src/metrics/metrics_collector.py:172 | `s[n:]` is a suffix of `s`. For a negative `n` it holds the last `-n` elements, or all of them when there are fewer |
| Slices.KeepLast | src/metrics/metrics_collector.py:53 | what a `deque(maxlen=cap)` keeps: the last `cap` elements, as a suffix |
| Slices.BoundedAppend | src/metrics/metrics_collector.py:80 | `deque.append` on a bounded deque: the new element is last, the length stays within `cap`, and the oldest element is dropped only when the deque was full |
| BucketTable.InWindow | src/algorithms/sliding_window_algorithm.py:59 | the sum of the counts of the buckets strictly after `min_bucket`, taking the buckets out one at a time in any order. `InWindowRemove` states that the order does not matter |
| BucketTable.Prune | src/algorithms/sliding_window_algorithm.py:54 | the dict comprehension: the buckets strictly after `min_bucket`, each with its count. `PruneKeepsInWindow` states that the in-window sum is unchanged |
| BucketTable.Increment | src/algorithms/sliding_window_algorithm.py:63-66 | `buckets[c] += 1`, or `buckets[c] = 1` for an absent bucket. `IncrementInWindow` states its effect on the sum |
| BucketTable.InWindowRemove | src/algorithms/sliding_window_algorithm.py:59 | the in-window sum does not depend on the order in which buckets are visited |
| BucketTable.PruneKeepsInWindow | src/algorithms/sliding_window_algorithm.py:52-59 | the dict comprehension that keeps buckets after `min_bucket` never changes the in-window sum |
| BucketTable.InWindowOnlyRecent | src/algorithms/sliding_window_algorithm.py:59 | buckets at or before `min_bucket` never count toward the sum |
| BucketTable.IncrementInWindow | src/algorithms/sliding_window_algorithm.py:63-66 | counting a request in a bucket inside the window raises the sum by exactly one |
| BucketTable.InWindowAntitone | src/algorithms/sliding_window_algorithm.py:46 | moving `min_bucket` forward never raises the sum |
| BucketTable.InWindowAllExpired | src/algorithms/sliding_window_algorithm.py:59 | a table whose buckets are all at or before `min_bucket` sums to 0 |
| BucketTable.SingleBucketInWindow | src/algorithms/sliding_window_algorithm.py:59 | a one-bucket table sums to that bucket's count when the bucket is inside the window, and to 0 otherwise |
| SlidingWindow.Truncate | src/algorithms/sliding_window_algorithm.py:44-45 | Python's `int()` on a number truncates toward zero |
| SlidingWindow.BucketIndex | src/algorithms/sliding_window_algorithm.py:44 | a reading `t >= 0` falls in the bucket `i` with `0.5 * i <= t < 0.5 * (i + 1)`. A negative reading falls in the bucket `i` with `0.5 * (i - 1) < t <= 0.5 * i` |
| SlidingWindow.WindowBuckets | src/algorithms/sliding_window_algorithm.py:45 | `int(window_seconds / 0.5)` is exactly `2 * window_seconds` |
| SlidingWindow.RetryAfter | src/algorithms/sliding_window_algorithm.py:71 | `max(1, int(0.5 * 2))` is 1 |
| SlidingWindow.StoreAfterGetOrInsert | src/algorithms/sliding_window_algorithm.py:23-31 | get-or-insert followed by writing the key's table back is one update of the original dict |
| SlidingWindow.Kept | src/algorithms/sliding_window_algorithm.py:52-56 | the table after the conditional pruning pass, which runs only when more than `window_buckets + 3` buckets are held. `KeptKeepsInWindow` states that the in-window sum is unchanged |
| SlidingWindow.Decide | src/algorithms/sliding_window_algorithm.py:46-72 | one decision on one key's table: the response and the new table. `AllowedIffUnderQuota`, `ResponseShape`, `DecideFrame` and `DecideKeepsQuota` state what it does |
| SlidingWindow.KeptKeepsInWindow | src/algorithms/sliding_window_algorithm.py:52-56 | the conditional pruning pass (only when more than `window_buckets + 3` buckets are held) never changes the in-window sum |
| SlidingWindow.ResponseShape | src/algorithms/sliding_window_algorithm.py:67-72 | every response has `remaining >= 0`. An allowed one has `remaining < requests_per_window` and no `retry_after`. A rejected one has `remaining = 0` and `retry_after = 1` |
| SlidingWindow.AllowedIffUnderQuota | src/algorithms/sliding_window_algorithm.py:46-67 | a request is allowed iff the counts in buckets after `current_bucket - window_buckets` sum to less than the quota. Then `remaining = quota - sum - 1` |
| SlidingWindow.DecideFrame | src/algorithms/sliding_window_algorithm.py:52-66 | only the current bucket changes its count, and only on an allow, rising by exactly 1 (or starting at 1). A bucket disappears only if it was stale and the table was over-full |
| SlidingWindow.DecideKeepsQuota | src/algorithms/sliding_window_algorithm.py:61-67 | quota invariant: under a fixed window (of any size) and a non-decreasing bucket index, a key's in-window sum stays at or below `requests_per_window` |
| SlidingWindow.ExpiredWindowAllows | src/algorithms/sliding_window_algorithm.py:46-68 | once every stored bucket is at or before `min_bucket`, the next request is allowed with `remaining = quota - 1`, for any quota of at least 1 |
| SlidingWindow.SameBucketStep | src/algorithms/sliding_window_algorithm.py:61-72 | back-to-back requests in one bucket: with `n` already counted, the next is allowed with `remaining = quota - n - 1` while `n` is below the quota, and rejected with `retry_after = 1` otherwise |
| SlidingWindow.BucketIndexMonotone | src/algorithms/sliding_window_algorithm.py:44 | a later clock reading never falls in an earlier bucket |
| SlidingWindow.CurrentRequests | src/algorithms/sliding_window_algorithm.py:59 | the summing loop returns exactly the in-window sum |
| SlidingWindow.DecideOnTable | src/algorithms/sliding_window_algorithm.py:50-72 | prune, sum, then allow or reject: the response and new table are exactly `Decide`'s |
| SlidingWindow.SlidingWindowAlgorithm.constructor | src/algorithms/sliding_window_algorithm.py:17-21 | a new engine has an empty per-key table |
| SlidingWindow.SlidingWindowAlgorithm.GetClientData | src/algorithms/sliding_window_algorithm.py:23-31 | returns the key's table. On first use it inserts an empty table; existing entries are never replaced or removed |
| SlidingWindow.SlidingWindowAlgorithm.CleanupExpiredBuckets | src/algorithms/sliding_window_algorithm.py:33-39 | the deletion loop leaves exactly the buckets after `current_bucket - window_buckets`, with their counts |
| SlidingWindow.SlidingWindowAlgorithm.CheckRequest | src/algorithms/sliding_window_algorithm.py:41-72 | the response is `Decide` on the key's table (empty for a new key), and only that key's entry changes |
| AlgorithmFactory.IsSupported | src/algorithms/algorithm_factory.py:11 | the identifiers the factory has an engine for: exactly `SLIDING_WINDOW` |
| AlgorithmFactory.UnsupportedMessage | src/algorithms/algorithm_factory.py:13 | the error message is `Unsupported algorithm: ` followed by the rejected identifier |
| AlgorithmFactory.CreateAlgorithm | src/algorithms/algorithm_factory.py:9-13 | `SLIDING_WINDOW` gives a fresh engine with an empty table. Every other identifier gives the error `Unsupported algorithm: <id>`, with no fallback |
| AlgorithmFactory.EveryAlgorithmTypeIsSupported | src/constants/algorithm_type.py:4-6 | every `AlgorithmType` value is supported, so creation from the enum never fails |
| MetricRecords.NewClientMetrics | src/metrics/metrics_collector.py:86-90 | a client's first request creates a consistent tally with no requests, its id, and `first_request_time = now` |
| MetricRecords.Counted | src/metrics/metrics_collector.py:92-98 | one request adds 1 to the client's total and to exactly the matching outcome count. It sets `last_request_time = now` and keeps the id and `first_request_time` |
| MetricRecords.RejectionRate | src/metrics/metrics_collector.py:128-131 | `rejected / total * 100`, or 0 when `total` is 0. It lies in [0, 100] for a consistent tally: 100 when all are rejected, 0 when none are |
| ClientRanking.InsertByTotal | src/metrics/metrics_collector.py:163-167 | insertion keeps every element (multiset) and adds one |
| ClientRanking.SortByTotalDesc | src/metrics/metrics_collector.py:163-167 | the sort is a permutation of its input |
| ClientRanking.InsertKeepsSorted | src/metrics/metrics_collector.py:163-167 | insertion into a list sorted by decreasing total keeps it sorted |
| ClientRanking.SortIsSorted | src/metrics/metrics_collector.py:163-167 | `sorted(..., key=total_requests, reverse=True)` is ordered by non-increasing total |
| ClientRanking.InsertWithTotal | src/metrics/metrics_collector.py:163-167 | a newly inserted client goes behind every client of equal total already in the list |
| ClientRanking.SortIsStable | src/metrics/metrics_collector.py:163-167 | stability: clients of equal total keep their first-seen order |
| ClientRanking.TopClients | src/metrics/metrics_collector.py:163-167 | the sorted tallies cut with `[:limit]`. `TopClientsSpec` states what it returns |
| ClientRanking.TopClientsSpec | src/metrics/metrics_collector.py:160-167 | `get_top_clients(limit)` gives `min(limit, n)` clients taken from the tallies, ordered by decreasing total. No client left out has more requests than any client returned |
| MetricsCollection.IndexOf | src/metrics/metrics_collector.py:86 | the dict lookup finds the entry with that client id, or reports that none exists |
| MetricsCollection.RecordClient | src/metrics/metrics_collector.py:85-98 | the per-client step of `record_request`: get or create the tally, then count the request in it. `RecordClientEffect` and `RecordClientKeepsInvariant` state its effect |
| MetricsCollection.DropExpired | src/metrics/metrics_collector.py:103-109 | `_cleanup_old_data`: pop from the front while the oldest timestamp is before the cutoff. `DropExpiredSpec` and `DropExpiredOrdered` state what it leaves |
| MetricsCollection.DropExpiredSpec | src/metrics/metrics_collector.py:103-109 | `_cleanup_old_data` removes only from the front. Everything it removes is before the cutoff, and the new front is not |
| MetricsCollection.CountAfter | src/metrics/metrics_collector.py:117-118 | the count of entries after a cutoff never exceeds the number of entries |
| MetricsCollection.CountAfterIndices | src/metrics/metrics_collector.py:117-118 | the recent count is the number of positions whose timestamp is strictly after the cutoff |
| MetricsCollection.Average | src/metrics/metrics_collector.py:122-125 | `sum(s) / len(s)`, or 0 for an empty queue. `AverageBounds` states its range |
| MetricsCollection.ActiveClients | src/metrics/metrics_collector.py:134-137 | the number of clients whose last request is after `now - 300`. `ActiveClientsSpec` states it as a count of clients |
| MetricsCollection.ActiveClientsSpec | src/metrics/metrics_collector.py:134-137 | the active clients are exactly the clients whose last request is strictly after `now - 300`, counted once each |
| MetricsCollection.Snapshot | src/metrics/metrics_collector.py:113-148 | the snapshot `get_current_metrics` takes at `now`. `SnapshotSpec` states each of its eight fields, and `SnapshotAverageBounds` states the range of its average response time |
| MetricsCollection.AfterSnapshot | src/metrics/metrics_collector.py:150-153 | the state after `get_current_metrics`: the snapshot is appended to the history of at most 100. `SnapshotSpec` and `SnapshotKeepsWellFormed` state its effect |
| MetricsCollection.AfterRecord | src/metrics/metrics_collector.py:67-109 | `record_request`: the global counters, the two queue appends, the client tally, then `_cleanup_old_data`, in that order. `RecordCounters`, `RecordClientEffect`, `RecordKeepsWellFormed` and `RecordPrunesTimestamps` state its effect |
| MetricsCollection.HistoricalSnapshots | src/metrics/metrics_collector.py:169-172 | `list(snapshots)[-limit:]`. `HistoricalSnapshotsSpec` states what it returns |
| MetricsCollection.LastRequestTimes | src/metrics/metrics_collector.py:134-137 | one last-request time per client, in order |
| MetricsCollection.EmptyWellFormed | src/metrics/metrics_collector.py:43-65 | the initial state is well formed and has no requests and no clients |
| MetricsCollection.RecordClientEffect | src/metrics/metrics_collector.py:85-98 | the first request of a client creates its tally with `first_request_time = now`, and every request is counted in that tally. Other clients' tallies are untouched, and existing entries keep their place |
| MetricsCollection.RecordClientKeepsInvariant | src/metrics/metrics_collector.py:85-98 | client ids stay distinct, every tally stays consistent, and the client totals rise by exactly one |
| MetricsCollection.RecordCounters | src/metrics/metrics_collector.py:73-77 | `record_request` raises the total by 1 and exactly one of allowed/rejected, chosen by `allowed`. The history and start time are unchanged |
| MetricsCollection.RecordKeepsWellFormed | src/metrics/metrics_collector.py:67-101 | `record_request` keeps the invariant: total = allowed + rejected, queue bounds, distinct ids, and client totals summing to the total |
| MetricsCollection.SnapshotKeepsWellFormed | src/metrics/metrics_collector.py:111-153 | `get_current_metrics` keeps the invariant |
| MetricsCollection.BoundedAppendKeepsLast | src/metrics/metrics_collector.py:53-80 | `response_times` always holds the most recent at most 1000 values in arrival order |
| MetricsCollection.DropExpiredOrdered | src/metrics/metrics_collector.py:108-109 | pruning ordered timestamps keeps them ordered, keeps the newest, and leaves none before the cutoff |
| MetricsCollection.RecordPrunesTimestamps | src/metrics/metrics_collector.py:83-109 | after `record_request` at `now`, the timestamps are ordered, end with `now`, and none is before `now - history_window_seconds` |
| MetricsCollection.SnapshotSpec | src/metrics/metrics_collector.py:111-153 | the snapshot copies the three counters, and its average response time is the mean of the kept response times (0 for none). Requests per second, times 60, is the number of timestamps after `now - 60`. The active clients are the clients whose last request is after `now - 300`, so there are at most as many as there are clients. It gives the rejected percentage (0 when nothing was counted). The history gains this snapshot, dropping the oldest at 100 |
| MetricsCollection.SnapshotAverageBounds | src/metrics/metrics_collector.py:122-125 | the snapshot's average response time is 0 when none is kept, and otherwise lies between the fastest and slowest kept |
| MetricsCollection.CountAfterBounds | src/metrics/metrics_collector.py:117-118 | the recent count is all of the entries when all are after the cutoff, and none when none are |
| MetricsCollection.CountAfterAntitone | src/metrics/metrics_collector.py:117-118 | a later cutoff never counts more |
| MetricsCollection.AverageBounds | src/metrics/metrics_collector.py:122-125 | the average response time lies between the fastest and slowest kept, and is 0 when none is kept |
| MetricsCollection.HistoricalSnapshotsSpec | src/metrics/metrics_collector.py:169-172 | `list(snapshots)[-limit:]` gives the newest `limit` snapshots, oldest first. `limit = 0` gives the whole history |
| MetricsCollection.MetricsCollector.constructor | src/metrics/metrics_collector.py:43-65 | a new collector is empty and valid, with the given start time and the given history window, 300 seconds when none is given |
| MetricsCollection.MetricsCollector.RecordRequest | src/metrics/metrics_collector.py:67-101 | the new state is `AfterRecord` of the old, and validity is preserved |
| MetricsCollection.MetricsCollector.CountGlobal | src/metrics/metrics_collector.py:73-77 | the global-counter step of `record_request` |
| MetricsCollection.MetricsCollector.AppendRequestSamples | src/metrics/metrics_collector.py:79-83 | the two queue appends of `record_request` |
| MetricsCollection.MetricsCollector.UpdateClientMetrics | src/metrics/metrics_collector.py:85-98 | get-or-create the tally, then count the request in it |
| MetricsCollection.MetricsCollector.CleanupOldData | src/metrics/metrics_collector.py:103-109 | the `popleft` loop leaves exactly `DropExpired` of the timestamps, and nothing else changes |
| MetricsCollection.MetricsCollector.GetCurrentMetrics | src/metrics/metrics_collector.py:111-153 | returns `Snapshot` of the state and appends it to the bounded history, keeping validity |
| MetricsCollection.MetricsCollector.GetClientMetrics | src/metrics/metrics_collector.py:155-158 | every client's tally in first-seen order, each consistent in a valid collector |
| MetricsCollection.MetricsCollector.GetTopClients | src/metrics/metrics_collector.py:160-167 | the top clients, sorted by decreasing total and drawn from the tallies. `limit` is 10 when none is given |
| MetricsCollection.MetricsCollector.GetHistoricalSnapshots | src/metrics/metrics_collector.py:169-172 | a suffix of the snapshot history, `[-limit:]`. `limit` is 50 when none is given |
| MetricsCollection.MetricsCollector.GetUptimeSeconds | src/metrics/metrics_collector.py:186-188 | the time since the start time, which is not negative once the clock has passed it |
| MetricsCollection.MetricsCollector.ResetMetrics | src/metrics/metrics_collector.py:174-184 | every counter, queue, tally and the history are emptied, and the start time restarts |
| MetricsResponse.FromClientMetrics | src/models/metrics_response.py:15-31 | copies the tally, and the rejection rate is `rejected / total * 100` (0 for no requests), within [0, 100] for a consistent tally |
| MetricsResponse.FromSnapshot | src/models/metrics_response.py:45-57 | `from_snapshot` copies each of the eight snapshot fields into the response field of the same name |
| MetricsResponse.FromSnapshotLossless | src/models/metrics_response.py:45-57 | no information is lost: the snapshot can be read back from the response, and different snapshots give different responses |
| MetricsResponse.ClassifyHealth | src/models/metrics_response.py:82-88 | `unhealthy` iff rate > 50. `degraded` iff not unhealthy and (rate > 20 or avg > 50 ms). `healthy` otherwise. Boundary values fall to the milder status |
| MetricsResponse.ClassifyHealthMonotone | src/models/metrics_response.py:82-88 | worse figures never give a milder status |
| MetricsResponse.HealthStatusThresholds | src/models/metrics_response.py:82-88 | the status string of a health response is `unhealthy` iff the rejection rate is above 50, `degraded` iff it is at most 50 and either the rate is above 20 or the average response time is above 50 ms, and `healthy` iff the rate is at most 20 and the average at most 50 ms |
| MetricsResponse.HealthFromSnapshot | src/models/metrics_response.py:79-99 | the status follows the thresholds, and the five figures and the uptime are copied unchanged |
| MetricsResponse.HealthMemoryDefault | src/models/metrics_response.py:80 | `memory_usage_mb` defaults to none |
| Service.ClientKey | src/rate_limiter_service.py:29 | the key is the client id, then `:`, then the resource |
| Service.ClientKeyResources | src/rate_limiter_service.py:29 | one client's different resources get different keys |
| Service.ClientKeyClients | src/rate_limiter_service.py:29 | different clients get different keys for one resource |
| Service.DefaultResourceKey | src/rate_limiter_service.py:26-29 | a check that names no resource uses the key `client_id:default`, which differs from the key of any other resource of that client |
| Service.ClientKeyInjective | src/rate_limiter_service.py:29 | when client ids contain no `:`, the key determines both the client and the resource |
| Service.ClientKeyCollision | src/rate_limiter_service.py:29 | a `:` inside a client id lets two (client, resource) pairs share a key, and so a quota |
| Service.CreateService | src/rate_limiter_service.py:15-18 | the service has the given config and a fresh engine with an empty table, or the factory's error. There is a fresh collector with the 300-second history iff metrics are enabled, which they are when the caller does not say |
| Service.RateLimiterService.UpdateConfig | src/rate_limiter_service.py:20-24 | the new config is always installed. For the same algorithm id the engine and all its counts are kept. A different supported id builds a fresh empty engine. An unsupported id fails before anything changes |
| Service.RateLimiterService.CheckRateLimit | src/rate_limiter_service.py:26-43 | the response is exactly the engine's decision for key `client:resource` under the current config, and only that key's table changes. With a collector, exactly one request is recorded under `client_id` with the decision's `allowed`. `resource` is `"default"` when none is given |
| Service.RateLimiterService.ResetMetrics | src/rate_limiter_service.py:49-52 | with a collector, its state is emptied |
| Service.RepeatCheck | src/algorithms/sliding_window_algorithm.py:61-72 | back-to-back checks on a fresh key in one bucket give `remaining` = quota-1, …, 0 and then rejections with `retry_after = 1`. No other key changes |
| Service.ExhaustionScenario | tst/algorithms/test_rate_limiter_service.py:72-87 | with quota 5, one key gives `remaining` 4, 3, 2, 1, 0 and then a rejection with `retry_after = 1` |
| Service.DefaultResourceScenario | tst/algorithms/test_rate_limiter_service.py:36-41 | a check without a resource is decided on `client1:default`, the only key held afterwards, and the first one is allowed with `remaining = 4` |
| Service.IndependentKeysScenario | tst/algorithms/test_rate_limiter_service.py:56-70 | different clients on one resource, and one client on different resources, each get a first request allowed with `remaining = 4` |
| Service.ReconfigureScenario | tst/test_api.py:79-99 | after reconfiguring to window 10 / quota 2, a key gives `remaining` 1, 0 and then a rejection |

## Choices in the code

- Bucket width: the engine fixes it at 0.5 s (`src/algorithms/sliding_window_algorithm.py:19`), whatever the window. The window in buckets is `int(window_seconds / 0.5)`, exactly twice the window.
- Rounding: bucket indices come from `int()`, which truncates toward zero (lines 44-45). For a negative clock reading this is not the floor: every reading strictly between -0.5 and 0.5 gets index 0, so bucket 0 is twice as wide as the others. The model keeps the truncation.
- No validation: `update_config` installs any configuration (`src/rate_limiter_service.py:20-24`), including a zero or negative window or quota. The lemmas are stated for every configuration, except those that need a positive window or quota, which say so in their `requires`.

## Left out

- Locks and threads: the engine's global and per-key locks (including the double-checked insert in `_get_client_data`) and the collector's lock. Every operation is modelled as one sequential step.
- Wall clock: every `time.time()` reading is a parameter, and so is the measured response time of `check_rate_limit`. Nothing relates the engine's reading, the measured time and the collector's reading in one call.
- Floating point: times, rates and averages are exact reals, with no rounding. Python's `int()` truncation of a bucket index is modelled exactly.
- `src/api.py`, `src/main.py` and the pydantic request models are not part of this model. Pydantic validation is not modelled. `ConfigResponse` fields are unconstrained integers, and the algorithm is held as its identifier string, so the factory's error path, which the enum makes unreachable, is a reachable branch here.
- `src/algorithms/rate_limit_algorithm.py` is an abstract interface with one implementation. The service holds a `SlidingWindowAlgorithm` directly.
- `processing_time_us` of `RateLimitResponse` is only filled in by the HTTP layer, so it is not a field here.
- `get_metrics_collector` is not a separate member: the collector is the service's public constant field `metricsCollector`.
- `get_client_metrics` and `get_top_clients` return the live `ClientMetrics` objects in Python, so a caller could mutate the collector's tallies through them. In the same way, `get_current_metrics` returns the `MetricSnapshot` it also stores in the history, and `get_historical_snapshots` returns those stored objects. The model returns values, so it does not capture that aliasing.
- Service.RepeatCheck: stated only for a positive window and a key that has no table yet, all checks in one bucket.
- MetricsCollection.RecordPrunesTimestamps: stated only for a non-negative history window and a clock that never runs backwards. With a negative window the cutoff is after `now` and the new timestamp itself is removed.
- MetricsCollection.MetricsCollector.RecordRequest: the body of `record_request` is split into four step methods (`CountGlobal`, `AppendRequestSamples`, `UpdateClientMetrics`, `CleanupOldData`). Their composition is the specification function `AfterRecord`.
- SlidingWindow.SlidingWindowAlgorithm.CheckRequest: the bucket table is a map value written back into `clientData`. The Python code mutates the shared dict in place, which is the same observable table because nothing else holds a reference to it.

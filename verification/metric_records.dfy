/** The records the metrics collector keeps and hands out: the per-client
    tally `ClientMetrics`, the point-in-time `MetricSnapshot`, and the
    rejection-rate ratio both the collector and the response models use. */
module MetricRecords {

  /** `MetricSnapshot`. Times and rates are exact reals. */
  datatype MetricSnapshot = MetricSnapshot(
    timestamp: real,
    totalRequests: nat,
    allowedRequests: nat,
    rejectedRequests: nat,
    avgResponseTimeMs: real,
    activeClients: nat,
    requestsPerSecond: real,
    rejectionRate: real)

  /** `ClientMetrics`: one client's tally. */
  datatype ClientMetrics = ClientMetrics(
    clientId: string,
    totalRequests: nat,
    allowedRequests: nat,
    rejectedRequests: nat,
    lastRequestTime: real,
    firstRequestTime: real)

  /** A tally whose total is the sum of its two outcomes. */
  predicate Consistent(c: ClientMetrics)
  {
    c.totalRequests == c.allowedRequests + c.rejectedRequests
  }

  /** The entry a client's first request creates: every count zero,
      `last_request_time` at its default 0 and `first_request_time = now`. */
  function NewClientMetrics(clientId: string, now: real): (c: ClientMetrics)
    ensures Consistent(c) && c.totalRequests == 0
    ensures c.clientId == clientId && c.firstRequestTime == now
  {
    ClientMetrics(clientId, 0, 0, 0, 0.0, now)
  }

  /** One more request counted in a client's tally: the total and exactly
      one of the two outcomes rise by one, the last-request time moves to
      `now`, and the identity and first-request time stay. */
  function Counted(c: ClientMetrics, allowed: bool, now: real): (r: ClientMetrics)
    ensures Consistent(c) ==> Consistent(r)
    ensures r.clientId == c.clientId && r.firstRequestTime == c.firstRequestTime
    ensures r.totalRequests == c.totalRequests + 1 && r.lastRequestTime == now
    ensures r.allowedRequests + r.rejectedRequests == c.allowedRequests + c.rejectedRequests + 1
    ensures allowed <==> r.allowedRequests == c.allowedRequests + 1
    ensures !allowed <==> r.rejectedRequests == c.rejectedRequests + 1
  {
    if allowed then
      c.(totalRequests := c.totalRequests + 1, allowedRequests := c.allowedRequests + 1, lastRequestTime := now)
    else
      c.(totalRequests := c.totalRequests + 1, rejectedRequests := c.rejectedRequests + 1, lastRequestTime := now)
  }

  /** `rejected / total * 100`, or 0.0 when nothing was counted: the
      percentage of requests that were rejected. */
  function RejectionRate(rejected: int, total: int): (rate: real)
    ensures total <= 0 ==> rate == 0.0
    ensures 0 < total ==> rate * total as real == rejected as real * 100.0
    ensures 0 <= rejected <= total ==> 0.0 <= rate <= 100.0
    ensures 0 < total && rejected == total ==> rate == 100.0
    ensures rejected == 0 ==> rate == 0.0
  {
    if total > 0 then rejected as real / total as real * 100.0 else 0.0
  }
}

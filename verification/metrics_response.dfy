/** The response models built from the collector's records:
    `ClientMetricsResponse.from_client_metrics`,
    `MetricsSnapshotResponse.from_snapshot` and `HealthResponse.from_snapshot`
    with its three-way health classification. */
module MetricsResponse {
  import opened Wrappers
  import opened MetricRecords

  /** Above this rejection percentage the service is unhealthy. */
  const UnhealthyRejectionRate: real := 50.0
  /** Above this rejection percentage the service is at least degraded. */
  const DegradedRejectionRate: real := 20.0
  /** Above this average response time (ms) the service is at least degraded. */
  const DegradedResponseTimeMs: real := 50.0

  datatype ClientMetricsResponse = ClientMetricsResponse(
    clientId: string,
    totalRequests: int,
    allowedRequests: int,
    rejectedRequests: int,
    lastRequestTime: real,
    firstRequestTime: real,
    rejectionRate: real)

  /** `ClientMetricsResponse.from_client_metrics`: the tally copied, plus the
      client's rejected percentage (0.0 for a client with no requests). */
  function FromClientMetrics(c: ClientMetrics): (r: ClientMetricsResponse)
    ensures r.clientId == c.clientId && r.totalRequests == c.totalRequests
    ensures r.allowedRequests == c.allowedRequests && r.rejectedRequests == c.rejectedRequests
    ensures r.lastRequestTime == c.lastRequestTime && r.firstRequestTime == c.firstRequestTime
    ensures c.totalRequests == 0 ==> r.rejectionRate == 0.0
    ensures 0 < c.totalRequests ==> r.rejectionRate * c.totalRequests as real == c.rejectedRequests as real * 100.0
    ensures Consistent(c) ==> 0.0 <= r.rejectionRate <= 100.0
  {
    ClientMetricsResponse(c.clientId, c.totalRequests, c.allowedRequests, c.rejectedRequests,
                          c.lastRequestTime, c.firstRequestTime,
                          RejectionRate(c.rejectedRequests, c.totalRequests))
  }

  datatype MetricsSnapshotResponse = MetricsSnapshotResponse(
    timestamp: real,
    totalRequests: int,
    allowedRequests: int,
    rejectedRequests: int,
    avgResponseTimeMs: real,
    activeClients: int,
    requestsPerSecond: real,
    rejectionRate: real)

  /** `MetricsSnapshotResponse.from_snapshot`. */
  function FromSnapshot(s: MetricSnapshot): (r: MetricsSnapshotResponse)
    ensures r.timestamp == s.timestamp && r.totalRequests == s.totalRequests
    ensures r.allowedRequests == s.allowedRequests && r.rejectedRequests == s.rejectedRequests
    ensures r.avgResponseTimeMs == s.avgResponseTimeMs && r.activeClients == s.activeClients
    ensures r.requestsPerSecond == s.requestsPerSecond && r.rejectionRate == s.rejectionRate
  {
    MetricsSnapshotResponse(s.timestamp, s.totalRequests, s.allowedRequests, s.rejectedRequests,
                            s.avgResponseTimeMs, s.activeClients, s.requestsPerSecond, s.rejectionRate)
  }

  /** Reading a response back as a snapshot; defined for responses whose
      counts are non-negative, as every response built from a snapshot is. */
  function ToSnapshot(r: MetricsSnapshotResponse): MetricSnapshot
    requires 0 <= r.totalRequests && 0 <= r.allowedRequests && 0 <= r.rejectedRequests && 0 <= r.activeClients
  {
    MetricSnapshot(r.timestamp, r.totalRequests, r.allowedRequests, r.rejectedRequests,
                   r.avgResponseTimeMs, r.activeClients, r.requestsPerSecond, r.rejectionRate)
  }

  /** `from_snapshot` copies all eight fields verbatim: it loses nothing, and
      two different snapshots never give the same response. */
  lemma FromSnapshotLossless(s: MetricSnapshot, t: MetricSnapshot)
    ensures var r := FromSnapshot(s);
      0 <= r.totalRequests && 0 <= r.allowedRequests && 0 <= r.rejectedRequests && 0 <= r.activeClients
      && ToSnapshot(r) == s
    ensures FromSnapshot(s) == FromSnapshot(t) ==> s == t
  {
  }

  /** The three health levels, mildest first. */
  datatype HealthStatus = Healthy | Degraded | Unhealthy
  {
    /** The status string the response carries. */
    function Name(): string
    {
      match this
      case Healthy => "healthy"
      case Degraded => "degraded"
      case Unhealthy => "unhealthy"
    }

    function Severity(): nat
    {
      match this
      case Healthy => 0
      case Degraded => 1
      case Unhealthy => 2
    }
  }

  /** The `if`/`elif`/`else` of `HealthResponse.from_snapshot`: exactly one
      status applies, and a value equal to a threshold falls to the milder
      side. */
  function ClassifyHealth(rejectionRate: real, avgResponseTimeMs: real): (status: HealthStatus)
    ensures status == Unhealthy <==> UnhealthyRejectionRate < rejectionRate
    ensures status == Degraded <==>
      rejectionRate <= UnhealthyRejectionRate
      && (DegradedRejectionRate < rejectionRate || DegradedResponseTimeMs < avgResponseTimeMs)
    ensures status == Healthy <==>
      rejectionRate <= DegradedRejectionRate && avgResponseTimeMs <= DegradedResponseTimeMs
  {
    if rejectionRate > UnhealthyRejectionRate then Unhealthy
    else if rejectionRate > DegradedRejectionRate || avgResponseTimeMs > DegradedResponseTimeMs then Degraded
    else Healthy
  }

  /** Worse figures never give a milder status. */
  lemma ClassifyHealthMonotone(rate1: real, avg1: real, rate2: real, avg2: real)
    requires rate1 <= rate2 && avg1 <= avg2
    ensures ClassifyHealth(rate1, avg1).Severity() <= ClassifyHealth(rate2, avg2).Severity()
  {
  }

  /** The status string a health response carries follows the thresholds:
      "unhealthy" above a 50% rejection rate, "degraded" above 20% or above
      50 ms on average, "healthy" otherwise. */
  lemma HealthStatusThresholds(snapshot: MetricSnapshot, uptimeSeconds: real)
    ensures HealthFromSnapshot(snapshot, uptimeSeconds).status == "unhealthy" <==> 50.0 < snapshot.rejectionRate
    ensures HealthFromSnapshot(snapshot, uptimeSeconds).status == "degraded" <==>
      snapshot.rejectionRate <= 50.0 && (20.0 < snapshot.rejectionRate || 50.0 < snapshot.avgResponseTimeMs)
    ensures HealthFromSnapshot(snapshot, uptimeSeconds).status == "healthy" <==>
      snapshot.rejectionRate <= 20.0 && snapshot.avgResponseTimeMs <= 50.0
  {
  }

  datatype HealthResponse = HealthResponse(
    status: string,
    uptimeSeconds: real,
    totalRequests: int,
    currentRps: real,
    avgResponseTimeMs: real,
    rejectionRate: real,
    activeClients: int,
    memoryUsageMb: Option<real>)

  /** `HealthResponse.from_snapshot(snapshot, uptime_seconds,
      memory_usage_mb=None)`. */
  function HealthFromSnapshot(snapshot: MetricSnapshot, uptimeSeconds: real,
                              memoryUsageMb: Option<real> := None): (r: HealthResponse)
    ensures r.status == ClassifyHealth(snapshot.rejectionRate, snapshot.avgResponseTimeMs).Name()
    ensures r.uptimeSeconds == uptimeSeconds && r.memoryUsageMb == memoryUsageMb
    ensures r.totalRequests == snapshot.totalRequests && r.currentRps == snapshot.requestsPerSecond
    ensures r.avgResponseTimeMs == snapshot.avgResponseTimeMs && r.rejectionRate == snapshot.rejectionRate
    ensures r.activeClients == snapshot.activeClients
  {
    var status := ClassifyHealth(snapshot.rejectionRate, snapshot.avgResponseTimeMs).Name();
    HealthResponse(status, uptimeSeconds, snapshot.totalRequests, snapshot.requestsPerSecond,
                   snapshot.avgResponseTimeMs, snapshot.rejectionRate, snapshot.activeClients, memoryUsageMb)
  }

  /** Without a memory figure the response carries none. */
  lemma HealthMemoryDefault(snapshot: MetricSnapshot, uptimeSeconds: real)
    ensures HealthFromSnapshot(snapshot, uptimeSeconds).memoryUsageMb == None
  {
  }
}

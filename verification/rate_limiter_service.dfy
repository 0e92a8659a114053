/** `RateLimiterService`: derives the engine key from the client and the
    resource, delegates the decision to the current engine under the current
    configuration, records it in the metrics collector when one exists, and
    swaps the configuration (and the engine, only when the algorithm
    identifier changes). */
module Service {
  import opened Wrappers
  import opened Models
  import opened BucketTable
  import opened SlidingWindow
  import opened AlgorithmFactory
  import opened MetricsCollection

  /** The resource used when the caller names none. */
  const DefaultResource: string := "default"

  /** `f"{client_id}:{resource}"`. */
  function ClientKey(clientId: string, resource: string): (key: string)
    ensures |key| == |clientId| + 1 + |resource|
    ensures key[..|clientId|] == clientId && key[|clientId|] == ':' && key[|clientId| + 1..] == resource
  {
    clientId + ":" + resource
  }

  /** One client's resources get different keys. */
  lemma ClientKeyResources(clientId: string, r1: string, r2: string)
    ensures ClientKey(clientId, r1) == ClientKey(clientId, r2) <==> r1 == r2
  {
    if ClientKey(clientId, r1) == ClientKey(clientId, r2) {
      assert r1 == ClientKey(clientId, r1)[|clientId| + 1..];
    }
  }

  /** Different clients get different keys for one resource. */
  lemma ClientKeyClients(c1: string, c2: string, resource: string)
    ensures ClientKey(c1, resource) == ClientKey(c2, resource) <==> c1 == c2
  {
    var k1, k2 := ClientKey(c1, resource), ClientKey(c2, resource);
    if k1 == k2 {
      assert |c1| == |c2|;
      assert c1 == k1[..|c1|];
    }
  }

  /** A check that names no resource is limited under `client_id:default`. */
  lemma DefaultResourceKey(clientId: string)
    ensures ClientKey(clientId, DefaultResource) == clientId + ":default"
    ensures ClientKey(clientId, DefaultResource) != ClientKey(clientId, "resource1")
  {
    ClientKeyResources(clientId, DefaultResource, "resource1");
  }

  /** For a client id without ':', the separator is the first ':' of the key. */
  lemma NoColonBeforeSeparator(clientId: string, resource: string)
    requires ':' !in clientId
    ensures forall i | 0 <= i < |clientId| :: ClientKey(clientId, resource)[i] != ':'
  {
    var key := ClientKey(clientId, resource);
    forall i | 0 <= i < |clientId|
      ensures key[i] != ':'
    {
      assert key[i] == clientId[i];
    }
  }

  /** When client ids contain no ':' the key determines both the client and
      the resource. */
  lemma ClientKeyInjective(c1: string, r1: string, c2: string, r2: string)
    requires ':' !in c1 && ':' !in c2
    ensures ClientKey(c1, r1) == ClientKey(c2, r2) <==> c1 == c2 && r1 == r2
  {
    var k1, k2 := ClientKey(c1, r1), ClientKey(c2, r2);
    if k1 == k2 {
      NoColonBeforeSeparator(c1, r1);
      NoColonBeforeSeparator(c2, r2);
      assert k2[|c1|] == ':' && k1[|c2|] == ':';
      assert |c1| == |c2|;
      assert c1 == k1[..|c1|] && c2 == k2[..|c2|];
      assert r1 == k1[|c1| + 1..] && r2 == k2[|c2| + 1..];
    }
  }

  /** A ':' inside a client id lets two (client, resource) pairs share one
      key, and hence one quota. */
  lemma ClientKeyCollision()
    ensures ClientKey("a:b", "c") == ClientKey("a", "b:c")
  {
  }

  class RateLimiterService {
    var config: Config
    var algorithm: SlidingWindowAlgorithm
    const metricsCollector: MetricsCollector?

    /** Assembles a service from an engine that was already built. */
    constructor (config: Config, algorithm: SlidingWindowAlgorithm, metricsCollector: MetricsCollector?)
      ensures this.config == config && this.algorithm == algorithm && this.metricsCollector == metricsCollector
    {
      this.config := config;
      this.algorithm := algorithm;
      this.metricsCollector := metricsCollector;
    }

    /** `update_config(config)`: the new configuration is always installed,
        but a new engine (with empty tables) is built only when the algorithm
        identifier changes, so a window- or quota-only change keeps every
        key's counts. An identifier the factory rejects raises before
        anything is assigned. */
    method UpdateConfig(newConfig: Config) returns (outcome: Outcome<string>)
      modifies this
      ensures newConfig.algorithm == old(config.algorithm) ==>
        && outcome == Pass && config == newConfig
        && algorithm == old(algorithm) && algorithm.clientData == old(algorithm.clientData)
      ensures newConfig.algorithm != old(config.algorithm) && IsSupported(newConfig.algorithm) ==>
        && outcome == Pass && config == newConfig
        && fresh(algorithm) && algorithm.clientData == map[]
      ensures newConfig.algorithm != old(config.algorithm) && !IsSupported(newConfig.algorithm) ==>
        && outcome == Fail(UnsupportedMessage(newConfig.algorithm))
        && config == old(config) && algorithm == old(algorithm)
    {
      if newConfig.algorithm != config.algorithm {
        var created := CreateAlgorithm(newConfig.algorithm);
        if created.Failure? {
          return Fail(created.error);
        }
        algorithm := created.value;
      }
      config := newConfig;
      return Pass;
    }

    /** `check_rate_limit(client_id, resource="default")`. The engine reads its clock
        at `decisionTime`; with a collector, the request is recorded under
        `client_id` (not the composite key) with the measured
        `responseTimeMs` and the collector's clock reading `recordTime`.
        The response is exactly the engine's decision, and only the key's
        table changes. */
    method CheckRateLimit(clientId: string, decisionTime: real, responseTimeMs: real, recordTime: real,
                          resource: string := DefaultResource) returns (response: RateLimitResponse)
      modifies algorithm, metricsCollector
      ensures var key := ClientKey(clientId, resource);
        var step := Decide(Lookup(old(algorithm.clientData), key), config, BucketIndex(decisionTime));
        response == step.0 && algorithm.clientData == old(algorithm.clientData)[key := step.1]
      ensures metricsCollector != null ==>
        metricsCollector.State() == AfterRecord(old(metricsCollector.State()), metricsCollector.historyWindowSeconds,
                                                clientId, response.allowed, responseTimeMs, recordTime)
    {
      var clientKey := ClientKey(clientId, resource);
      response := algorithm.CheckRequest(clientKey, config, decisionTime);
      if metricsCollector != null {
        metricsCollector.RecordRequest(clientId, response.allowed, responseTimeMs, recordTime);
      }
    }

    /** `reset_metrics()`: delegates to the collector when there is one, and
        otherwise does nothing. */
    method ResetMetrics(now: real)
      modifies metricsCollector
      ensures metricsCollector != null ==> metricsCollector.State() == Empty(now)
    {
      if metricsCollector != null {
        metricsCollector.ResetMetrics(now);
      }
    }
  }

  /** `RateLimiterService(config, enable_metrics=True)` at clock reading `now`:
      the engine comes from the factory (whose error propagates), and the
      collector, when enabled, has the default five-minute history. */
  method CreateService(config: Config, now: real, enableMetrics: bool := true) returns (r: Result<RateLimiterService, string>)
    ensures r.Success? <==> IsSupported(config.algorithm)
    ensures r.Failure? ==> r.error == UnsupportedMessage(config.algorithm)
    ensures r.Success? ==>
      && fresh(r.value) && fresh(r.value.algorithm)
      && r.value.config == config && r.value.algorithm.clientData == map[]
      && (r.value.metricsCollector != null <==> enableMetrics)
      && (enableMetrics ==>
            && fresh(r.value.metricsCollector)
            && r.value.metricsCollector.historyWindowSeconds == DefaultHistoryWindowSeconds
            && r.value.metricsCollector.State() == Empty(now))
  {
    var created := CreateAlgorithm(config.algorithm);
    if created.Failure? {
      return Failure(created.error);
    }
    var collector: MetricsCollector? := null;
    if enableMetrics {
      collector := new MetricsCollector(now);
    }
    var service := new RateLimiterService(config, created.value, collector);
    return Success(service);
  }

  /** The number of requests a quota admits out of `i` back-to-back ones. */
  function Admitted(i: nat, quota: int): nat
  {
    if i < quota then i else if quota < 0 then 0 else quota
  }

  /** The response to the `i`-th (from 0) of back-to-back requests on one
      fresh key within one bucket. */
  function Expected(i: nat, quota: int): RateLimitResponse
  {
    if i < quota then RateLimitResponse(true, quota - i - 1, None)
    else RateLimitResponse(false, 0, Some(1))
  }

  /** One more check on a key whose table holds only the current bucket,
      with the requests admitted out of the `n` before. */
  method CheckAgain(service: RateLimiterService, clientId: string, resource: string,
                    decisionTime: real, n: nat) returns (response: RateLimitResponse)
    requires 1 <= service.config.windowSeconds
    requires Lookup(service.algorithm.clientData, ClientKey(clientId, resource))
          == OneBucket(BucketIndex(decisionTime), Admitted(n, service.config.requestsPerWindow))
    modifies service.algorithm, service.metricsCollector
    ensures response == Expected(n, service.config.requestsPerWindow)
    ensures Lookup(service.algorithm.clientData, ClientKey(clientId, resource))
         == OneBucket(BucketIndex(decisionTime), Admitted(n + 1, service.config.requestsPerWindow))
    ensures service.algorithm.clientData - {ClientKey(clientId, resource)}
         == old(service.algorithm.clientData) - {ClientKey(clientId, resource)}
  {
    var key, c := ClientKey(clientId, resource), BucketIndex(decisionTime);
    AdmittedStep(service.config, c, n);
    response := service.CheckRateLimit(clientId, decisionTime, 0.0, decisionTime, resource);
    StoreFrame(old(service.algorithm.clientData), key, OneBucket(c, Admitted(n + 1, service.config.requestsPerWindow)));
  }

  /** `SameBucketStep` in terms of the number of back-to-back requests. */
  lemma AdmittedStep(config: Config, c: int, n: nat)
    requires 1 <= config.windowSeconds
    ensures Decide(OneBucket(c, Admitted(n, config.requestsPerWindow)), config, c)
         == (Expected(n, config.requestsPerWindow), OneBucket(c, Admitted(n + 1, config.requestsPerWindow)))
  {
    SameBucketStep(config, c, Admitted(n, config.requestsPerWindow));
  }

  /** Storing a table under one key leaves every other key as it was. */
  lemma StoreFrame(m: map<string, Buckets>, key: string, b: Buckets)
    ensures Lookup(m[key := b], key) == b
    ensures m[key := b] - {key} == m - {key}
  {
  }

  /** Back-to-back checks on one fresh key, all in one bucket: the first
      `requests_per_window` are allowed with `remaining` counting down to 0,
      every later one is rejected with `retry_after = 1`; no other key's
      table changes. */
  method RepeatCheck(service: RateLimiterService, clientId: string, resource: string,
                     decisionTime: real, count: nat) returns (responses: seq<RateLimitResponse>)
    requires 1 <= service.config.windowSeconds
    requires ClientKey(clientId, resource) !in service.algorithm.clientData
    modifies service.algorithm, service.metricsCollector
    ensures |responses| == count
    ensures forall i | 0 <= i < count :: responses[i] == Expected(i, service.config.requestsPerWindow)
    ensures service.algorithm.clientData - {ClientKey(clientId, resource)}
         == old(service.algorithm.clientData) - {ClientKey(clientId, resource)}
    ensures service.algorithm.clientData.Keys <= old(service.algorithm.clientData).Keys + {ClientKey(clientId, resource)}
  {
    var key := ClientKey(clientId, resource);
    var quota := service.config.requestsPerWindow;
    responses := [];
    while |responses| < count
      invariant |responses| <= count
      invariant Lookup(service.algorithm.clientData, key) == OneBucket(BucketIndex(decisionTime), Admitted(|responses|, quota))
      invariant service.algorithm.clientData - {key} == old(service.algorithm.clientData) - {key}
      invariant forall i | 0 <= i < |responses| :: responses[i] == Expected(i, quota)
      decreases count - |responses|
    {
      var response := CheckAgain(service, clientId, resource, decisionTime, |responses|);
      responses := responses + [response];
    }
    forall k | k in service.algorithm.clientData && k != key
      ensures k in old(service.algorithm.clientData)
    {
      assert k in service.algorithm.clientData - {key};
    }
  }

  /** The quota-exhaustion run: quota 5 in a 10-second window gives
      `remaining` 4, 3, 2, 1, 0, then a rejection with a positive
      `retry_after`. */
  method ExhaustionScenario(now: real) returns (responses: seq<RateLimitResponse>)
    ensures responses == [
      RateLimitResponse(true, 4, None), RateLimitResponse(true, 3, None), RateLimitResponse(true, 2, None),
      RateLimitResponse(true, 1, None), RateLimitResponse(true, 0, None), RateLimitResponse(false, 0, Some(1))]
  {
    var created := CreateService(Config(10, 5, SlidingWindowId), now);
    if created.Failure? {
      assert false;
      return [];
    }
    responses := RepeatCheck(created.value, "test_client", "api", now, 6);
  }

  /** Reconfiguring a running service to a 10-second window with quota 2
      keeps the engine; a new key then gets `remaining` 1, 0 and then a
      rejection. */
  method ReconfigureScenario(now: real) returns (responses: seq<RateLimitResponse>)
    ensures responses == [RateLimitResponse(true, 1, None), RateLimitResponse(true, 0, None), RateLimitResponse(false, 0, Some(1))]
  {
    var created := CreateService(Config(60, 100, SlidingWindowId), now);
    if created.Failure? {
      assert false;
      return [];
    }
    var service := created.value;
    var outcome := service.UpdateConfig(Config(10, 2, SlidingWindowId));
    responses := RepeatCheck(service, "integration_test", "api", now, 3);
  }

  /** Different clients on one resource, and one client on different
      resources, are limited independently: each first request is allowed
      with the full quota less one. */
  method IndependentKeysScenario(now: real) returns (responses: seq<RateLimitResponse>)
    ensures responses == [RateLimitResponse(true, 4, None), RateLimitResponse(true, 4, None),
                          RateLimitResponse(true, 4, None), RateLimitResponse(true, 4, None)]
  {
    var created := CreateService(Config(10, 5, SlidingWindowId), now);
    if created.Failure? {
      assert false;
      return [];
    }
    var service := created.value;
    var k1, k2, k3, k4 := ClientKey("client1", "api"), ClientKey("client2", "api"),
                          ClientKey("client1", "upload"), ClientKey("client1", "download");
    ClientKeyClients("client1", "client2", "api");
    ClientKeyResources("client1", "api", "upload");
    ClientKeyResources("client1", "api", "download");
    ClientKeyResources("client1", "upload", "download");
    assert k2 != k1 && k3 != k1 && k4 != k1 && k4 != k3;
    var r1 := RepeatCheck(service, "client1", "api", now, 1);
    assert service.algorithm.clientData.Keys <= {k1};
    var r2 := RepeatCheck(service, "client2", "api", now, 1);
    assert service.algorithm.clientData.Keys <= {k1, k2};
    var r3 := RepeatCheck(service, "client1", "upload", now, 1);
    assert service.algorithm.clientData.Keys <= {k1, k2, k3};
    var r4 := RepeatCheck(service, "client1", "download", now, 1);
    responses := r1 + r2 + r3 + r4;
  }

  /** A check that names no resource: it is decided on the key
      `client1:default`, the only key the engine then holds, and the first
      such request is allowed with the quota less one. */
  method DefaultResourceScenario(now: real) returns (response: RateLimitResponse, keys: set<string>)
    ensures response == RateLimitResponse(true, 4, None)
    ensures keys == {"client1:default"}
  {
    var created := CreateService(Config(10, 5, SlidingWindowId), now);
    if created.Failure? {
      assert false;
      return RateLimitResponse(false, 0, None), {};
    }
    var service := created.value;
    var key, c := ClientKey("client1", DefaultResource), BucketIndex(now);
    AdmittedStep(service.config, c, 0);
    assert Lookup(service.algorithm.clientData, key) == OneBucket(c, 0);
    response := service.CheckRateLimit("client1", now, 0.0, now);
    keys := service.algorithm.clientData.Keys;
    assert keys == {key};
    DefaultResourceKey("client1");
    assert "client1" + ":default" == "client1:default";
  }
}

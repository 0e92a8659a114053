/** The sliding-window admission engine (`SlidingWindowAlgorithm`): one
    bucket table per client key, half-second buckets, a quota over the last
    `window_seconds`. */
module SlidingWindow {
  import opened Wrappers
  import opened Models
  import opened BucketTable

  /** `bucket_size`: half a second per bucket. */
  const BucketSize: real := 0.5

  /** Python's `int(x)` on a float: truncation toward zero. */
  function Truncate(x: real): (n: int)
    ensures 0.0 <= x ==> n as real <= x < n as real + 1.0
    ensures x < 0.0 ==> n as real - 1.0 < x <= n as real
  {
    if 0.0 <= x then x.Floor else -((-x).Floor)
  }

  /** `int(current_time / bucket_size)`: the bucket a clock reading falls in. */
  function BucketIndex(currentTime: real): (i: int)
    ensures 0.0 <= currentTime ==> i as real * BucketSize <= currentTime < (i + 1) as real * BucketSize
    ensures currentTime < 0.0 ==> (i - 1) as real * BucketSize < currentTime <= i as real * BucketSize
  {
    Truncate(currentTime / BucketSize)
  }

  /** `int(window_seconds / bucket_size)`: the window measured in buckets. */
  function WindowBuckets(windowSeconds: int): (n: int)
    ensures n == 2 * windowSeconds
  {
    Truncate(windowSeconds as real / BucketSize)
  }

  /** `min_bucket`: buckets at or below it have left the window. */
  function MinBucket(config: Config, currentBucket: int): int
  {
    currentBucket - WindowBuckets(config.windowSeconds)
  }

  /** `max(1, int(bucket_size * 2))`: the fixed retry hint of a rejection. */
  function RetryAfter(): (r: int)
    ensures r == 1
  {
    var t := Truncate(BucketSize * 2.0);
    if 1 < t then t else 1
  }

  /** A key that has never been seen behaves as an empty table. */
  function Lookup(clientData: map<string, Buckets>, clientKey: string): Buckets
  {
    if clientKey in clientData then clientData[clientKey] else map[]
  }

  /** The table after the pruning pass, which only runs once the table holds
      more than `window_buckets + 3` buckets. */
  function Kept(b: Buckets, windowBuckets: int, minBucket: int): Buckets
  {
    if |b| > windowBuckets + 3 then Prune(b, minBucket) else b
  }

  /** One admission decision on one key's table `b` in bucket
      `currentBucket`: the response and the key's new table. */
  ghost function Decide(b: Buckets, config: Config, currentBucket: int): (RateLimitResponse, Buckets)
  {
    var windowBuckets := WindowBuckets(config.windowSeconds);
    var minBucket := MinBucket(config, currentBucket);
    var kept := Kept(b, windowBuckets, minBucket);
    var used := InWindow(kept, minBucket);
    if used < config.requestsPerWindow then
      (RateLimitResponse(true, config.requestsPerWindow - used - 1, None), Increment(kept, currentBucket))
    else
      (RateLimitResponse(false, 0, Some(RetryAfter())), kept)
  }

  /** `Decide`, read off for a table whose pruned form and in-window sum
      are already known. */
  lemma DecideFrom(b: Buckets, config: Config, currentBucket: int, kept: Buckets, used: nat)
    requires kept == Kept(b, WindowBuckets(config.windowSeconds), MinBucket(config, currentBucket))
    requires used == InWindow(kept, MinBucket(config, currentBucket))
    ensures used < config.requestsPerWindow ==>
      Decide(b, config, currentBucket) == (RateLimitResponse(true, config.requestsPerWindow - used - 1, None), Increment(kept, currentBucket))
    ensures config.requestsPerWindow <= used ==>
      Decide(b, config, currentBucket) == (RateLimitResponse(false, 0, Some(RetryAfter())), kept)
  {
  }

  /** Re-storing an entry that was read, possibly after inserting an empty
      one first, is a single update of the original map. */
  lemma StoreAfterGetOrInsert(m: map<string, Buckets>, entered: map<string, Buckets>, key: string, b: Buckets)
    requires entered == m || entered == m[key := map[]]
    ensures entered[key := b] == m[key := b]
  {
    var l, r := entered[key := b], m[key := b];
    assert forall k :: k in l <==> k in r;
    assert forall k :: k in l ==> l[k] == r[k];
  }

  /** The optional pruning pass never changes the in-window sum. */
  lemma KeptKeepsInWindow(b: Buckets, windowBuckets: int, minBucket: int)
    ensures InWindow(Kept(b, windowBuckets, minBucket), minBucket) == InWindow(b, minBucket)
  {
    if |b| > windowBuckets + 3 {
      PruneKeepsInWindow(b, minBucket);
    }
  }

  /** Every response has the documented shape: `remaining` is never
      negative, and `retry_after` is present exactly when the request is
      rejected, and then it is 1. */
  lemma ResponseShape(b: Buckets, config: Config, currentBucket: int)
    ensures var r := Decide(b, config, currentBucket).0;
      && 0 <= r.remaining
      && (r.allowed ==> r.remaining < config.requestsPerWindow && r.retryAfter == None)
      && (!r.allowed ==> r.remaining == 0 && r.retryAfter == Some(1))
  {
  }

  /** A request is allowed exactly when the stored buckets after
      `current_bucket - window_buckets` hold fewer requests than the quota;
      `remaining` is then what is left of the quota after this request. */
  lemma AllowedIffUnderQuota(b: Buckets, config: Config, currentBucket: int)
    ensures Decide(b, config, currentBucket).0.allowed <==>
      InWindow(b, MinBucket(config, currentBucket)) < config.requestsPerWindow
    ensures Decide(b, config, currentBucket).0.allowed ==>
      Decide(b, config, currentBucket).0.remaining
        == config.requestsPerWindow - InWindow(b, MinBucket(config, currentBucket)) - 1
  {
    var windowBuckets := WindowBuckets(config.windowSeconds);
    var minBucket := MinBucket(config, currentBucket);
    var kept := Kept(b, windowBuckets, minBucket);
    var used := InWindow(kept, minBucket);
    KeptKeepsInWindow(b, windowBuckets, minBucket);
    DecideFrom(b, config, currentBucket, kept, used);
    if used < config.requestsPerWindow {
      assert Decide(b, config, currentBucket).0 == RateLimitResponse(true, config.requestsPerWindow - used - 1, None);
    } else {
      assert !Decide(b, config, currentBucket).0.allowed;
    }
  }

  /** What a decision does to the key's table: no bucket other than the
      current one changes its count, a rejection changes no count at all, a
      bucket disappears only if it is stale and the table was over-full, and
      an allowed request adds exactly one to the current bucket (which starts
      from zero if it was absent or pruned). */
  lemma DecideFrame(b: Buckets, config: Config, currentBucket: int)
    ensures var windowBuckets := WindowBuckets(config.windowSeconds);
      var minBucket := MinBucket(config, currentBucket);
      var r, nb := Decide(b, config, currentBucket).0, Decide(b, config, currentBucket).1;
      && (forall k :: k in nb && (k != currentBucket || !r.allowed) ==> k in b && nb[k] == b[k])
      && (forall k :: k in b && k !in nb ==> k <= minBucket && |b| > windowBuckets + 3)
      && (r.allowed ==>
            && currentBucket in nb
            && nb[currentBucket] == 1 + (if currentBucket in Kept(b, windowBuckets, minBucket) then b[currentBucket] else 0))
  {
  }

  /** The quota invariant: if a key's table holds at most the quota inside
      the window of an earlier decision, it still does after a decision in
      the same or a later bucket, under an unchanged window. */
  lemma DecideKeepsQuota(b: Buckets, config: Config, previousBucket: int, currentBucket: int)
    requires previousBucket <= currentBucket
    requires InWindow(b, MinBucket(config, previousBucket)) <= config.requestsPerWindow
    ensures InWindow(Decide(b, config, currentBucket).1, MinBucket(config, currentBucket))
            <= config.requestsPerWindow
  {
    var windowBuckets := WindowBuckets(config.windowSeconds);
    var minBucket := MinBucket(config, currentBucket);
    var kept := Kept(b, windowBuckets, minBucket);
    KeptKeepsInWindow(b, windowBuckets, minBucket);
    DecideFrom(b, config, currentBucket, kept, InWindow(kept, minBucket));
    InWindowAntitone(b, MinBucket(config, previousBucket), minBucket);
    if InWindow(kept, minBucket) < config.requestsPerWindow {
      if currentBucket > minBucket {
        IncrementInWindow(kept, currentBucket, minBucket);
      } else {
        InWindowOnlyRecent(Increment(kept, currentBucket), kept, minBucket);
      }
    }
  }

  /** Once the window has moved past every stored bucket, nothing counts
      against the quota and the next request is allowed. */
  lemma ExpiredWindowAllows(b: Buckets, config: Config, currentBucket: int)
    requires 1 <= config.requestsPerWindow
    requires forall k :: k in b ==> k <= MinBucket(config, currentBucket)
    ensures Decide(b, config, currentBucket).0 == RateLimitResponse(true, config.requestsPerWindow - 1, None)
  {
    var minBucket := MinBucket(config, currentBucket);
    assert forall k :: k in b ==> k <= minBucket;
    InWindowAllExpired(b, minBucket);
    AllowedIffUnderQuota(b, config, currentBucket);
  }

  /** The table of a key that has been allowed `n` times, all in bucket `c`. */
  function OneBucket(c: int, n: nat): Buckets
  {
    if n == 0 then map[] else map[c := n]
  }

  /** Back-to-back requests in one bucket: with `n` requests already counted,
      the next is allowed with `remaining = quota - n - 1` while `n` is below
      the quota, and rejected with `retry_after = 1` from then on. */
  lemma SameBucketStep(config: Config, c: int, n: nat)
    requires 1 <= config.windowSeconds
    ensures n < config.requestsPerWindow ==>
      Decide(OneBucket(c, n), config, c) == (RateLimitResponse(true, config.requestsPerWindow - n - 1, None), OneBucket(c, n + 1))
    ensures config.requestsPerWindow <= n ==>
      Decide(OneBucket(c, n), config, c) == (RateLimitResponse(false, 0, Some(1)), OneBucket(c, n))
  {
    var b := OneBucket(c, n);
    var minBucket := MinBucket(config, c);
    if n == 0 {
      assert |b| == 0;
    } else {
      SingleBucketInWindow(c, n, minBucket);
      assert |b| == 1;
    }
    assert Kept(b, WindowBuckets(config.windowSeconds), minBucket) == b;
    DecideFrom(b, config, c, b, n);
    SameTable(Increment(b, c), OneBucket(c, n + 1));
  }

  /** A later clock reading never falls in an earlier bucket. */
  lemma BucketIndexMonotone(t1: real, t2: real)
    requires t1 <= t2
    ensures BucketIndex(t1) <= BucketIndex(t2)
  {
  }

  /** The in-window sum of line 59: the counts of the buckets after
      `minBucket`, visited one bucket at a time. */
  method CurrentRequests(buckets: Buckets, minBucket: int) returns (total: nat)
    ensures total == InWindow(buckets, minBucket)
  {
    total := 0;
    var rest := buckets;
    while |rest| != 0
      invariant total + InWindow(rest, minBucket) == InWindow(buckets, minBucket)
      decreases |rest|
    {
      NonEmptyHasBucket(rest);
      var k :| k in rest;
      InWindowRemove(rest, k, minBucket);
      if k > minBucket {
        total := total + rest[k];
      }
      rest := rest - {k};
    }
  }

  /** The body of `check_request` under the key's lock: prune the table if
      it is over-full, sum the in-window counts, then either count the
      request in the current bucket or reject it. */
  method DecideOnTable(buckets: Buckets, config: Config, currentBucket: int)
    returns (response: RateLimitResponse, updated: Buckets)
    ensures (response, updated) == Decide(buckets, config, currentBucket)
  {
    var windowBuckets := WindowBuckets(config.windowSeconds);
    var minBucket := MinBucket(config, currentBucket);
    updated := buckets;
    if |updated| > windowBuckets + 3 {
      updated := Prune(updated, minBucket);
    }
    ghost var kept := updated;
    var currentRequests := CurrentRequests(updated, minBucket);
    DecideFrom(buckets, config, currentBucket, kept, currentRequests);
    if currentRequests < config.requestsPerWindow {
      updated := Increment(updated, currentBucket);
      response := RateLimitResponse(true, config.requestsPerWindow - currentRequests - 1, None);
    } else {
      response := RateLimitResponse(false, 0, Some(RetryAfter()));
    }
  }

  class SlidingWindowAlgorithm {
    /** `client_data`: client key -> that key's bucket table. */
    var clientData: map<string, Buckets>

    constructor ()
      ensures clientData == map[]
    {
      clientData := map[];
    }

    /** `_get_client_data`: the key's table, inserting an empty one on first
        use; existing entries are never replaced or removed. */
    method GetClientData(clientKey: string) returns (buckets: Buckets)
      modifies this
      ensures clientKey in old(clientData) ==> clientData == old(clientData) && buckets == old(clientData)[clientKey]
      ensures clientKey !in old(clientData) ==> clientData == old(clientData)[clientKey := map[]] && buckets == map[]
    {
      if clientKey in clientData {
        buckets := clientData[clientKey];
      } else {
        clientData := clientData[clientKey := map[]];
        buckets := map[];
      }
    }

    /** `_cleanup_expired_buckets` (never called by `check_request`): deletes,
        one by one, every bucket at or before `current_bucket - window_buckets`. */
    method CleanupExpiredBuckets(buckets: Buckets, currentBucket: int, windowBuckets: int) returns (r: Buckets)
      ensures r == Prune(buckets, currentBucket - windowBuckets)
    {
      var minBucket := currentBucket - windowBuckets;
      var keysToDelete := set k | k in buckets && k <= minBucket;
      r := buckets;
      while keysToDelete != {}
        invariant forall k :: k in r <==> k in buckets && (k > minBucket || k in keysToDelete)
        invariant forall k :: k in r ==> r[k] == buckets[k]
        invariant keysToDelete <= buckets.Keys
        decreases keysToDelete
      {
        NonEmptyHasElement(keysToDelete);
        var k :| k in keysToDelete;
        r := r - {k};
        keysToDelete := keysToDelete - {k};
      }
      SameTable(r, Prune(buckets, minBucket));
    }

    /** `check_request`: fetch (or create) the key's table, decide on it
        and store the table back. Only the entry of `clientKey` changes. */
    method CheckRequest(clientKey: string, config: Config, currentTime: real) returns (response: RateLimitResponse)
      modifies this
      ensures var step := Decide(Lookup(old(clientData), clientKey), config, BucketIndex(currentTime));
        response == step.0 && clientData == old(clientData)[clientKey := step.1]
    {
      var currentBucket := BucketIndex(currentTime);
      var buckets := GetClientData(clientKey);
      ghost var entered := clientData;
      response, buckets := DecideOnTable(buckets, config, currentBucket);
      StoreAfterGetOrInsert(old(clientData), entered, clientKey, buckets);
      clientData := clientData[clientKey := buckets];
    }
  }
}

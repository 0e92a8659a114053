/** One client key's table of time buckets: bucket index -> request count,
    and the in-window sum the admission rule is based on. */
module BucketTable {

  type Buckets = map<int, nat>

  /** What bucket `k` contributes to the sum of the buckets after `minBucket`. */
  function Weight(b: Buckets, k: int, minBucket: int): nat
    requires k in b
  {
    if k > minBucket then b[k] else 0
  }

  /** A set with no element is the empty set. */
  lemma NoElementIsEmpty(s: set<int>)
    requires forall k :: k !in s
    ensures s == {}
  {
    assert forall k :: k !in s;
  }

  /** A non-empty set has an element. */
  lemma NonEmptyHasElement(s: set<int>)
    requires s != {}
    ensures exists k :: k in s
  {
    if forall k :: k !in s {
      NoElementIsEmpty(s);
      assert false;
    }
  }

  /** A non-empty table has a bucket. */
  lemma NonEmptyHasBucket(b: Buckets)
    requires |b| != 0
    ensures exists k :: k in b
  {
    var keys := b.Keys;
    assert |keys| == |b|;
    NonEmptyHasElement(keys);
    var k :| k in keys;
    assert k in b;
  }

  /** Some bucket of a non-empty table. */
  ghost function AnyBucket(b: Buckets): (k: int)
    requires |b| != 0
    ensures k in b
  {
    NonEmptyHasBucket(b);
    var k :| k in b;
    k
  }

  /** The number of requests recorded in the buckets whose index is strictly
      greater than `minBucket`. */
  ghost function InWindow(b: Buckets, minBucket: int): nat
    decreases |b|
  {
    if |b| == 0 then 0
    else
      var k := AnyBucket(b);
      Weight(b, k, minBucket) + InWindow(b - {k}, minBucket)
  }

  /** The buckets whose index is strictly greater than `minBucket`, with
      their counts. */
  function Prune(b: Buckets, minBucket: int): Buckets
  {
    map k | k in b && k > minBucket :: b[k]
  }

  /** `buckets[c] += 1`, or `buckets[c] = 1` when bucket `c` is absent. */
  function Increment(b: Buckets, c: int): Buckets
  {
    b[c := if c in b then b[c] + 1 else 1]
  }

  /** The sum does not depend on the order in which buckets are visited:
      any one bucket can be taken out first. */
  lemma {:induction false} InWindowRemove(b: Buckets, k: int, minBucket: int)
    requires k in b
    ensures InWindow(b, minBucket) == Weight(b, k, minBucket) + InWindow(b - {k}, minBucket)
    decreases |b|
  {
    var j := AnyBucket(b);
    if j != k {
      var bj, bk := b - {j}, b - {k};
      assert k in bj && j in bk;
      InWindowRemove(bj, k, minBucket);
      InWindowRemove(bk, j, minBucket);
      assert bj - {k} == bk - {j};
      assert Weight(bj, k, minBucket) == Weight(b, k, minBucket);
      assert Weight(bk, j, minBucket) == Weight(b, j, minBucket);
    }
  }

  /** Two tables with the same buckets and the same counts are equal. */
  lemma SameTable(b: Buckets, c: Buckets)
    requires forall k :: k in b <==> k in c
    requires forall k :: k in b ==> b[k] == c[k]
    ensures b == c
  {
    assert forall k :: k in b <==> k in c;
    assert forall k :: k in b ==> b[k] == c[k];
  }

  /** Pruning removes exactly the stale buckets, so it never changes the
      in-window sum. */
  lemma {:induction false} PruneKeepsInWindow(b: Buckets, minBucket: int)
    ensures InWindow(Prune(b, minBucket), minBucket) == InWindow(b, minBucket)
    decreases |b|
  {
    var p := Prune(b, minBucket);
    if |b| != 0 {
      var k := AnyBucket(b);
      var rest := b - {k};
      var q := Prune(rest, minBucket);
      InWindowRemove(b, k, minBucket);
      PruneKeepsInWindow(rest, minBucket);
      if k > minBucket {
        InWindowRemove(p, k, minBucket);
        SameTable(p - {k}, q);
      } else {
        SameTable(p, q);
      }
    } else {
      SameTable(p, map[]);
    }
  }

  /** Two tables that agree on every bucket after `minBucket` have the same
      in-window sum: buckets at or before `minBucket` never count. */
  lemma InWindowOnlyRecent(b: Buckets, c: Buckets, minBucket: int)
    requires forall k :: k > minBucket ==> (k in b <==> k in c)
    requires forall k :: k > minBucket && k in b ==> b[k] == c[k]
    ensures InWindow(b, minBucket) == InWindow(c, minBucket)
  {
    PruneKeepsInWindow(b, minBucket);
    PruneKeepsInWindow(c, minBucket);
    assert Prune(b, minBucket) == Prune(c, minBucket);
  }

  /** Counting a request in a bucket inside the window raises the sum by one. */
  lemma IncrementInWindow(b: Buckets, c: int, minBucket: int)
    requires c > minBucket
    ensures InWindow(Increment(b, c), minBucket) == InWindow(b, minBucket) + 1
  {
    var r := Increment(b, c);
    InWindowRemove(r, c, minBucket);
    if c in b {
      InWindowRemove(b, c, minBucket);
      InWindowOnlyRecent(r - {c}, b - {c}, minBucket);
    } else {
      assert r - {c} == b;
    }
  }

  /** Moving the window forward can only lower the sum. */
  lemma {:induction false} InWindowAntitone(b: Buckets, lo: int, hi: int)
    requires lo <= hi
    ensures InWindow(b, hi) <= InWindow(b, lo)
    decreases |b|
  {
    if |b| != 0 {
      var k := AnyBucket(b);
      InWindowRemove(b, k, lo);
      InWindowRemove(b, k, hi);
      InWindowAntitone(b - {k}, lo, hi);
    }
  }

  /** A table whose buckets are all at or before `minBucket` has nothing in
      the window. */
  lemma {:induction false} InWindowAllExpired(b: Buckets, minBucket: int)
    requires forall k :: k in b ==> k <= minBucket
    ensures InWindow(b, minBucket) == 0
    decreases |b|
  {
    if |b| != 0 {
      var k := AnyBucket(b);
      InWindowRemove(b, k, minBucket);
      InWindowAllExpired(b - {k}, minBucket);
    }
  }

  /** The sum of a table holding a single bucket. */
  lemma SingleBucketInWindow(c: int, n: nat, minBucket: int)
    ensures InWindow(map[c := n], minBucket) == if c > minBucket then n else 0
  {
    var b := map[c := n];
    InWindowRemove(b, c, minBucket);
    assert b - {c} == map[];
  }
}

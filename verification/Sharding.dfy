/** Splitting the 32-bit hash space into shards (`common.GenerateShards`), in wrapping uint32 arithmetic. */
module Sharding {
  import opened Prelude

  const MAX_UINT32: int := 0xFFFF_FFFF

  type Uint32 = x: int | 0 <= x < 0x1_0000_0000

  datatype Shard = Shard(id: int, min: Uint32, max: Uint32)

  /** `math.MaxUint32 / numShards + 1` in uint32: for one shard it wraps to zero. */
  function BucketSize(numShards: Uint32): Uint32
    requires numShards > 0
  {
    (MAX_UINT32 / numShards + 1) % TWO_32
  }

  /** The `i`-th shard, with every product and sum taken modulo 2^32. */
  function ShardAt(baseId: int, numShards: Uint32, i: nat): Shard
    requires i < numShards
  {
    var lower := (i * BucketSize(numShards)) % TWO_32;
    var upper := (lower + BucketSize(numShards) - 1) % TWO_32;
    Shard(baseId + i, lower, if i == numShards - 1 then MAX_UINT32 else upper)
  }

  /** With zero shards the Go division panics. */
  method GenerateShards(baseId: int, numShards: Uint32) returns (shards: seq<Shard>)
    requires numShards > 0
    ensures |shards| == numShards
    ensures forall i :: 0 <= i < numShards ==> shards[i] == ShardAt(baseId, numShards, i)
    ensures forall i :: 0 <= i < numShards ==> shards[i].id == baseId + i
    ensures forall i, j :: 0 <= i < j < numShards ==> shards[i].id != shards[j].id
    ensures Tiles(shards) <==> Fits(numShards)
  {
    hide Tiles, Fits;
    shards := [];
    var bucketSize := BucketSize(numShards);
    var i := 0;
    while i < numShards
      invariant 0 <= i <= numShards && |shards| == i
      invariant forall k :: 0 <= k < i ==> shards[k] == ShardAt(baseId, numShards, k)
    {
      var lowerBound := (i * bucketSize) % TWO_32;
      var upperBound := (lowerBound + bucketSize - 1) % TWO_32;
      if i == numShards - 1 {
        upperBound := MAX_UINT32;
      }
      shards := shards + [Shard(baseId + i, lowerBound, upperBound)];
      i := i + 1;
    }
    TilesIffFits(baseId, numShards, shards);
  }

  // ---------- Tiling ----------

  /** Non-empty ranges that follow one another without gap or overlap, from 0 to the last hash. */
  ghost predicate Tiles(shards: seq<Shard>) {
    && |shards| > 0
    && shards[0].min == 0
    && shards[|shards| - 1].max == MAX_UINT32
    && (forall i :: 0 <= i < |shards| ==> shards[i].min <= shards[i].max)
    && (forall i :: 0 < i < |shards| ==> shards[i].min == shards[i - 1].max + 1)
  }

  ghost predicate Owns(s: Shard, hash: Uint32) {
    s.min <= hash <= s.max
  }

  /** What tiling is for: every hash belongs to exactly one shard. */
  lemma TilesOwnEveryHashOnce(shards: seq<Shard>, hash: Uint32)
    requires Tiles(shards)
    ensures exists i :: 0 <= i < |shards| && Owns(shards[i], hash)
    ensures forall i, j :: 0 <= i < |shards| && 0 <= j < |shards| && Owns(shards[i], hash) && Owns(shards[j], hash)
                           ==> i == j
  {
    var i := 0;
    while shards[i].max < hash
      invariant 0 <= i < |shards| && shards[i].min <= hash
      decreases |shards| - i
    {
      i := i + 1;
    }
    assert Owns(shards[i], hash);
    forall i, j | 0 <= i < j < |shards| ensures shards[i].max < shards[j].min {
      TilesOrdered(shards, i, j);
    }
  }

  lemma {:induction false} TilesOrdered(shards: seq<Shard>, i: nat, j: nat)
    requires Tiles(shards) && i < j < |shards|
    ensures shards[i].max < shards[j].min
    decreases j
  {
    if i + 1 < j { TilesOrdered(shards, i, j - 1); }
  }

  /** The last bucket begins inside the hash space: a check a caller can make beforehand. */
  predicate Fits(numShards: Uint32)
    requires numShards > 0
  {
    (numShards - 1) * (MAX_UINT32 / numShards + 1) <= MAX_UINT32
  }

  /** While the last bucket begins inside the space, no bound wraps. */
  lemma NoWrap(baseId: int, n: Uint32, i: nat)
    requires n > 1 && Fits(n) && i < n
    ensures var b := MAX_UINT32 / n + 1;
            && BucketSize(n) == b
            && ShardAt(baseId, n, i).min == i * b
            && ShardAt(baseId, n, i).max == if i == n - 1 then MAX_UINT32 else i * b + b - 1
  {
    hide BucketSize, Fits;
    BucketBounds(n);
    FitsBounds(n, i);
    Unwrapped(baseId, n, i, i * BucketSize(n));
  }

  /** The bucket bounds are inside the hash space, as plain products. */
  lemma FitsBounds(n: Uint32, i: nat)
    requires n > 1 && Fits(n) && i < n
    ensures 0 <= i * BucketSize(n) <= MAX_UINT32
    ensures i < n - 1 ==> i * BucketSize(n) + BucketSize(n) <= MAX_UINT32
  {
    hide BucketSize;
    BucketBounds(n);
    var b := BucketSize(n);
    MulMonotone(i, n - 1, b);
    if i < n - 1 {
      MulMonotone(i + 1, n - 1, b);
      Distribute(i, b);
    }
  }

  lemma Distribute(i: nat, b: nat)
    ensures (i + 1) * b == i * b + b && 0 <= i * b
  {
  }

  /** Bounds inside the hash space are left alone by the reduction modulo 2^32. */
  lemma Unwrapped(baseId: int, n: Uint32, i: nat, p: nat)
    requires n > 1 && i < n && p == i * BucketSize(n) && p <= MAX_UINT32
    requires 0 < BucketSize(n) && (i < n - 1 ==> p + BucketSize(n) <= MAX_UINT32)
    ensures ShardAt(baseId, n, i).min == p
    ensures ShardAt(baseId, n, i).max == if i == n - 1 then MAX_UINT32 else p + BucketSize(n) - 1
  {
    hide BucketSize;
  }

  lemma MulMonotone(x: nat, y: nat, b: nat)
    requires x <= y
    ensures x * b <= y * b
  {
  }

  /** The shards tile the hash space if and only if the last bucket begins inside it. */
  lemma TilesIffFits(baseId: int, n: Uint32, shards: seq<Shard>)
    requires n > 0 && |shards| == n
    requires forall i :: 0 <= i < n ==> shards[i] == ShardAt(baseId, n, i)
    ensures Tiles(shards) <==> Fits(n)
  {
    if n == 1 {
      assert shards[0] == ShardAt(baseId, 1, 0);
    } else {
      if Fits(n) { FitsTiles(baseId, n, shards); }
      if Tiles(shards) { TilesFits(baseId, n, shards); }
    }
  }

  lemma FitsTiles(baseId: int, n: Uint32, shards: seq<Shard>)
    requires n > 1 && |shards| == n && Fits(n)
    requires forall i :: 0 <= i < n ==> shards[i] == ShardAt(baseId, n, i)
    ensures Tiles(shards)
  {
    var b := MAX_UINT32 / n + 1;
    forall i | 0 <= i < n
      ensures shards[i].min <= shards[i].max && (i > 0 ==> shards[i].min == shards[i - 1].max + 1)
    {
      NoWrap(baseId, n, i);
      if i > 0 {
        NoWrap(baseId, n, i - 1);
        assert i * b == (i - 1) * b + b;
      }
    }
    NoWrap(baseId, n, 0);
  }

  lemma BucketBounds(n: Uint32)
    requires n > 1
    ensures BucketSize(n) == MAX_UINT32 / n + 1 && 1 <= BucketSize(n) < TWO_32
  {
  }

  /** An upper bound that did not wrap below its lower bound did not wrap at all. */
  lemma UpperBound(lower: Uint32, b: Uint32)
    requires b > 0 && lower <= (lower + b - 1) % TWO_32
    ensures (lower + b - 1) % TWO_32 == lower + b - 1
  {
  }

  /** In a tiling each range starts where the buckets before it end, without wrapping. */
  lemma {:induction false} TilesStart(baseId: int, n: Uint32, shards: seq<Shard>, i: nat)
    requires n > 1 && |shards| == n && i < n && Tiles(shards)
    requires forall k :: 0 <= k < n ==> shards[k] == ShardAt(baseId, n, k)
    ensures shards[i].min == i * BucketSize(n)
    decreases i
  {
    hide BucketSize;
    if i > 0 {
      TilesStart(baseId, n, shards, i - 1);
      var b, prev := BucketSize(n), shards[i - 1];
      BucketBounds(n);
      assert prev == ShardAt(baseId, n, i - 1);
      UpperBound(prev.min, b);
      Distribute(i - 1, b);
    }
  }

  lemma TilesFits(baseId: int, n: Uint32, shards: seq<Shard>)
    requires n > 1 && |shards| == n && Tiles(shards)
    requires forall i :: 0 <= i < n ==> shards[i] == ShardAt(baseId, n, i)
    ensures Fits(n)
  {
    hide BucketSize, ShardAt;
    BucketBounds(n);
    TilesStart(baseId, n, shards, n - 1);
  }

  /** Up to 65536 shards always tile the hash space. */
  lemma SmallCountsTile(baseId: int, n: Uint32, shards: seq<Shard>)
    requires 0 < n <= 65536 && |shards| == n
    requires forall i :: 0 <= i < n ==> shards[i] == ShardAt(baseId, n, i)
    ensures Fits(n) && Tiles(shards)
  {
    hide Fits, Tiles;
    SmallCountsFit(n);
    TilesIffFits(baseId, n, shards);
  }

  lemma SmallCountsFit(n: Uint32)
    requires 0 < n <= 65536
    ensures Fits(n)
  {
    var q := MAX_UINT32 / n;
    assert 65535 * n <= MAX_UINT32;
    AtLeast(n, 65535);
    assert q * n <= MAX_UINT32;
    assert (n - 1) * (q + 1) == q * n - q + n - 1;
  }

  lemma AtLeast(n: Uint32, k: nat)
    requires n > 0 && k * n <= MAX_UINT32
    ensures MAX_UINT32 / n >= k
  {
  }

  /** The bound is sharp: with 65537 shards the last one wraps around and covers everything. */
  lemma TooManyShards(baseId: int)
    ensures !Fits(65537)
    ensures ShardAt(baseId, 65537, 65536) == Shard(baseId + 65536, 0, MAX_UINT32)
  {
    assert MAX_UINT32 / 65537 == 65535;
  }

  /** Above that it depends on the count: every count that divides 2^32, so every power of two, fits. */
  lemma DivisorsFit(n: Uint32)
    requires n > 0 && TWO_32 % n == 0
    ensures Fits(n)
  {
    var k := TWO_32 / n;
    assert k * n == TWO_32;
    if n > 1 {
      OneLess(n, k);
      assert (n - 1) * k == TWO_32 - k;
    }
  }

  /** Dividing one less than a multiple. */
  lemma OneLess(n: Uint32, k: nat)
    requires n > 1 && k * n == TWO_32
    ensures MAX_UINT32 / n == k - 1
  {
    assert k > 0;
    assert MAX_UINT32 == (k - 1) * n + (n - 1) by {
      assert (k - 1) * n == k * n - n;
    }
    QuotientOf(k - 1, n - 1, n);
  }

  lemma QuotientOf(q: nat, r: nat, n: nat)
    requires r < n
    ensures (q * n + r) / n == q
  {
    var x := q * n + r;
    var d := x / n;
    assert x == d * n + x % n;
    Distribute(d, n);
    Distribute(q, n);
    if d < q {
      MulMonotone(d + 1, q, n);
    } else if d > q {
      MulMonotone(q + 1, d, n);
    }
  }

  /** So do counts just above the smallest one that fails. */
  lemma SomeLargeCountsFit()
    ensures Fits(65538) && Fits(131072) && Fits(0x8000_0000)
  {
  }

  /** The last shard is no larger than the others, which are all of one size. */
  lemma LastIsSmallest(baseId: int, n: Uint32, i: nat)
    requires n > 1 && Fits(n) && i < n - 1
    ensures var s, last := ShardAt(baseId, n, i), ShardAt(baseId, n, n - 1);
            && s.max - s.min + 1 == BucketSize(n)
            && last.max - last.min <= s.max - s.min
  {
    NoWrap(baseId, n, i);
    NoWrap(baseId, n, n - 1);
    var q := MAX_UINT32 / n;
    assert (q + 1) * n > MAX_UINT32;
    assert (n - 1) * (q + 1) + (q + 1) == (q + 1) * n;
  }
}

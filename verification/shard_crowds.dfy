/** The cache as it is, with its own hash and keys that its own shards receive:
    whatever the number of shards, one of them can be filled past its limit. */
module ShardCrowds {
  import opened Domain
  import opened RouteCacheTable
  import opened CacheEviction
  import opened CacheHash
  import opened RouteCacheShard
  import opened CacheLimit

  // ----- more than all can hold -----

  /** Those of the first `n` that go to this place. */
  function Picks(where: nat -> nat, index: nat, n: nat): (r: seq<nat>)
    ensures (forall j | j in r :: j < n && where(j) == index) && Distinct(r)
  {
    if n == 0 then []
    else
      var front := Picks(where, index, n - 1);
      if where(n - 1) == index then front + [n - 1] else front
  }

  /** How many of them go to the first places. */
  function Spread(where: nat -> nat, count: nat, n: nat): nat {
    if count == 0 then 0 else Spread(where, count - 1, n) + |Picks(where, count - 1, n)|
  }

  lemma {:induction false} OneMoreSpread(where: nat -> nat, count: nat, n: nat)
    requires n > 0
    ensures Spread(where, count, n) == Spread(where, count, n - 1) + if where(n - 1) < count then 1 else 0
  {
    if count > 0 { OneMoreSpread(where, count - 1, n); }
  }

  lemma {:induction false} NoneSpread(where: nat -> nat, count: nat)
    ensures Spread(where, count, 0) == 0
  {
    if count > 0 { NoneSpread(where, count - 1); }
  }

  lemma {:induction false} AllSpread(where: nat -> nat, shards: nat, n: nat)
    requires forall j :: where(j) < shards
    ensures Spread(where, shards, n) == n
  {
    if n == 0 {
      NoneSpread(where, shards);
    } else {
      AllSpread(where, shards, n - 1);
      OneMoreSpread(where, shards, n);
    }
  }

  /** Among more than all places may hold together, one gets more than it may. */
  method FindCrowded(where: nat -> nat, shards: nat, limit: nat, n: nat) returns (index: nat)
    requires shards > 0 && shards * limit < n && forall j :: where(j) < shards
    ensures index < shards && |Picks(where, index, n)| > limit
  {
    index := 0;
    AllSpread(where, shards, n);
    while |Picks(where, index, n)| <= limit
      invariant index < shards && Spread(where, index, n) <= index * limit
      decreases shards - index
    {
      assert Spread(where, index + 1, n) <= (index + 1) * limit;
      assert index + 1 != shards;
      index := index + 1;
    }
  }

  // ----- tables of up to two to the fourteenth slots -----

  lemma {:induction false} Regroup(r: nat, half: nat)
    ensures r * (2 * half) == (2 * r) * half
  {
  }

  lemma {:induction false} PowerIsPositive(e: nat)
    ensures Power(e) > 0
  {
    if e > 0 { PowerIsPositive(e - 1); }
  }

  /** Doubling up to a value no greater than a power stops at a divisor of it. */
  lemma {:induction false} DoublesInto(r: nat, value: nat, e: nat) returns (m: nat)
    requires 0 < r && value <= r * Power(e)
    ensures r * Power(e) == Doubled(r, value) * m && m > 0
    decreases value - r
  {
    assert Power(0) == 1;
    if r < value {
      assert e > 0;
      Regroup(r, Power(e - 1));
      m := DoublesInto(2 * r, value, e - 1);
    } else {
      PowerIsPositive(e);
      m := Power(e);
    }
  }

  lemma {:induction false} Fourteen()
    ensures Power(14) == LOW
  {
    assert Power(4) == 16;
    assert Power(8) == 256;
    assert Power(12) == 4096;
  }

  lemma {:induction false} SizeDivides(limit: nat) returns (m: nat)
    requires SCAN_LIMIT < 2 * limit <= LOW
    ensures LOW == TableSize(2 * limit) * m
  {
    Fourteen();
    m := DoublesInto(1, 2 * limit, 14);
  }

  lemma {:induction false} LowBitsDecide(x: nat, n: nat, m: nat, t: nat)
    requires t < n && x % LOW == t && LOW == n * m
    ensures x % n == t
  {
    assert x == x / LOW * (n * m) + t;
    Reorder(x / LOW, n, m);
    ModuloIs(x, n, x / LOW * m, t);
  }

  lemma {:induction false} Reorder(a: nat, b: nat, c: nat)
    ensures a * (b * c) == (a * c) * b
  {
  }

  // ----- the keys -----

  /** The key of this departure whose probe starts just beyond the scan's reach. */
  function BeyondKey(bucket: nat): CacheKey { KeyFor(SCAN_LIMIT, if bucket <= INT64_MAX then bucket else 0) }

  function OwnHash(): CacheKey -> nat { (k: CacheKey) => HashKey(k) }

  /** The shard a key goes to. */
  function ShardIndex(key: CacheKey, shards: nat): nat
    requires shards > 0
  {
    HashKey(key) % shards
  }

  function ShardOf(shards: nat): nat -> nat
    requires shards > 0
  {
    (bucket: nat) => ShardIndex(BeyondKey(bucket), shards)
  }

  function KeysAt(buckets: seq<nat>): (r: seq<CacheKey>)
    ensures |r| == |buckets| && forall i | 0 <= i < |buckets| :: r[i] == BeyondKey(buckets[i])
  {
    seq(|buckets|, i requires 0 <= i < |buckets| => BeyondKey(buckets[i]))
  }

  lemma {:induction false} BucketOf(bucket: nat)
    requires bucket <= INT64_MAX
    ensures BeyondKey(bucket).departureBucket == bucket
  {
  }

  lemma {:induction false} DifferentKeys(a: nat, b: nat)
    requires a <= INT64_MAX && b <= INT64_MAX && a != b
    ensures BeyondKey(a) != BeyondKey(b)
  {
    BucketOf(a);
    BucketOf(b);
  }

  lemma {:induction false} BeyondHome(bucket: nat, n: nat, m: nat)
    requires SCAN_LIMIT < n && LOW == n * m
    ensures OwnHash()(BeyondKey(bucket)) % n == SCAN_LIMIT
  {
    EveryHomeHasKey(SCAN_LIMIT, if bucket <= INT64_MAX then bucket else 0);
    LowBitsDecide(HashKey(BeyondKey(bucket)), n, m, SCAN_LIMIT);
  }

  lemma {:induction false} KeysDiffer(buckets: seq<nat>, i: nat, j: nat)
    requires Distinct(buckets) && (forall b | b in buckets :: b <= INT64_MAX) && i < j < |buckets|
    ensures KeysAt(buckets)[i] != KeysAt(buckets)[j]
  {
    assert buckets[i] in buckets && buckets[j] in buckets;
    DifferentKeys(buckets[i], buckets[j]);
  }

  /** The keys of different departures crowd a shard. */
  lemma {:induction false} DeparturesCrowd(limit: nat, buckets: seq<nat>)
    requires SCAN_LIMIT < 2 * limit <= LOW && |buckets| > limit
    requires Distinct(buckets) && forall b | b in buckets :: b <= INT64_MAX
    ensures var keys := KeysAt(buckets); Crowd(OwnHash(), limit, keys[..limit], keys[limit])
  {
    var n, keys := TableSize(2 * limit), KeysAt(buckets);
    var m := SizeDivides(limit);
    RoomForCrowd(limit);
    forall i | 0 <= i < limit ensures OwnHash()(keys[..limit][i]) % n == SCAN_LIMIT && keys[i] != keys[limit] {
      BeyondHome(buckets[i], n, m);
      KeysDiffer(buckets, i, limit);
    }
    forall i, j | 0 <= i < j < limit ensures keys[..limit][i] != keys[..limit][j] {
      KeysDiffer(buckets, i, j);
    }
  }

  lemma {:induction false} AllGoThere(shards: nat, buckets: seq<nat>, index: nat, k: CacheKey)
    requires shards > 0 && (forall b | b in buckets :: ShardOf(shards)(b) == index) && k in KeysAt(buckets)
    ensures ShardIndex(k, shards) == index
  {
    var i :| 0 <= i < |buckets| && KeysAt(buckets)[i] == k;
    assert buckets[i] in buckets;
  }

  lemma {:induction false} AllShardsCount(shards: nat)
    requires shards > 0
    ensures forall bucket :: ShardOf(shards)(bucket) < shards
  {
  }

  method CrowdedShard(shards: nat, limit: nat, n: nat) returns (index: nat)
    requires shards > 0 && shards * limit < n
    ensures index < shards && |Picks(ShardOf(shards), index, n)| > limit
  {
    AllShardsCount(shards);
    index := FindCrowded(ShardOf(shards), shards, limit, n);
  }

  /** Fills a shard with keys that go there, past its limit. */
  method FillShard(ghost shards: nat, where: nat -> nat, limit: nat, index: nat, n: nat) returns (shard: Shard)
    requires shards > 0 && where == ShardOf(shards) && SCAN_LIMIT < 2 * limit <= LOW
    requires n <= INT64_MAX && |Picks(where, index, n)| > limit
    ensures shard.Valid() && shard.limit == limit && shard.hash == OwnHash() && shard.entries > shard.limit
    ensures forall key | key in shard.Map() :: ShardIndex(key, shards) == index
  {
    var buckets := Picks(where, index, n);
    DeparturesCrowd(limit, buckets);
    var keys := KeysAt(buckets);
    shard := PassTheLimit(limit, OwnHash(), keys[..limit], keys[limit]);
    forall key | key in shard.Map() ensures ShardIndex(key, shards) == index {
      assert key in keys[..limit] + [keys[limit]];
      AllGoThere(shards, buckets, index, key);
    }
  }

  /** With any number of shards and any limit of 33 to 8192 entries for each, the
      cache has a shard that keys of its own take past the limit. */
  method PassOwnLimit(shards: nat, limit: nat) returns (index: nat, shard: Shard)
    requires shards > 0 && shards * limit < INT64_MAX && SCAN_LIMIT < 2 * limit <= LOW
    ensures index < shards && shard.Valid() && shard.limit == limit && shard.hash == OwnHash() && shard.entries > shard.limit
    ensures forall key | key in shard.Map() :: ShardIndex(key, shards) == index
  {
    var n := shards * limit + 1;
    index := CrowdedShard(shards, limit, n);
    shard := FillShard(shards, ShardOf(shards), limit, index, n);
  }
}

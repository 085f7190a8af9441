/** The limit on a shard's entries: it holds while the table is no longer than
    the eviction scan, and can be passed as soon as it is longer. */
module CacheLimit {
  import opened Domain
  import opened RouteCacheTable
  import opened CacheEviction
  import opened RouteCacheShard

  /** A table no longer than the scan always has something to evict, if anything at all. */
  lemma {:induction false} SmallTableMeets(s: Table, hand: nat)
    requires 0 < |s| <= SCAN_LIMIT && hand < |s| && OccupiedCount(s) > 0
    ensures Meets(s, hand, SCAN_LIMIT)
  {
    CountBounds(s);
    var i :| 0 <= i < |s| && s[i].occupied;
    var o := EverySlotSoon(s, hand, i);
    assert s[Scanned(s, hand, o)].occupied;
  }

  /** Inserts into a shard whose table is no longer than the scan: the limit holds. */
  method InsertWithinLimit(shard: Shard, key: CacheKey, estimate: RouteEstimate, now: int)
    requires shard.Valid() && shard.slots.Length <= SCAN_LIMIT && shard.entries <= shard.limit
    modifies shard`hand, shard`entries, shard`latest, shard.slots
    ensures shard.Valid() && shard.entries <= shard.limit
  {
    if shard.entries > 0 {
      SmallTableMeets(shard.slots[..], shard.hand);
    }
    ghost var gone := shard.Insert(key, estimate, now);
  }

  // ----- longer tables -----

  /** As many different keys as the shard may hold, and one more, whose probes
      start just beyond the scan's reach from the first slot and pile up there. */
  predicate Crowd(hash: CacheKey -> nat, limit: nat, keys: seq<CacheKey>, last: CacheKey)
    requires limit > 0
  {
    var n := TableSize(2 * limit);
    && n > 0 && |keys| == limit && Distinct(keys) && last !in keys
    && forall i | 0 <= i < limit :: SCAN_LIMIT <= hash(keys[i]) % n <= SCAN_LIMIT + i
  }

  lemma {:induction false} DoubledBounds(r: nat, value: nat)
    requires r > 0
    ensures value <= Doubled(r, value) && r <= Doubled(r, value)
    decreases value - r
  {
    if r < value {
      DoubledBounds(2 * r, value);
    }
  }

  /** The table has room for the crowd. */
  lemma {:induction false} RoomForCrowd(limit: nat)
    requires 2 * limit > SCAN_LIMIT
    ensures SCAN_LIMIT + limit <= TableSize(2 * limit)
  {
    DoubledBounds(1, 2 * limit);
    if limit <= 64 { SizeIs(limit); }
  }

  lemma {:induction false} SizeIs(limit: nat)
    requires SCAN_LIMIT < 2 * limit <= 256
    ensures TableSize(2 * limit) == if limit <= 64 then 128 else 256
  {
    var value := 2 * limit;
    assert Doubled(1, value) == Doubled(2, value) == Doubled(4, value) == Doubled(8, value);
    assert Doubled(8, value) == Doubled(16, value) == Doubled(32, value) == Doubled(64, value) == Doubled(128, value);
    assert Doubled(128, value) == if limit <= 64 then 128 else Doubled(256, value);
    assert Doubled(256, value) == 256;
  }

  /** The keys fill the slots from the scan's reach on, in order, and nothing else is in use. */
  ghost predicate Piled(s: Table, keys: seq<CacheKey>) {
    && SCAN_LIMIT + |keys| <= |s|
    && (forall j | 0 <= j < |keys| :: Holds(s, SCAN_LIMIT + j, keys[j]))
    && forall j | 0 <= j < |s| && !(SCAN_LIMIT <= j < SCAN_LIMIT + |keys|) :: Free(s[j])
  }

  /** The next slot is the only one fit for a new key whose probe starts in the pile. */
  lemma {:induction false} TopOfPile(s: Table, home: CacheKey -> nat, keys: seq<CacheKey>, key: CacheKey, index: nat)
    requires Piled(s, keys) && SCAN_LIMIT + |keys| < |s| && key !in keys
    requires SCAN_LIMIT <= home(key) <= SCAN_LIMIT + |keys| && FitFor(s, home, key, index)
    ensures index == SCAN_LIMIT + |keys|
  {
    var top, h := SCAN_LIMIT + |keys|, home(key);
    forall j | SCAN_LIMIT <= j < top ensures s[j].occupied && s[j].key != key {
      assert Holds(s, SCAN_LIMIT + (j - SCAN_LIMIT), keys[j - SCAN_LIMIT]);
    }
    assert Free(s[top]) && At(h, top - h, |s|) == top;
  }

  lemma {:induction false} PileGrows(s: Table, keys: seq<CacheKey>, key: CacheKey, estimate: RouteEstimate)
    requires Piled(s, keys) && SCAN_LIMIT + |keys| < |s|
    ensures Piled(Written(s, SCAN_LIMIT + |keys|, key, estimate, 0), keys + [key])
  {
    var t, more := Written(s, SCAN_LIMIT + |keys|, key, estimate, 0), keys + [key];
    forall j | 0 <= j < |more| ensures Holds(t, SCAN_LIMIT + j, more[j]) {
      if j < |keys| { assert Holds(s, SCAN_LIMIT + j, keys[j]); }
    }
  }

  /** The keys are in place and nothing else is. */
  ghost predicate Filled(shard: Shard, limit: nat, hash: CacheKey -> nat, keys: seq<CacheKey>)
    reads shard, shard.slots
  {
    && shard.Valid() && shard.limit == limit && shard.hash == hash && shard.slots.Length == TableSize(2 * limit)
    && shard.entries == |keys| && shard.hand == 0 && Piled(shard.slots[..], keys)
    && shard.Map().Keys == set k | k in keys
  }

  lemma {:induction false} OneKeyMore(keys: seq<CacheKey>, key: CacheKey)
    ensures (set k | k in keys + [key]) == (set k | k in keys) + {key}
  {
  }

  const ESTIMATE := RouteEstimate(1, 1, true)

  method FillOne(shard: Shard, ghost limit: nat, hash: CacheKey -> nat, ghost keys: seq<CacheKey>, key: CacheKey)
    requires |keys| < limit && 2 * limit > SCAN_LIMIT && Filled(shard, limit, hash, keys) && key !in keys
    requires SCAN_LIMIT <= hash(key) % TableSize(2 * limit) <= SCAN_LIMIT + |keys|
    modifies shard`hand, shard`entries, shard`latest, shard.slots
    ensures Filled(shard, limit, hash, keys + [key])
  {
    RoomForCrowd(limit);
    OneKeyMore(keys, key);
    ghost var before, home := shard.slots[..], HomeOf(hash, shard.slots.Length);
    ghost var gone := shard.Insert(key, ESTIMATE, 0);
    ghost var index :| FitFor(before, home, key, index) && shard.slots[..] == Written(before, index, key, ESTIMATE, 0);
    TopOfPile(before, home, keys, key, index);
    PileGrows(before, keys, key, ESTIMATE);
  }

  /** Whatever the hash, a crowd fills the shard without touching the slots the
      scan looks at, so one more key passes the limit. */
  method PassTheLimit(limit: nat, hash: CacheKey -> nat, keys: seq<CacheKey>, last: CacheKey) returns (shard: Shard)
    requires 2 * limit > SCAN_LIMIT && Crowd(hash, limit, keys, last)
    ensures fresh(shard) && shard.Valid() && shard.limit == limit && shard.hash == hash && shard.entries == limit + 1
    ensures shard.Map().Keys == set k | k in keys + [last]
  {
    shard := new Shard(limit, hash);
    RoomForCrowd(limit);
    for i := 0 to limit
      invariant Filled(shard, limit, hash, keys[..i]) && fresh(shard) && fresh(shard.slots)
    {
      assert keys[..i + 1] == keys[..i] + [keys[i]];
      FillOne(shard, limit, hash, keys[..i], keys[i]);
    }
    assert keys[..limit] == keys;
    OneKeyMore(keys, last);
    NothingInReach(shard.slots[..]);
    ghost var gone := shard.Insert(last, ESTIMATE, 0);
  }

  lemma {:induction false} NothingInReach(s: Table)
    requires |s| >= SCAN_LIMIT && forall j | 0 <= j < SCAN_LIMIT :: Free(s[j])
    ensures !Meets(s, 0, SCAN_LIMIT)
  {
    forall o | 0 <= o < SCAN_LIMIT ensures !s[Scanned(s, 0, o)].occupied {
      ModuloIs(o, |s|, 0, o);
    }
  }
}

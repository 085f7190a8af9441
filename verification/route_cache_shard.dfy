/** One shard of the route cache, updated in place, and the map it refines. */
module RouteCacheShard {
  import opened Domain
  import opened RouteCacheTable
  import opened CacheEviction

  /** Six hours of the steady clock, in nanoseconds. */
  const FRESH_TTL := 21600 * 1_000_000_000

  /** Where a key's probe starts. */
  function HomeOf(hash: CacheKey -> nat, n: nat): CacheKey -> nat
    requires n > 0
  {
    k => hash(k) % n
  }

  function Age(insertedAt: int, now: int): int { if now >= insertedAt then now - insertedAt else 0 }

  /** What a lookup answers from the map: a fresh entry, or one past its
      freshness that may still stand in for an unreachable provider. */
  function Answer(contents: map<CacheKey, Entry>, key: CacheKey, now: int, stale: bool): Option<RouteEstimate> {
    if key !in contents then None
    else
      var age := Age(contents[key].insertedAt, now);
      if stale then if FRESH_TTL < age <= STALE_MAX_AGE then Some(contents[key].estimate) else None
      else if age <= FRESH_TTL then Some(contents[key].estimate) else None
  }

  /** An entry answers for six hours as fresh and then, until it is a day old, as
      stale; one from the future is fresh.  Times are in nanoseconds. */
  lemma {:induction false} AnswersByAge(contents: map<CacheKey, Entry>, key: CacheKey, now: int)
    ensures key !in contents ==> forall stale :: Answer(contents, key, now, stale).None?
    ensures key in contents ==>
      var e := contents[key];
      && Answer(contents, key, now, false)
         == (if now <= e.insertedAt + 21_600_000_000_000 then Some(e.estimate) else None)
      && Answer(contents, key, now, true)
         == (if e.insertedAt + 21_600_000_000_000 < now <= e.insertedAt + 86_400_000_000_000 then Some(e.estimate) else None)
  {
  }

  // ----- what every operation keeps, on values -----

  /** Keys are where their probes find them, the count is right, and the map
      holds each key's last insertion. */
  ghost predicate Sound(s: Table, hash: CacheKey -> nat, entries: nat, latest: map<CacheKey, Entry>) {
    && |s| > 0 && TableOk(s, HomeOf(hash, |s|)) && entries == OccupiedCount(s)
    && forall k | k in Contents(s) :: k in latest && latest[k] == Contents(s)[k]
  }

  lemma {:induction false} MarksKeepSound(s: Table, t: Table, hash: CacheKey -> nat, entries: nat, latest: map<CacheKey, Entry>)
    requires Sound(s, hash, entries, latest) && Alike(s, t)
    ensures Sound(t, hash, entries, latest) && Contents(t) == Contents(s)
  {
    AlikeTables(s, t, HomeOf(hash, |s|));
  }

  lemma {:induction false} EvictionKeepsSound(s: Table, i: nat, hash: CacheKey -> nat, entries: nat, latest: map<CacheKey, Entry>)
    requires Sound(s, hash, entries, latest) && i < |s| && s[i].occupied
    ensures entries > 0 && Sound(Evicted(s, i), hash, entries - 1, latest)
    ensures Contents(Evicted(s, i)) == Contents(s) - {s[i].key} && s[i].key in Contents(s)
  {
    CountBounds(s);
    EvictedTable(s, HomeOf(hash, |s|), i);
    InContents(s, i, s[i].key);
  }

  lemma {:induction false} WritingKeepsSound(s: Table, i: nat, hash: CacheKey -> nat, entries: nat, latest: map<CacheKey, Entry>,
                                             key: CacheKey, estimate: RouteEstimate, now: int)
    requires Sound(s, hash, entries, latest) && FitFor(s, HomeOf(hash, |s|), key, i) && estimate.Valid()
    ensures var t := Written(s, i, key, estimate, now);
      && Sound(t, hash, entries + if s[i].occupied then 0 else 1, latest[key := Entry(estimate, now)])
      && Contents(t) == Contents(s)[key := Entry(estimate, now)]
  {
    WrittenTable(s, HomeOf(hash, |s|), i, key, estimate, now);
  }

  class Shard {
    const slots: array<Slot>
    const hash: CacheKey -> nat
    const limit: nat
    var hand: nat
    var entries: nat
    ghost var latest: map<CacheKey, Entry>   // each key's last insertion

    ghost predicate Valid()
      reads this, slots
    {
      0 < 2 * limit <= slots.Length && hand < slots.Length && Sound(slots[..], hash, entries, latest)
    }

    ghost function Map(): map<CacheKey, Entry>
      requires Valid()
      reads this, slots
    {
      Contents(slots[..])
    }

    constructor (limit: nat, hash: CacheKey -> nat)
      requires limit > 0
      ensures Valid() && Map() == map[] && latest == map[] && entries == 0 && hand == 0 && fresh(slots)
      ensures this.limit == limit && this.hash == hash
      ensures slots.Length == TableSize(2 * limit) && forall i | 0 <= i < slots.Length :: slots[i] == EMPTY_SLOT
    {
      var n := NextPowerOfTwo(2 * limit);
      this.limit, this.hash := limit, hash;
      slots := new Slot[n](_ => EMPTY_SLOT);
      hand, entries, latest := 0, 0, map[];
      new;
      CountBounds(slots[..]);
    }

    method FindSlot(key: CacheKey) returns (r: Option<nat>)
      requires Valid()
      ensures if r.Some? then Holds(slots[..], r.value, key) else Absent(slots[..], key)
    {
      ghost var home := HomeOf(hash, slots.Length);
      var start := hash(key) % slots.Length;
      for offset := 0 to slots.Length
        invariant Passed(slots[..], start, key, offset)
      {
        AtIsModulo(start, offset, slots.Length);
        var index := (start + offset) % slots.Length;
        var slot := slots[index];
        if !slot.occupied {
          if !slot.tombstone {
            ProbeDecides(slots[..], home, key, offset);
            return None;
          }
        } else if slot.key == key {
          return Some(index);
        }
      }
      ProbeDecides(slots[..], home, key, slots.Length);
      r := None;
    }

    /** The key's own slot, or the first unused one on its probe. */
    method FindInsertSlot(key: CacheKey) returns (r: Option<nat>)
      requires Valid()
      ensures r.Some? ==> FitFor(slots[..], HomeOf(hash, slots.Length), key, r.value)
      ensures r.None? ==> Absent(slots[..], key) && forall i | 0 <= i < slots.Length :: slots[i].occupied
    {
      ghost var home := HomeOf(hash, slots.Length);
      var start := hash(key) % slots.Length;
      var tombstone: Option<nat> := None;
      for offset := 0 to slots.Length
        invariant Passed(slots[..], start, key, offset)
        invariant tombstone.None? ==> forall d | 0 <= d < offset :: slots[At(start, d, slots.Length)].occupied
        invariant tombstone.Some? ==>
          tombstone.value < slots.Length && !slots[tombstone.value].occupied && TakenBefore(slots[..], start, tombstone.value)
      {
        AtIsModulo(start, offset, slots.Length);
        var index := (start + offset) % slots.Length;
        var slot := slots[index];
        if slot.occupied && slot.key == key {
          return Some(index);
        }
        if !slot.occupied {
          if slot.tombstone {
            if tombstone.None? {
              tombstone := Some(index);
              assert Steps(start, index, slots.Length) == offset;
            }
          } else {
            ProbeDecides(slots[..], home, key, offset);
            assert Steps(start, index, slots.Length) == offset;
            return if tombstone.None? then Some(index) else tombstone;
          }
        }
      }
      ProbeDecides(slots[..], home, key, slots.Length);
      r := tombstone;
      if r.None? {
        forall i | 0 <= i < slots.Length ensures slots[i].occupied {
          assert At(start, Steps(start, i, slots.Length), slots.Length) == i;
        }
      }
    }

    /** Looks at the slots after the hand, forgiving the ones used since it last
        came by: the first it does not forgive, or else the last it met. */
    method Scan(now: int) returns (victim: Option<nat>)
      requires 0 < slots.Length && hand < slots.Length
      modifies slots
      ensures Sweep(slots[..], victim) == Swept(old(slots[..]), hand, now)
    {
      ghost var before := slots[..];
      victim := None;
      for offset := 0 to SCAN_LIMIT
        invariant SweptFrom(slots[..], hand, offset, victim, now) == Swept(before, hand, now)
      {
        var index := (hand + offset) % slots.Length;
        var slot := slots[index];
        if slot.occupied {
          victim := Some(index);
          if now - slot.insertedAt > STALE_MAX_AGE || !slot.referenced {
            return;
          }
          slots[index] := slot.(referenced := false);
        }
      }
    }

    /** What the scan finds is the right choice. */
    method Pick(now: int) returns (victim: Option<nat>)
      requires 0 < slots.Length && hand < slots.Length
      modifies slots
      ensures Fair(old(slots[..]), hand, now, Sweep(slots[..], victim))
    {
      SweepMeans(slots[..], hand, now);
      victim := Scan(now);
    }

    /** Second chance: what is evicted and where the hand ends; without anything
        in reach, the first slot and no change. */
    method ChooseEviction(now: int) returns (victim: nat)
      requires Valid()
      modifies this`hand, slots
      ensures Valid() && victim < slots.Length
      ensures var found := if Meets(old(slots[..]), old(hand), SCAN_LIMIT) then Some(victim) else None;
        && Fair(old(slots[..]), old(hand), now, Sweep(slots[..], found))
        && victim == found.GetOr(0) && hand == if found.Some? then (victim + 1) % slots.Length else old(hand)
    {
      ghost var before := slots[..];
      var found := Pick(now);
      MarksKeepSound(before, slots[..], hash, entries, latest);
      victim := 0;
      if found.Some? {
        victim := found.value;
        hand := (victim + 1) % slots.Length;
      }
    }

    /** What an insertion does to the shard: the key has its new entry, at most
        one other key is gone, and the number of entries grows past the limit
        only if there was nothing to evict. */
    twostate predicate Inserted(key: CacheKey, estimate: RouteEstimate, now: int, new gone: Option<CacheKey>)
      requires old(Valid()) && Valid()
      reads this, slots
    {
      var before := old(Map());
      && (gone.Some? ==> gone.value in before && gone.value != key && key !in before)
      && Map() == (if gone.Some? then before - {gone.value} else before)[key := Entry(estimate, now)]
      && latest == old(latest)[key := Entry(estimate, now)]
      && (gone.Some? <==> key !in before && old(entries) >= limit && old(CanEvict()))
      && entries == old(entries) + if key in before || gone.Some? then 0 else 1
    }

    /** The scan meets an occupied slot, or falls back on an occupied first slot. */
    ghost predicate CanEvict()
      requires 0 < slots.Length
      reads this, slots
    {
      Meets(slots[..], hand, SCAN_LIMIT) || slots[0].occupied
    }

    method Evict(victim: nat)
      requires Valid() && victim < slots.Length && slots[victim].occupied
      modifies this`entries, slots
      ensures Valid() && Map() == old(Map()) - {old(slots[victim].key)} && entries == old(entries) - 1
      ensures !slots[victim].occupied
    {
      EvictionKeepsSound(slots[..], victim, hash, entries, latest);
      ghost var after := Evicted(slots[..], victim);
      slots[victim] := slots[victim].(occupied := false, tombstone := true, referenced := false);
      entries := entries - 1;
      assert slots[..] == after;
    }

    method Write(index: nat, key: CacheKey, estimate: RouteEstimate, now: int)
      requires Valid() && FitFor(slots[..], HomeOf(hash, slots.Length), key, index) && estimate.Valid()
      modifies this`entries, this`latest, slots
      ensures Valid() && Map() == old(Map())[key := Entry(estimate, now)]
      ensures slots[..] == Written(old(slots[..]), index, key, estimate, now)
      ensures latest == old(latest)[key := Entry(estimate, now)]
      ensures entries == old(entries) + if old(slots[index].occupied) then 0 else 1
    {
      WritingKeepsSound(slots[..], index, hash, entries, latest, key, estimate, now);
      ghost var after := Written(slots[..], index, key, estimate, now);
      var replacing := slots[index].occupied;
      slots[index] := Slot(key, estimate, now, true, false, true);
      latest := latest[key := Entry(estimate, now)];
      if !replacing {
        entries := entries + 1;
      }
      assert slots[..] == after;
    }

    /** Makes room: the victim of the scan goes, if there is one. */
    method MakeRoom(now: int) returns (ghost gone: Option<CacheKey>)
      requires Valid()
      modifies this`hand, this`entries, slots
      ensures Valid()
      ensures gone.Some? <==> old(CanEvict())
      ensures gone.Some? ==> gone.value in old(Map())
      ensures Map() == if gone.Some? then old(Map()) - {gone.value} else old(Map())
      ensures entries == old(entries) - if gone.Some? then 1 else 0
      ensures exists i | 0 <= i < slots.Length :: !slots[i].occupied
    {
      ghost var before := slots[..];
      gone := None;
      var victim := ChooseEviction(now);
      MarksKeepSound(before, slots[..], hash, entries, latest);
      if slots[victim].occupied {
        gone := Some(slots[victim].key);
        InContents(slots[..], victim, slots[victim].key);
        Evict(victim);
      }
      assert !slots[victim].occupied;
    }

    /** The insert slot, told apart by whether the key is in the map. */
    method SlotFor(key: CacheKey) returns (r: Option<nat>)
      requires Valid()
      ensures r.Some? ==> FitFor(slots[..], HomeOf(hash, slots.Length), key, r.value)
      ensures r.Some? && slots[r.value].occupied <==> key in Map()
      ensures r.None? ==> entries == slots.Length && forall i | 0 <= i < slots.Length :: slots[i].occupied
    {
      r := FindInsertSlot(key);
      PresentIff(slots[..], HomeOf(hash, slots.Length), key, r);
      if r.None? { CountBounds(slots[..]); }
    }

    /** A slot for the key, after making room if the shard is full. */
    method PrepareSlot(key: CacheKey, now: int) returns (index: nat, ghost gone: Option<CacheKey>)
      requires Valid()
      modifies this`hand, this`entries, slots
      ensures Valid() && FitFor(slots[..], HomeOf(hash, slots.Length), key, index)
      ensures slots[index].occupied <==> key in old(Map())
      ensures gone.Some? <==> key !in old(Map()) && old(entries) >= limit && old(CanEvict())
      ensures gone.Some? ==> gone.value in old(Map())
      ensures Map() == if gone.Some? then old(Map()) - {gone.value} else old(Map())
      ensures entries == old(entries) - if gone.Some? then 1 else 0
      ensures old(entries) < limit ==> hand == old(hand) && slots[..] == old(slots[..])
    {
      gone := None;
      var found := SlotFor(key);
      var replacing := found.Some? && slots[found.value].occupied;
      if !replacing && (found.None? || entries >= limit) {
        gone := MakeRoom(now);
        found := SlotFor(key);
      }
      index := found.value;
    }

    /** Inserts or replaces the key's estimate, unless it is not one.  A slot is
        always found. */
    method Insert(key: CacheKey, estimate: RouteEstimate, now: int) returns (ghost gone: Option<CacheKey>)
      requires Valid()
      modifies this`hand, this`entries, this`latest, slots
      ensures Valid()
      ensures if estimate.Valid() then Inserted(key, estimate, now, gone)
              else Map() == old(Map()) && latest == old(latest) && entries == old(entries)
      ensures estimate.Valid() && old(entries) < limit ==> hand == old(hand) && exists index ::
        FitFor(old(slots[..]), HomeOf(hash, slots.Length), key, index) && slots[..] == Written(old(slots[..]), index, key, estimate, now)
    {
      gone := None;
      if !estimate.Valid() {
        return;
      }
      var index;
      index, gone := PrepareSlot(key, now);
      Write(index, key, estimate, now);
    }

    /** What a lookup answers is what the map answers; only the clock's mark changes. */
    method Lookup(key: CacheKey, now: int, stale: bool) returns (r: Option<RouteEstimate>)
      requires Valid()
      modifies slots
      ensures Valid() && Map() == old(Map())
      ensures r == Answer(Map(), key, now, stale)
      ensures r.Some? ==> key in latest && r.value == latest[key].estimate
    {
      var index := FindSlot(key);
      if index.None? {
        NotInContents(slots[..], key);
        return None;
      }
      var slot := slots[index.value];
      InContents(slots[..], index.value, key);
      var age := if now >= slot.insertedAt then now - slot.insertedAt else 0;
      var isFresh := age <= FRESH_TTL;
      var eligible := age > FRESH_TTL && age <= STALE_MAX_AGE;
      if (stale && !eligible) || (!stale && !isFresh) {
        return None;
      }
      if !stale {
        ghost var before := slots[..];
        slots[index.value] := slot.(referenced := true);
        MarksKeepSound(before, slots[..], hash, entries, latest);
      }
      r := Some(slot.estimate);
    }
  }

  /** A fit slot is occupied exactly when the key is in the map. */
  lemma {:induction false} PresentIff(s: Table, home: CacheKey -> nat, key: CacheKey, index: Option<nat>)
    requires OneSlotPerKey(s)
    requires if index.Some? then FitFor(s, home, key, index.value) else Absent(s, key)
    ensures index.Some? && s[index.value].occupied <==> key in Contents(s)
  {
    if index.Some? && s[index.value].occupied {
      InContents(s, index.value, key);
    } else {
      NotInContents(s, key);
    }
  }

  lemma {:induction false} NotInContents(s: Table, key: CacheKey)
    requires OneSlotPerKey(s) && Absent(s, key)
    ensures key !in Contents(s)
  {
    forall i | 0 <= i < |s| ensures !(s[i].occupied && s[i].key == key) {
      assert !Holds(s, i, key);
    }
  }

  /** The least power of two that is at least two and at least the value. */
  method NextPowerOfTwo(value: nat) returns (r: nat)
    ensures r == TableSize(value) && 2 <= r && value <= r && exists e: nat :: r == Power(e)
    ensures r == 2 || r < 2 * value
  {
    if value < 2 {
      assert Power(1) == 2;
      return 2;
    }
    r := 1;
    ghost var e := 0;
    while r < value
      invariant r == Power(e) && r < 2 * value && Doubled(r, value) == Doubled(1, value)
    {
      r, e := r * 2, e + 1;
    }
  }

  function Doubled(r: nat, value: nat): nat
    requires r > 0
    decreases value - r
  {
    if r < value then Doubled(2 * r, value) else r
  }

  function TableSize(value: nat): nat { if value < 2 then 2 else Doubled(1, value) }
}

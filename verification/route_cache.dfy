/** The slot table of one cache shard: open addressing with tombstones. */
module RouteCacheTable {
  import opened Domain

  datatype CacheKey = CacheKey(
    originLatitude: int32, originLongitude: int32, destinationLatitude: int32, destinationLongitude: int32,
    departureBucket: int64, mode: TravelMode, provider: uint32)

  datatype Slot = Slot(key: CacheKey, estimate: RouteEstimate, insertedAt: int, occupied: bool, tombstone: bool, referenced: bool)

  const EMPTY_SLOT :=
    Slot(CacheKey(0, 0, 0, 0, 0, Walking, 0), RouteEstimate(0, 0, false), 0, false, false, false)

  /** A cached estimate and when it was inserted. */
  datatype Entry = Entry(estimate: RouteEstimate, insertedAt: int)

  /** A probe stops at a slot that was never used. */
  predicate Free(s: Slot) { !s.occupied && !s.tombstone }

  /** Two to a power. */
  function Power(e: nat): nat { if e == 0 then 1 else 2 * Power(e - 1) }

  // ----- probing around the table -----

  /** The slot `offset` steps after `start`, around a table of `n`. */
  function At(start: nat, offset: nat, n: nat): (r: nat)
    requires start < n && offset < n
    ensures r < n
  {
    if start + offset < n then start + offset else start + offset - n
  }

  /** How many steps after `start` a slot comes. */
  function Steps(start: nat, i: nat, n: nat): (r: nat)
    requires start < n && i < n
    ensures r < n && At(start, r, n) == i
  {
    if i >= start then i - start else i - start + n
  }

  lemma {:induction false} ModuloIs(x: nat, n: nat, q: nat, r: nat)
    requires r < n && x == q * n + r
    ensures x % n == r
  {
    if q < x / n {
      MultiplyMonotone(q + 1, x / n, n);
      assert false;
    } else if x / n < q {
      MultiplyMonotone(x / n + 1, q, n);
      assert false;
    }
  }

  /** Stepping around the table is the masked or modular index of the code. */
  lemma {:induction false} AtIsModulo(start: nat, offset: nat, n: nat)
    requires start < n && offset < n
    ensures At(start, offset, n) == (start + offset) % n
  {
    ModuloIs(start + offset, n, if start + offset < n then 0 else 1, At(start, offset, n));
  }

  // ----- the table's invariant -----

  type Table = seq<Slot>

  /** No slot between a key's home and the slot that holds it was ever free. */
  predicate Chained(s: Table, start: nat, i: nat)
    requires start < |s| && i < |s|
  {
    forall d | 0 <= d < Steps(start, i, |s|) :: !Free(s[At(start, d, |s|)])
  }

  ghost predicate Homes(s: Table, home: CacheKey -> nat) {
    forall k: CacheKey :: home(k) < |s|
  }

  /** Every key is where its probe can find it, in one slot only. */
  ghost predicate TableOk(s: Table, home: CacheKey -> nat) {
    && Homes(s, home)
    && (forall i | 0 <= i < |s| && s[i].occupied :: Chained(s, home(s[i].key), i))
    && OneSlotPerKey(s)
    && (forall i | 0 <= i < |s| && s[i].occupied :: s[i].estimate.Valid())
  }

  ghost predicate OneSlotPerKey(s: Table) {
    forall i, j | 0 <= i < |s| && 0 <= j < |s| && s[i].occupied && s[j].occupied && s[i].key == s[j].key :: i == j
  }

  predicate Holds(s: Table, i: nat, key: CacheKey) {
    i < |s| && s[i].occupied && s[i].key == key
  }

  ghost predicate Absent(s: Table, key: CacheKey) {
    forall i | 0 <= i < |s| :: !Holds(s, i, key)
  }

  /** The map the table stands for. */
  ghost function Contents(s: Table): map<CacheKey, Entry>
    requires OneSlotPerKey(s)
  {
    map i | 0 <= i < |s| && s[i].occupied :: s[i].key := Entry(s[i].estimate, s[i].insertedAt)
  }

  /** What a probe has established after `seen` steps without meeting the key. */
  ghost predicate Passed(s: Table, start: nat, key: CacheKey, seen: nat)
    requires start < |s| && seen <= |s|
  {
    forall d | 0 <= d < seen :: !Holds(s, At(start, d, |s|), key)
  }

  /** A probe that reaches a free slot, or comes full circle, has ruled the key out. */
  lemma {:induction false} ProbeDecides(s: Table, home: CacheKey -> nat, key: CacheKey, seen: nat)
    requires TableOk(s, home) && seen <= |s| && Passed(s, home(key), key, seen)
    requires seen == |s| || Free(s[At(home(key), seen, |s|)])
    ensures Absent(s, key)
  {
    var start, n := home(key), |s|;
    forall i | 0 <= i < n ensures !Holds(s, i, key) {
      assert At(start, Steps(start, i, n), n) == i;
      assert s[i].occupied && s[i].key == key ==> Chained(s, start, i);
    }
  }

  lemma {:induction false} InContents(s: Table, i: nat, key: CacheKey)
    requires OneSlotPerKey(s) && Holds(s, i, key)
    ensures key in Contents(s) && Contents(s)[key] == Entry(s[i].estimate, s[i].insertedAt)
  {
  }

  /** Tables that agree outside one slot stand for maps that agree outside its keys. */
  lemma {:induction false} OtherKeys(s: Table, t: Table, i: nat, key: CacheKey)
    requires OneSlotPerKey(s) && OneSlotPerKey(t) && |s| == |t| && i < |s|
    requires forall j | 0 <= j < |s| && j != i :: t[j] == s[j]
    requires !Holds(s, i, key) && !Holds(t, i, key)
    ensures key in Contents(s) <==> key in Contents(t)
    ensures key in Contents(s) ==> Contents(s)[key] == Contents(t)[key]
  {
    if key in Contents(s) {
      var j :| 0 <= j < |s| && s[j].occupied && s[j].key == key;
      InContents(s, j, key);
      assert Holds(t, j, key);
      InContents(t, j, key);
    }
    if key in Contents(t) {
      var j :| 0 <= j < |t| && t[j].occupied && t[j].key == key;
      assert Holds(s, j, key);
      InContents(s, j, key);
    }
  }

  // ----- counting occupied slots -----

  function OccupiedCount(s: Table): nat {
    if s == [] then 0 else OccupiedCount(s[..|s| - 1]) + if s[|s| - 1].occupied then 1 else 0
  }

  lemma {:induction false} CountBounds(s: Table)
    ensures OccupiedCount(s) <= |s|
    ensures OccupiedCount(s) == |s| <==> forall i | 0 <= i < |s| :: s[i].occupied
    ensures OccupiedCount(s) == 0 <==> forall i | 0 <= i < |s| :: !s[i].occupied
  {
    if s != [] {
      var front := s[..|s| - 1];
      CountBounds(front);
      assert forall i | 0 <= i < |front| :: s[i] == front[i];
    }
  }

  lemma {:induction false} CountOfUpdate(s: Table, i: nat, slot: Slot)
    requires i < |s|
    ensures OccupiedCount(s[i := slot])
            == OccupiedCount(s) - (if s[i].occupied then 1 else 0) + (if slot.occupied then 1 else 0)
  {
    var t := s[i := slot];
    if i == |s| - 1 {
      assert t[..|s| - 1] == s[..|s| - 1];
    } else {
      CountOfUpdate(s[..|s| - 1], i, slot);
      assert t[..|s| - 1] == s[..|s| - 1][i := slot];
    }
  }

  // ----- changing one slot -----

  /** Marking slots as used or unused by the clock changes nothing else. */
  predicate Alike(s: Table, t: Table) {
    |s| == |t| && forall i | 0 <= i < |s| :: t[i] == s[i].(referenced := t[i].referenced)
  }

  lemma {:induction false} AlikeTables(s: Table, t: Table, home: CacheKey -> nat)
    requires TableOk(s, home) && Alike(s, t)
    ensures TableOk(t, home) && Contents(t) == Contents(s) && OccupiedCount(t) == OccupiedCount(s)
  {
    forall i | 0 <= i < |t| && t[i].occupied ensures Chained(t, home(t[i].key), i) {
      assert Chained(s, home(s[i].key), i);
    }
    AlikeCounts(s, t);
  }

  lemma {:induction false} AlikeCounts(s: Table, t: Table)
    requires Alike(s, t)
    ensures OccupiedCount(t) == OccupiedCount(s)
  {
    if s != [] {
      AlikeCounts(s[..|s| - 1], t[..|t| - 1]);
    }
  }

  /** More slots in use never break a chain. */
  lemma {:induction false} ChainedStays(s: Table, t: Table, start: nat, i: nat)
    requires |s| == |t| && start < |s| && i < |s| && Chained(s, start, i)
    requires forall k | 0 <= k < |s| && !Free(s[k]) :: !Free(t[k])
    ensures Chained(t, start, i)
  {
  }

  function Evicted(s: Table, i: nat): Table
    requires i < |s|
  {
    s[i := s[i].(occupied := false, tombstone := true, referenced := false)]
  }

  lemma {:induction false} EvictedTable(s: Table, home: CacheKey -> nat, i: nat)
    requires TableOk(s, home) && i < |s| && s[i].occupied
    ensures TableOk(Evicted(s, i), home) && Contents(Evicted(s, i)) == Contents(s) - {s[i].key}
    ensures OccupiedCount(Evicted(s, i)) == OccupiedCount(s) - 1
  {
    var t := Evicted(s, i);
    forall j | 0 <= j < |t| && t[j].occupied ensures Chained(t, home(t[j].key), j) {
      ChainedStays(s, t, home(s[j].key), j);
    }
    CountOfUpdate(s, i, t[i]);
    EvictedContents(s, i);
  }

  lemma {:induction false} EvictedContents(s: Table, i: nat)
    requires OneSlotPerKey(s) && i < |s| && s[i].occupied && OneSlotPerKey(Evicted(s, i))
    ensures Contents(Evicted(s, i)) == Contents(s) - {s[i].key}
  {
    var t := Evicted(s, i);
    forall k | k != s[i].key ensures k in Contents(s) <==> k in Contents(t)
                             ensures k in Contents(s) ==> Contents(s)[k] == Contents(t)[k] {
      OtherKeys(s, t, i, k);
    }
    assert forall j | 0 <= j < |t| && t[j].occupied :: t[j].key != s[i].key;
  }

  /** Every slot on the way to this one is taken. */
  predicate TakenBefore(s: Table, start: nat, i: nat)
    requires start < |s| && i < |s|
  {
    forall d | 0 <= d < Steps(start, i, |s|) :: s[At(start, d, |s|)].occupied
  }

  /** A slot fit for the key: its own, or the first unused one on its probe. */
  ghost predicate FitFor(s: Table, home: CacheKey -> nat, key: CacheKey, i: nat) {
    && i < |s| && home(key) < |s|
    && (Holds(s, i, key) || (!s[i].occupied && Absent(s, key) && TakenBefore(s, home(key), i)))
  }

  function Written(s: Table, i: nat, key: CacheKey, estimate: RouteEstimate, now: int): Table
    requires i < |s|
  {
    s[i := Slot(key, estimate, now, true, false, true)]
  }

  lemma {:induction false} WrittenTable(s: Table, home: CacheKey -> nat, i: nat, key: CacheKey, estimate: RouteEstimate, now: int)
    requires TableOk(s, home) && FitFor(s, home, key, i) && estimate.Valid()
    ensures var t := Written(s, i, key, estimate, now);
      && TableOk(t, home) && Contents(t) == Contents(s)[key := Entry(estimate, now)]
      && OccupiedCount(t) == OccupiedCount(s) + if s[i].occupied then 0 else 1
  {
    var t := Written(s, i, key, estimate, now);
    assert Chained(s, home(key), i);
    forall j | 0 <= j < |t| && t[j].occupied ensures Chained(t, home(t[j].key), j) {
      ChainedStays(s, t, home(t[j].key), j);
    }
    CountOfUpdate(s, i, t[i]);
    WrittenKeys(s, i, key, t);
    WrittenContents(s, i, key, estimate, now);
  }

  lemma {:induction false} WrittenKeys(s: Table, i: nat, key: CacheKey, t: Table)
    requires OneSlotPerKey(s) && i < |s| && (Holds(s, i, key) || (!s[i].occupied && Absent(s, key)))
    requires |t| == |s| && t[i].key == key && forall j | 0 <= j < |s| && j != i :: t[j] == s[j]
    ensures OneSlotPerKey(t)
  {
    assert forall j | 0 <= j < |s| && j != i :: !Holds(s, j, key);
    forall j, k | 0 <= j < |t| && 0 <= k < |t| && t[j].occupied && t[k].occupied && t[j].key == t[k].key ensures j == k {
      assert !Holds(s, j, key) || j == i;
      assert !Holds(s, k, key) || k == i;
    }
  }

  lemma {:induction false} WrittenContents(s: Table, i: nat, key: CacheKey, estimate: RouteEstimate, now: int)
    requires OneSlotPerKey(s) && i < |s| && (Holds(s, i, key) || (!s[i].occupied && Absent(s, key)))
    requires OneSlotPerKey(Written(s, i, key, estimate, now))
    ensures Contents(Written(s, i, key, estimate, now)) == Contents(s)[key := Entry(estimate, now)]
  {
    var t := Written(s, i, key, estimate, now);
    assert Holds(t, i, key);
    InContents(t, i, key);
    forall k | k != key ensures k in Contents(s) <==> k in Contents(t)
                        ensures k in Contents(s) ==> Contents(s)[k] == Contents(t)[k] {
      OtherKeys(s, t, i, k);
    }
  }
}

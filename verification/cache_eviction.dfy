/** The clock that chooses what a full cache shard evicts, on values. */
module CacheEviction {
  import opened Domain
  import opened RouteCacheTable

  const SCAN_LIMIT := 64

  /** A day of the steady clock, in nanoseconds. */
  const STALE_MAX_AGE := 86400 * 1_000_000_000

  predicate Expired(s: Slot, now: int) { now - s.insertedAt > STALE_MAX_AGE }

  /** The slot the eviction scan looks at after `offset` steps. */
  function Scanned(s: Table, hand: nat, offset: nat): (r: nat)
    requires |s| > 0
    ensures r < |s|
  {
    (hand + offset) % |s|
  }

  datatype Sweep = Sweep(table: Table, victim: Option<nat>)

  /** The scan from one offset on; `met` is the last occupied slot so far. */
  function SweptFrom(s: Table, hand: nat, offset: nat, met: Option<nat>, now: int): Sweep
    requires |s| > 0
    decreases SCAN_LIMIT - offset
  {
    if offset >= SCAN_LIMIT then Sweep(s, met)
    else
      var i := Scanned(s, hand, offset);
      if !s[i].occupied then SweptFrom(s, hand, offset + 1, met, now)
      else if Expired(s[i], now) || !s[i].referenced then Sweep(s, Some(i))
      else SweptFrom(s[i := s[i].(referenced := false)], hand, offset + 1, Some(i), now)
  }

  function Swept(s: Table, hand: nat, now: int): Sweep
    requires |s| > 0
  {
    SweptFrom(s, hand, 0, None, now)
  }

  // ----- what it chooses -----

  /** The scan finds something to evict. */
  predicate Meets(s: Table, hand: nat, limit: nat)
    requires |s| > 0
  {
    exists o | 0 <= o < limit :: s[Scanned(s, hand, o)].occupied
  }

  predicate Used(s: Slot, now: int) { s.occupied ==> s.referenced && !Expired(s, now) }

  /** Everything the scan finds has been used since it last came by. */
  predicate AllUsed(s: Table, hand: nat, limit: nat, now: int)
    requires |s| > 0
  {
    forall o | 0 <= o < limit :: Used(s[Scanned(s, hand, o)], now)
  }

  /** Nothing is in the slots scanned between two offsets. */
  predicate NoneBetween(s: Table, hand: nat, from: nat, to: int)
    requires |s| > 0
  {
    forall o | from <= o < to :: !s[Scanned(s, hand, o)].occupied
  }

  /** The scan comes round to something it has already met. */
  predicate ComesBack(s: Table, hand: nat)
    requires |s| > 0
  {
    |s| < SCAN_LIMIT && !NoneBetween(s, hand, 0, SCAN_LIMIT - |s|)
  }

  /** The first in reach that is not in use; if all are in use, the first the
      scan comes back to; if it comes back to none, the last it meets. */
  ghost predicate Chosen(s: Table, hand: nat, now: int, i: nat)
    requires |s| > 0
  {
    exists o | 0 <= o < SCAN_LIMIT :: Scanned(s, hand, o) == i < |s| && s[i].occupied &&
      if !AllUsed(s, hand, SCAN_LIMIT, now) then !Used(s[i], now) && AllUsed(s, hand, o, now)
      else if ComesBack(s, hand) then NoneBetween(s, hand, 0, o)
      else NoneBetween(s, hand, o + 1, SCAN_LIMIT)
  }

  /** Only marks change, something is chosen exactly when something is in reach,
      and then it is the right one. */
  ghost predicate Fair(s: Table, hand: nat, now: int, r: Sweep) {
    && |s| > 0 && Alike(s, r.table) && (r.victim.Some? <==> Meets(s, hand, SCAN_LIMIT))
    && (r.victim.Some? ==> r.victim.value < |s| && s[r.victim.value].occupied && Chosen(s, hand, now, r.victim.value))
  }

  // ----- the scan so far -----

  ghost predicate Visited(s: Table, hand: nat, offset: nat, i: nat)
    requires |s| > 0
  {
    exists o | 0 <= o < offset :: Scanned(s, hand, o) == i
  }

  /** The scan reached this offset without a choice: everything met was in use
      and lost its mark, nothing was met twice, and `met` is the last of it. */
  ghost predicate Forgiven(before: Table, t: Table, hand: nat, offset: nat, met: Option<nat>, now: int) {
    && |before| > 0 && |t| == |before| && offset <= SCAN_LIMIT
    && AllUsed(before, hand, offset, now)
    && (forall i | 0 <= i < |t| ::
          t[i] == if before[i].occupied && Visited(before, hand, offset, i) then before[i].(referenced := false) else before[i])
    && NoneBetween(before, hand, 0, offset - |before|)
    && if met.None? then NoneBetween(before, hand, 0, offset)
       else exists o | 0 <= o < offset ::
         Scanned(before, hand, o) == met.value && before[met.value].occupied && NoneBetween(before, hand, o + 1, offset)
  }

  /** A slot comes round again only after every other slot. */
  lemma {:induction false} ComesRound(n: nat, x: nat, y: nat)
    requires n > 0 && x < y && x % n == y % n
    ensures y - x >= n
  {
    var p, q := x / n, y / n;
    assert x == p * n + x % n && y == q * n + y % n;
    if q <= p {
      MultiplyMonotone(q, p, n);
      assert false;
    }
    MultiplyMonotone(p + 1, q, n);
  }

  lemma {:induction false} OneRound(s: Table, hand: nat, offset: nat)
    requires 0 < |s| <= offset
    ensures Scanned(s, hand, offset - |s|) == Scanned(s, hand, offset)
  {
    var n, x := |s|, hand + offset - |s|;
    assert x == (x / n) * n + x % n;
    ModuloIs(x + n, n, x / n + 1, x % n);
  }

  /** A slot met before is met again exactly one or more rounds later. */
  lemma {:induction false} VisitedOneRoundAgo(s: Table, hand: nat, offset: nat, i: nat)
    requires |s| > 0 && Visited(s, hand, offset, i) && Scanned(s, hand, offset) == i
    ensures |s| <= offset && Scanned(s, hand, offset - |s|) == i
  {
    var o :| 0 <= o < offset && Scanned(s, hand, o) == i;
    ComesRound(|s|, hand + o, hand + offset);
    OneRound(s, hand, offset);
  }

  lemma {:induction false} EverySlotSoon(s: Table, hand: nat, i: nat) returns (o: nat)
    requires |s| > 0 && hand < |s| && i < |s|
    ensures o < |s| && Scanned(s, hand, o) == i
  {
    o := Steps(hand, i, |s|);
    AtIsModulo(hand, o, |s|);
  }

  /** Once round, everything in reach has been looked at. */
  lemma {:induction false} OnceRound(s: Table, hand: nat, offset: nat, now: int)
    requires 0 < |s| <= offset && hand < |s| && AllUsed(s, hand, offset, now)
    ensures AllUsed(s, hand, SCAN_LIMIT, now)
  {
    forall k | 0 <= k < SCAN_LIMIT ensures Used(s[Scanned(s, hand, k)], now) {
      var j := EverySlotSoon(s, hand, Scanned(s, hand, k));
      assert Used(s[Scanned(s, hand, j)], now);
    }
  }

  lemma {:induction false} OneMoreVisited(s: Table, hand: nat, offset: nat, j: nat)
    requires |s| > 0
    ensures Visited(s, hand, offset + 1, j) <==> Visited(s, hand, offset, j) || Scanned(s, hand, offset) == j
  {
    if Visited(s, hand, offset, j) {
      var o :| 0 <= o < offset && Scanned(s, hand, o) == j;
      assert Scanned(s, hand, o) == j;
    }
  }

  lemma {:induction false} PassOver(before: Table, t: Table, hand: nat, offset: nat, met: Option<nat>, now: int)
    requires Forgiven(before, t, hand, offset, met, now) && offset < SCAN_LIMIT
    requires !before[Scanned(before, hand, offset)].occupied
    ensures Forgiven(before, t, hand, offset + 1, met, now)
  {
    if |before| <= offset { OneRound(before, hand, offset); }
    forall j | 0 <= j < |t|
      ensures t[j] == if before[j].occupied && Visited(before, hand, offset + 1, j)
                      then before[j].(referenced := false) else before[j]
    {
      OneMoreVisited(before, hand, offset, j);
    }
    if met.Some? {
      var o :| 0 <= o < offset && Scanned(before, hand, o) == met.value && before[met.value].occupied
               && NoneBetween(before, hand, o + 1, offset);
      assert NoneBetween(before, hand, o + 1, offset + 1);
    }
  }

  lemma {:induction false} Forgive(before: Table, t: Table, hand: nat, offset: nat, met: Option<nat>, now: int)
    requires Forgiven(before, t, hand, offset, met, now) && offset < SCAN_LIMIT
    requires var s := t[Scanned(before, hand, offset)]; s.occupied && s.referenced && !Expired(s, now)
    ensures var i := Scanned(before, hand, offset);
      Forgiven(before, t[i := t[i].(referenced := false)], hand, offset + 1, Some(i), now)
  {
    var i := Scanned(before, hand, offset);
    assert t[i] == before[i] && !Visited(before, hand, offset, i);
    if |before| <= offset {
      OneRound(before, hand, offset);
      assert false;
    }
    var u := t[i := t[i].(referenced := false)];
    forall j | 0 <= j < |u|
      ensures u[j] == if before[j].occupied && Visited(before, hand, offset + 1, j)
                      then before[j].(referenced := false) else before[j]
    {
      OneMoreVisited(before, hand, offset, j);
    }
    assert NoneBetween(before, hand, offset + 1, offset + 1);
  }

  lemma {:induction false} StopIsChosen(before: Table, t: Table, hand: nat, offset: nat, met: Option<nat>, now: int)
    requires Forgiven(before, t, hand, offset, met, now) && offset < SCAN_LIMIT && hand < |before|
    requires var s := t[Scanned(before, hand, offset)]; s.occupied && (!s.referenced || Expired(s, now))
    ensures Fair(before, hand, now, Sweep(t, Some(Scanned(before, hand, offset))))
  {
    var i := Scanned(before, hand, offset);
    assert before[Scanned(before, hand, offset)].occupied;
    if Visited(before, hand, offset, i) {
      VisitedOneRoundAgo(before, hand, offset, i);
      OnceRound(before, hand, offset, now);
      var o := offset - |before|;
      assert before[Scanned(before, hand, o)].occupied && ComesBack(before, hand);
      assert NoneBetween(before, hand, 0, o);
    } else {
      assert t[i] == before[i] && !Used(before[Scanned(before, hand, offset)], now);
    }
  }

  lemma {:induction false} EndIsChosen(before: Table, t: Table, hand: nat, met: Option<nat>, now: int)
    requires Forgiven(before, t, hand, SCAN_LIMIT, met, now)
    ensures Fair(before, hand, now, Sweep(t, met))
  {
    if met.Some? {
      var o :| 0 <= o < SCAN_LIMIT && Scanned(before, hand, o) == met.value && before[met.value].occupied
               && NoneBetween(before, hand, o + 1, SCAN_LIMIT);
      assert before[Scanned(before, hand, o)].occupied;
      assert !ComesBack(before, hand);
    }
  }

  /** One step of the scan: it stops with the right choice, or goes on as before. */
  lemma {:induction false} OneStep(before: Table, t: Table, hand: nat, offset: nat, met: Option<nat>, now: int)
    returns (done: bool, u: Table, last: Option<nat>)
    requires Forgiven(before, t, hand, offset, met, now) && offset < SCAN_LIMIT && hand < |before|
    ensures done ==> Fair(before, hand, now, SweptFrom(t, hand, offset, met, now))
    ensures !done ==> Forgiven(before, u, hand, offset + 1, last, now)
    ensures !done ==> SweptFrom(t, hand, offset, met, now) == SweptFrom(u, hand, offset + 1, last, now)
  {
    var i := Scanned(t, hand, offset);
    done, u, last := false, t, met;
    if !t[i].occupied {
      PassOver(before, t, hand, offset, met, now);
    } else if Expired(t[i], now) || !t[i].referenced {
      StopIsChosen(before, t, hand, offset, met, now);
      done := true;
    } else {
      Forgive(before, t, hand, offset, met, now);
      u, last := t[i := t[i].(referenced := false)], Some(i);
    }
  }

  lemma {:induction false} SweptFromMeans(before: Table, t: Table, hand: nat, offset: nat, met: Option<nat>, now: int)
    requires Forgiven(before, t, hand, offset, met, now) && hand < |before|
    ensures Fair(before, hand, now, SweptFrom(t, hand, offset, met, now))
    decreases SCAN_LIMIT - offset
  {
    if offset == SCAN_LIMIT {
      EndIsChosen(before, t, hand, met, now);
    } else {
      var done, u, last := OneStep(before, t, hand, offset, met, now);
      if !done {
        SweptFromMeans(before, u, hand, offset + 1, last, now);
      }
    }
  }

  /** Second chance: only marks change, something is chosen exactly when there
      is something in reach, and it is the first not in use, the first the scan
      comes back to, or the last it meets. */
  lemma {:induction false} SweepMeans(s: Table, hand: nat, now: int)
    requires hand < |s|
    ensures Fair(s, hand, now, Swept(s, hand, now))
  {
    SweptFromMeans(s, s, hand, 0, None, now);
  }
}

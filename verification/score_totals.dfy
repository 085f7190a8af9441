/** What each part of a score is: sums over the visits and over the activities,
    in unbounded integers, said of the trip and the decisions alone. */
module ScoreTotals {
  import opened Domain
  import opened Sorting
  import opened PlannerInput
  import opened CandidateScores
  import opened Scoring
  import opened ScoreState
  import opened ScoreLoop

  ghost function Sum(amounts: seq<int>): int {
    if amounts == [] then 0 else Sum(amounts[..|amounts| - 1]) + amounts[|amounts| - 1]
  }

  ghost predicate Named(input: SearchInput, visits: seq<Decision>) {
    forall k | 0 <= k < |visits| :: input.IndexOf(visits[k].ordinal).Some?
  }

  ghost function Visited(input: SearchInput, d: Decision): PlanningActivity
    requires input.IndexOf(d.ordinal).Some?
  {
    input.remaining[input.IndexOf(d.ordinal).value]
  }

  /** Where the traveller is after the first `k` visits, as a row of the matrix. */
  ghost function Place(input: SearchInput, visits: seq<Decision>, k: nat): (r: nat)
    requires Named(input, visits) && k <= |visits|
    ensures r <= |input.remaining|
  {
    if k == 0 then 0 else input.IndexOf(visits[k - 1].ordinal).value + 1
  }

  // ----- what one visit costs -----

  ghost function TravelTo(input: SearchInput, visits: seq<Decision>, k: nat): int
    requires input.Valid() && Named(input, visits) && k < |visits|
  {
    input.matrix.value.At(Place(input, visits, k), Place(input, visits, k + 1)).seconds * 1000
  }

  /** After the reservation, or else after the current start. */
  ghost function LateBy(a: PlanningActivity, start: int): int {
    var due := if a.activity.timing.reservation.Some? then a.activity.timing.reservation.value
               else if a.segment.state.Scheduled? && a.segment.start.Some? then a.segment.start.value
               else start;
    if start > due then start - due else 0
  }

  ghost function ShortBy(a: PlanningActivity, start: int, end: int): int {
    var preferred := a.activity.timing.preferredSeconds * 1000;
    if end - start < preferred then preferred - (end - start) else 0
  }

  ghost function MovedBy(a: PlanningActivity, start: int): int {
    if !a.segment.state.Scheduled? || a.segment.start.None? then 0
    else if start < a.segment.start.value then a.segment.start.value - start
    else start - a.segment.start.value
  }

  ghost function Travels(input: SearchInput, visits: seq<Decision>): (r: seq<int>)
    requires input.Valid() && Named(input, visits)
    ensures |r| == |visits| && forall k | 0 <= k < |visits| :: r[k] == TravelTo(input, visits, k)
  {
    seq(|visits|, k requires 0 <= k < |visits| && input.Valid() && Named(input, visits) => TravelTo(input, visits, k))
  }

  ghost function Latenesses(input: SearchInput, visits: seq<Decision>): (r: seq<int>)
    requires Named(input, visits)
    ensures |r| == |visits|
  {
    seq(|visits|, k requires 0 <= k < |visits| && Named(input, visits) => LateBy(Visited(input, visits[k]), visits[k].start))
  }

  ghost function Shortfalls(input: SearchInput, visits: seq<Decision>): (r: seq<int>)
    requires Named(input, visits)
    ensures |r| == |visits|
  {
    seq(|visits|, k requires 0 <= k < |visits| && Named(input, visits) =>
      ShortBy(Visited(input, visits[k]), visits[k].start, visits[k].end))
  }

  ghost function Moves(input: SearchInput, visits: seq<Decision>): (r: seq<int>)
    requires Named(input, visits)
    ensures |r| == |visits|
  {
    seq(|visits|, k requires 0 <= k < |visits| && Named(input, visits) => MovedBy(Visited(input, visits[k]), visits[k].start))
  }

  // ----- what is skipped -----

  ghost predicate Dropped(ds: seq<Decision>, ordinal: nat) {
    exists k | 0 <= k < |ds| :: ds[k].kind == 1 && ds[k].ordinal == ordinal
  }

  ghost function Utilities(input: SearchInput, ds: seq<Decision>, n: nat): seq<int>
    requires n <= |input.remaining|
  {
    seq(n, i requires 0 <= i < n <= |input.remaining| =>
      if Dropped(ds, input.remaining[i].ordinal) then 0 else input.remaining[i].activity.utility)
  }

  ghost function DropsOfRank(input: SearchInput, ds: seq<Decision>, rank: int, n: nat): seq<int>
    requires n <= |input.remaining|
  {
    seq(n, i requires 0 <= i < n <= |input.remaining| =>
      if Dropped(ds, input.remaining[i].ordinal) && input.remaining[i].activity.priorityRank == rank then 1 else 0)
  }

  /** The ranks there are, most important first. */
  ghost predicate AreRanks(input: SearchInput, ranks: seq<int>) {
    && (forall i, j | 0 <= i < j < |ranks| :: ranks[i] < ranks[j])
    && (forall r :: r in ranks <==> exists i | 0 <= i < |input.remaining| :: input.remaining[i].activity.priorityRank == r)
  }

  ghost predicate CountsSkips(input: SearchInput, ds: seq<Decision>, ranks: seq<int>, skips: seq<int>) {
    |skips| == |ranks| && forall r | 0 <= r < |ranks| :: skips[r] == Sum(DropsOfRank(input, ds, ranks[r], |input.remaining|))
  }

  // ----- the key -----

  /** The visits in order, and the ordinals of what is skipped, ascending. */
  ghost predicate TellsPlan(ds: seq<Decision>, key: PlanKey) {
    var visits := Visits(ds);
    && |key.order| == |key.entries| == |visits|
    && (forall k | 0 <= k < |visits| ::
          key.order[k] == visits[k].ordinal && key.entries[k] == Entry(visits[k].ordinal, visits[k].start, visits[k].end))
    && (forall i, j | 0 <= i < j < |key.skipped| :: key.skipped[i] < key.skipped[j])
    && (forall x :: x in key.skipped <==> exists k | 0 <= k < |ds| :: ds[k].kind == 1 && ds[k].ordinal == x)
  }

  // ----- sums -----

  lemma {:induction false} SumAppend(amounts: seq<int>, amount: int)
    ensures Sum(amounts + [amount]) == Sum(amounts) + amount
  {
    assert (amounts + [amount])[..|amounts|] == amounts;
  }

  /** Every total of a run is the sum over its visits, and it ends with the last. */
  ghost predicate TellsRun(input: SearchInput, visits: seq<Decision>, c: Chain)
    requires input.Valid() && Named(input, visits)
  {
    && c.at == Place(input, visits, |visits|)
    && c.end == (if visits == [] then input.SuffixStart() else visits[|visits| - 1].end)
    && c.travel == Sum(Travels(input, visits)) && c.lateness == Sum(Latenesses(input, visits))
    && c.shortfall == Sum(Shortfalls(input, visits)) && c.shift == Sum(Moves(input, visits))
  }

  lemma {:induction false} AddsUp(total: int64, amount: Option<int64>)
    requires Accumulate(total, amount).Some?
    ensures Accumulate(total, amount).value == total + amount.value
  {
    CheckedArithmeticIsExact(total, amount.value);
  }

  lemma {:induction false} LatenessIs(a: PlanningActivity, start: int64)
    requires a.Valid() && LatenessOf(a, start).Some?
    ensures LatenessOf(a, start).value == LateBy(a, start)
  {
    var due := if a.activity.timing.reservation.Some? then a.activity.timing.reservation else a.segment.start;
    if due.Some? {
      CheckedArithmeticIsExact(start, due.value);
    }
  }

  lemma {:induction false} ShortfallIs(a: PlanningActivity, start: int64, end: int64)
    requires ShortfallOf(a, start, end).Some?
    ensures ShortfallOf(a, start, end).value == ShortBy(a, start, end)
  {
    CheckedArithmeticIsExact(end, start);
    CheckedArithmeticIsExact(Milliseconds(a.activity.timing.preferredSeconds), end - start);
  }

  lemma {:induction false} ShiftIs(a: PlanningActivity, start: int64)
    requires a.Valid() && ShiftOf(a, start).Some?
    ensures ShiftOf(a, start).value == MovedBy(a, start)
  {
    if a.segment.state.Scheduled? {
      CheckedArithmeticIsExact(start, a.segment.start.value);
    }
  }

  lemma {:induction false} LegCosts(input: SearchInput, c: Chain, d: Decision)
    requires input.Valid() && c.at <= |input.remaining| && input.IndexOf(d.ordinal).Some? && Leg(input, c, d).Some?
    ensures var index := input.IndexOf(d.ordinal).value;
      var a, after := input.remaining[index], Leg(input, c, d).value;
      && after.at == index + 1 && after.end == d.end
      && after.travel == c.travel + input.matrix.value.At(c.at, index + 1).seconds * 1000
      && after.lateness == c.lateness + LateBy(a, d.start) && after.shortfall == c.shortfall + ShortBy(a, d.start, d.end)
      && after.shift == c.shift + MovedBy(a, d.start)
  {
    var index := input.IndexOf(d.ordinal).value;
    var a := input.remaining[index];
    AddsUp(c.travel, input.TravelMs(c.at, index + 1));
    AddsUp(c.lateness, LatenessOf(a, d.start));
    AddsUp(c.shortfall, ShortfallOf(a, d.start, d.end));
    AddsUp(c.shift, ShiftOf(a, d.start));
    LatenessIs(a, d.start);
    ShortfallIs(a, d.start, d.end);
    ShiftIs(a, d.start);
  }

  lemma {:induction false} FrontIsNamed(input: SearchInput, visits: seq<Decision>, front: seq<Decision>)
    requires Named(input, visits) && visits != [] && front == visits[..|visits| - 1]
    ensures Named(input, front) && forall j | 0 <= j < |front| :: front[j] == visits[j]
    ensures forall k | 0 <= k <= |front| :: Place(input, visits, k) == Place(input, front, k)
  {
  }

  lemma {:induction false} OneTravelMore(input: SearchInput, visits: seq<Decision>, front: seq<Decision>)
    requires input.Valid() && Named(input, visits) && visits != [] && front == visits[..|visits| - 1]
    ensures Named(input, front) && Travels(input, visits) == Travels(input, front) + [TravelTo(input, visits, |front|)]
  {
    FrontIsNamed(input, visits, front);
    forall j | 0 <= j < |front| ensures Travels(input, visits)[j] == Travels(input, front)[j] {
      SameTravel(input, visits, front, j);
    }
    Appended(Travels(input, visits), Travels(input, front));
  }

  lemma {:induction false} SameTravel(input: SearchInput, visits: seq<Decision>, front: seq<Decision>, j: nat)
    requires input.Valid() && Named(input, visits) && Named(input, front) && j < |front| < |visits|
    requires Place(input, visits, j) == Place(input, front, j) && Place(input, visits, j + 1) == Place(input, front, j + 1)
    ensures Travels(input, visits)[j] == Travels(input, front)[j]
  {
  }

  lemma {:induction false} Appended(all: seq<int>, some: seq<int>)
    requires |all| == |some| + 1 && forall j | 0 <= j < |some| :: all[j] == some[j]
    ensures all == some + [all[|some|]]
  {
  }

  lemma {:induction false} OneVisitMore(input: SearchInput, visits: seq<Decision>, front: seq<Decision>, last: Decision)
    requires Named(input, visits) && visits != [] && front == visits[..|visits| - 1] && last == visits[|visits| - 1]
    ensures Named(input, front)
    ensures Latenesses(input, visits) == Latenesses(input, front) + [LateBy(Visited(input, last), last.start)]
    ensures Shortfalls(input, visits) == Shortfalls(input, front) + [ShortBy(Visited(input, last), last.start, last.end)]
    ensures Moves(input, visits) == Moves(input, front) + [MovedBy(Visited(input, last), last.start)]
  {
    FrontIsNamed(input, visits, front);
  }

  lemma {:induction false} RunTells(input: SearchInput, visits: seq<Decision>)
    requires input.Valid() && Named(input, visits) && Run(input, visits).Some?
    ensures TellsRun(input, visits, Run(input, visits).value)
  {
    if visits != [] {
      var front, last := visits[..|visits| - 1], visits[|visits| - 1];
      RunLast(input, visits, front);
      RunTells(input, front);
      FrontIsNamed(input, visits, front);
      OneTravelMore(input, visits, front);
      OneVisitMore(input, visits, front, last);
      LegCosts(input, Run(input, front).value, last);
      SumAppend(Travels(input, front), TravelTo(input, visits, |front|));
      SumAppend(Latenesses(input, front), LateBy(Visited(input, last), last.start));
      SumAppend(Shortfalls(input, front), ShortBy(Visited(input, last), last.start, last.end));
      SumAppend(Moves(input, front), MovedBy(Visited(input, last), last.start));
    }
  }

  // ----- sums over the activities -----

  lemma {:induction false} SkippedIsDropped(input: SearchInput, ds: seq<Decision>, ordinal: nat)
    requires Known(input, ds)
    ensures SkippedIn(ds, ordinal) <==> Dropped(ds, ordinal)
  {
    if SkippedIn(ds, ordinal) {
      var d :| d in ds && d.kind != 0 && d.ordinal == ordinal;
      var k :| 0 <= k < |ds| && ds[k] == d;
      assert ds[k].kind == 1 && ds[k].ordinal == ordinal;
    }
  }

  lemma {:induction false} UtilityIs(input: SearchInput, ds: seq<Decision>, n: nat)
    requires n <= |input.remaining| && Known(input, ds)
    ensures KeptUtility(input, ds, n) == Sum(Utilities(input, ds, n))
  {
    if n > 0 {
      var a := input.remaining[n - 1];
      UtilityIs(input, ds, n - 1);
      SkippedIsDropped(input, ds, a.ordinal);
      var amount := if Dropped(ds, a.ordinal) then 0 else a.activity.utility;
      assert Utilities(input, ds, n) == Utilities(input, ds, n - 1) + [amount];
      SumAppend(Utilities(input, ds, n - 1), amount);
    }
  }

  lemma {:induction false} SkipsOfRankAre(input: SearchInput, ds: seq<Decision>, rank: int, n: nat)
    requires n <= |input.remaining| && Known(input, ds)
    ensures SkipCount(input, ds, rank, n) == Sum(DropsOfRank(input, ds, rank, n))
  {
    if n > 0 {
      var a := input.remaining[n - 1];
      SkipsOfRankAre(input, ds, rank, n - 1);
      SkippedIsDropped(input, ds, a.ordinal);
      var amount := if Dropped(ds, a.ordinal) && a.activity.priorityRank == rank then 1 else 0;
      assert DropsOfRank(input, ds, rank, n) == DropsOfRank(input, ds, rank, n - 1) + [amount];
      SumAppend(DropsOfRank(input, ds, rank, n - 1), amount);
    }
  }

  lemma {:induction false} RankIsHeld(input: SearchInput, rank: int) returns (i: nat)
    requires rank in Ranks(input)
    ensures i < |input.remaining| && input.remaining[i].activity.priorityRank == rank
  {
    var list := RankList(input);
    var sorted := Sort(IntLess, list);
    DedupeKeeps(sorted, rank);
    SameElements(list, sorted);
    i :| 0 <= i < |list| && list[i] == rank;
  }

  lemma {:induction false} RanksAre(input: SearchInput)
    ensures AreRanks(input, Ranks(input))
  {
    RanksAreRanks(input);
    forall r | r in Ranks(input) ensures exists i | 0 <= i < |input.remaining| :: input.remaining[i].activity.priorityRank == r {
      var i := RankIsHeld(input, r);
    }
  }

  lemma {:induction false} SkipsAre(input: SearchInput, ds: seq<Decision>, ranks: seq<int>)
    requires Known(input, ds)
    ensures CountsSkips(input, ds, ranks, SkipCounts(input, ds, ranks))
  {
    forall r | 0 <= r < |ranks|
      ensures SkipCounts(input, ds, ranks)[r] == Sum(DropsOfRank(input, ds, ranks[r], |input.remaining|))
    {
      SkipsOfRankAre(input, ds, ranks[r], |input.remaining|);
    }
  }

  // ----- the key -----

  lemma {:induction false} SkippedKey(ds: seq<Decision>, x: int)
    requires forall k | 0 <= k < |ds| :: ds[k].kind <= 1
    ensures x in KeyOf(ds).skipped <==> exists k | 0 <= k < |ds| :: ds[k].kind == 1 && ds[k].ordinal == x
  {
    var skips := Skips(ds);
    var ordinals := OrdinalsOf(skips);
    SameElements(ordinals, Sort(IntLess, ordinals));
    VisitsMembers(ds);
    if x in ordinals {
      var j :| 0 <= j < |skips| && ordinals[j] == x;
      assert skips[j] in ds;
      var k :| 0 <= k < |ds| && ds[k] == skips[j];
      assert ds[k].kind == 1;
    }
    if k :| 0 <= k < |ds| && ds[k].kind == 1 && ds[k].ordinal == x {
      assert ds[k] in skips;
      var j :| 0 <= j < |skips| && skips[j] == ds[k];
      assert ordinals[j] == x;
    }
  }

  lemma {:induction false} KeyTells(input: SearchInput, ds: seq<Decision>)
    requires Accepted(input, ds)
    ensures TellsPlan(ds, KeyOf(ds))
  {
    AcceptedScoreIsValid(input, ds);
    forall x ensures x in KeyOf(ds).skipped <==> exists k | 0 <= k < |ds| :: ds[k].kind == 1 && ds[k].ordinal == x {
      SkippedKey(ds, x);
    }
  }

  // ----- scores -----

  /** What a score says about the decisions it is the score of. */
  ghost predicate TellsScore(input: SearchInput, ds: seq<Decision>, score: Score) {
    var visits := Visits(ds);
    && input.Valid() && Named(input, visits)
    && score.travel == Sum(Travels(input, visits)) && score.lateness == Sum(Latenesses(input, visits))
    && score.shortfall == Sum(Shortfalls(input, visits)) && score.shift == Sum(Moves(input, visits))
    && score.finalEnd == (if visits == [] then input.SuffixStart() else visits[|visits| - 1].end)
    && score.utility == Sum(Utilities(input, ds, |input.remaining|))
    && (exists ranks :: AreRanks(input, ranks) && CountsSkips(input, ds, ranks, score.skips))
    && TellsPlan(ds, score.key)
  }

  /** Every score is made of these sums. */
  lemma {:induction false} ScoreTells(input: SearchInput, ds: seq<Decision>)
    requires ScoreCandidate(input, ds).Some?
    ensures TellsScore(input, ds, ScoreCandidate(input, ds).value)
  {
    VisitsKnown(input, ds);
    RunTells(input, Visits(ds));
    UtilityIs(input, ds, |input.remaining|);
    RanksAre(input);
    SkipsAre(input, ds, Ranks(input));
    KeyTells(input, ds);
  }
}

/** The scoring loop, with or without the columnar view and with or without
    validating the input again, computes the score. */
module ScoreLoop {
  import opened Domain
  import opened Sorting
  import opened PlannerInput
  import opened Alternatives
  import opened CandidateScores
  import opened Scoring
  import opened SearchSpace
  import opened ScoreState
  import opened PlannerColumns

  ghost predicate Usable(input: SearchInput, columns: Option<Columns>) {
    input.Valid() && (columns.Some? ==> ColumnsOf(input, columns.value))
  }

  // ----- accessors: the same value from either layout -----

  method LookUp(input: SearchInput, columns: Option<Columns>, ordinal: nat) returns (r: Option<nat>)
    requires Usable(input, columns)
    ensures r == input.IndexOf(ordinal)
  {
    if columns.Some? {
      r := FindOrdinal(input, columns.value, ordinal);
    } else {
      r := input.IndexOf(ordinal);
    }
  }

  /** The facts scoring needs about one activity. */
  datatype Facts = Facts(
    baseline: bool, mandatory: bool, skippable: bool, reserved: bool,
    utility: int32, preferred: int64, baselineStart: int64, baselineEnd: int64, reservation: int64, matrixIndex: nat)

  function FactsOf(input: SearchInput, index: nat): Facts
    requires index < |input.remaining|
  {
    var a := input.remaining[index];
    Facts(a.BaselineScheduled(), a.activity.timing.mandatory, a.activity.timing.canSkip,
          a.activity.timing.reservation.Some?, a.activity.utility, Milliseconds(a.activity.timing.preferredSeconds),
          a.segment.start.GetOr(0), a.segment.end.GetOr(0), a.activity.timing.reservation.GetOr(0), index + 1)
  }

  method ReadFacts(input: SearchInput, columns: Option<Columns>, index: nat) returns (r: Facts)
    requires Usable(input, columns) && index < |input.remaining|
    ensures r == FactsOf(input, index)
  {
    if columns.Some? {
      var c := columns.value;
      assert RowOf(input.remaining[index], c, index);
      FlagsReadBack(input.remaining[index]);
      r := Facts(Has(c.flags[index], BASELINE_SCHEDULED), Has(c.flags[index], MANDATORY), Has(c.flags[index], SKIPPABLE),
                 Has(c.flags[index], RESERVATION_PRESENT), c.utilities[index], c.preferredMs[index],
                 c.baselineStart[index], c.baselineEnd[index], c.reservationStart[index], c.matrixIndices[index]);
    } else {
      r := FactsOf(input, index);
    }
  }

  // ----- one scheduled decision -----

  /** Extends the chain by one visit, reading the activity through its facts. */
  method TakeLeg(input: SearchInput, chain: Chain, d: Decision, index: nat, facts: Facts, validateInput: bool)
    returns (r: Option<Chain>)
    requires input.Valid() && chain.at <= |input.remaining| && input.IndexOf(d.ordinal) == Some(index)
    requires facts == FactsOf(input, index)
    ensures r == Leg(input, chain, d)
  {
    r := None;
    var travel := TravelToVisit(input, chain, d, index, facts, validateInput);
    if travel.Some? {
      r := AddCosts(chain, d, index, input.remaining[index], facts, travel.value);
    }
  }

  /** The travel time to a visit that is one of the offered intervals. */
  method TravelToVisit(input: SearchInput, chain: Chain, d: Decision, index: nat, facts: Facts, validateInput: bool)
    returns (r: Option<int64>)
    requires input.Valid() && chain.at <= |input.remaining| && index < |input.remaining| && facts.matrixIndex == index + 1
    ensures var arrival := ArrivalAt(input, chain.at, chain.end, index);
      r == if d.start < d.end && arrival.Some? && Offers(AlternativesFor(input, input.remaining[index], arrival.value), d.start, d.end)
           then input.TravelMs(chain.at, index + 1) else None
    ensures r.Some? ==> d.start < d.end
  {
    r := None;
    var travel := input.TravelMs(chain.at, facts.matrixIndex);
    var arrival := if travel.Some? then CheckedAdd(chain.end, travel.value) else None;
    if d.start < d.end && arrival.Some? {
      var alternatives := GenerateAlternatives(input, input.remaining[index], arrival.value, validateInput);
      if Offers(alternatives, d.start, d.end) {
        r := travel;
      }
    }
  }

  method AddCosts(chain: Chain, d: Decision, index: nat, ghost a: PlanningActivity, facts: Facts, travelMs: int64)
    returns (r: Option<Chain>)
    requires a.Valid() && d.start < d.end
    requires facts == Facts(a.BaselineScheduled(), a.activity.timing.mandatory, a.activity.timing.canSkip,
                            a.activity.timing.reservation.Some?, a.activity.utility,
                            Milliseconds(a.activity.timing.preferredSeconds), a.segment.start.GetOr(0),
                            a.segment.end.GetOr(0), a.activity.timing.reservation.GetOr(0), index + 1)
    ensures r == WithCosts(chain, d, index, a, Some(travelMs))
  {
    var travel := CheckedAdd(chain.travel, travelMs);
    var duration := CheckedSubtract(d.end, d.start);
    CheckedArithmeticIsExact(d.end, d.start);
    if travel.None? || duration.None? || facts.preferred <= 0 {
      return None;
    }
    var shortfall := chain.shortfall;
    if duration.value < facts.preferred {
      CheckedArithmeticIsExact(facts.preferred, duration.value);
      var sum := CheckedAdd(shortfall, facts.preferred - duration.value);
      if sum.None? {
        return None;
      }
      shortfall := sum.value;
    }
    var lateness := chain.lateness;
    if facts.reserved || facts.baseline {
      var anchor := if facts.reserved then facts.reservation else facts.baselineStart;
      if d.start > anchor {
        var late := CheckedSubtract(d.start, anchor);
        var sum := if late.Some? then CheckedAdd(lateness, late.value) else None;
        if sum.None? {
          return None;
        }
        lateness := sum.value;
      }
    }
    var shift := chain.shift;
    if facts.baseline {
      var moved := CheckedAbsoluteDifference(d.start, facts.baselineStart);
      var sum := if moved.Some? then CheckedAdd(shift, moved.value) else None;
      if sum.None? {
        return None;
      }
      shift := sum.value;
    }
    r := Some(Chain(index + 1, d.end, travel.value, shortfall, lateness, shift));
  }

  // ----- one decision -----

  method ScoreSkip(input: SearchInput, ghost ds: seq<Decision>, st: State, d: Decision, index: nat, facts: Facts, ranks: seq<int>)
    returns (next: Option<State>)
    requires Represents(input, ds, st) && |ds| < |input.remaining| && d.kind == 1
    requires input.IndexOf(d.ordinal) == Some(index) && !Decided(ds, d.ordinal)
    requires facts == FactsOf(input, index) && ranks == Ranks(input)
    ensures next.Some? ==> Represents(input, ds + [d], next.value)
    ensures next.None? ==> !Accepted(input, ds + [d])
  {
    AcceptedAppend(input, ds, d);
    if d.start != 0 || d.end != 0 || facts.mandatory || !facts.skippable {
      return None;
    }
    var rank := input.remaining[index].activity.priorityRank;
    RanksAreRanks(input);
    var position := LowerBound(ranks, rank);
    RankIsFound(ranks, rank, position);
    SkipCountBound(input, ds, ranks[position], |input.remaining|);
    if position == |ranks| || ranks[position] != rank || st.skipCounts[position] == UINT32_MAX {
      assert false;
      return None;
    }
    var reduced := CheckedSubtract(st.utility, facts.utility);
    UtilityBound(input, ds, |input.remaining|);
    CheckedArithmeticIsExact(st.utility, facts.utility);
    if reduced.None? {
      assert false;
      return None;
    }
    SkipStep(input, ds, d, index, position, st, reduced.value);
    next := Some(SkipUpdate(input, st, index, position, d.ordinal, reduced.value));
  }

  lemma {:induction false} RankIsFound(ranks: seq<int>, rank: int, position: nat)
    requires rank in ranks && position <= |ranks|
    requires forall k | 0 <= k < position :: ranks[k] < rank
    requires forall k | position <= k < |ranks| :: rank <= ranks[k]
    requires StrictlyAscending(ranks)
    ensures position < |ranks| && ranks[position] == rank
  {
    var k :| 0 <= k < |ranks| && ranks[k] == rank;
    assert position <= k;
  }

  method ScoreDecision(input: SearchInput, columns: Option<Columns>, ghost ds: seq<Decision>, st: State, d: Decision,
                       ranks: seq<int>, validateInput: bool)
    returns (next: Option<State>)
    requires Usable(input, columns) && Represents(input, ds, st) && |ds| < |input.remaining| && ranks == Ranks(input)
    ensures next.Some? ==> Represents(input, ds + [d], next.value)
    ensures next.None? ==> !Accepted(input, ds + [d])
  {
    AcceptedAppend(input, ds, d);
    var found := LookUp(input, columns, d.ordinal);
    if found.None? || st.decided[found.value] || d.kind > 1 {
      return None;
    }
    var index := found.value;
    var facts := ReadFacts(input, columns, index);
    if d.kind == 1 {
      next := ScoreSkip(input, ds, st, d, index, facts, ranks);
    } else {
      var chain := TakeLeg(input, st.chain, d, index, facts, validateInput);
      if chain.None? {
        return None;
      }
      VisitStep(input, ds, d, index, st, chain.value);
      next := Some(VisitUpdate(input, st, index, d, chain.value));
    }
  }

  // ----- counting the changes -----

  /** Positions of each activity in the two common orders. */
  method CommonPositions(n: nat, baseline: seq<nat>, candidate: seq<nat>)
    returns (baselinePositions: seq<nat>, candidatePositions: seq<nat>)
    requires |baseline| == |candidate| && Distinct(baseline) && Distinct(candidate)
    requires forall k | 0 <= k < |baseline| :: baseline[k] < n && candidate[k] < n
    ensures |baselinePositions| == n && |candidatePositions| == n
    ensures forall k | 0 <= k < |baseline| :: baselinePositions[baseline[k]] == k && candidatePositions[candidate[k]] == k
  {
    baselinePositions, candidatePositions := seq(n, _ => 0), seq(n, _ => 0);
    for position := 0 to |baseline|
      invariant |baselinePositions| == n && |candidatePositions| == n
      invariant forall k | 0 <= k < position :: baselinePositions[baseline[k]] == k && candidatePositions[candidate[k]] == k
    {
      baselinePositions := baselinePositions[baseline[position] := position];
      candidatePositions := candidatePositions[candidate[position] := position];
    }
  }

  method BaselineOrder(common: seq<bool>, ghost commonOrder: seq<nat>) returns (order: seq<nat>)
    requires forall i | 0 <= i < |common| :: common[i] <==> i in commonOrder
    ensures order == PlanOrder(commonOrder, |common|)
  {
    order := [];
    for index := 0 to |common|
      invariant order == PlanOrder(commonOrder, index)
    {
      if common[index] {
        order := order + [index];
      }
    }
  }

  lemma {:induction false} ChangedByParts(input: SearchInput, ds: seq<Decision>, i: nat)
    requires input.Valid() && Known(input, ds) && i < |input.remaining|
    ensures forall k | 0 <= k < |Visits(ds)| :: input.IndexOf(Visits(ds)[k].ordinal).Some?
    ensures ChangedBy(input, ds, i) <==>
            DirectlyChanged(input, ds, i) || OutOfPlace(CommonOrder(input, Visits(ds)), i)
  {
    VisitsKnown(input, ds);
    KnownVisits(input, ds);
    CommonOrderMembers(input, Visits(ds));
  }

  /** The two common orders have the same length, so the defensive check between them never fails. */
  lemma {:induction false} CommonSizesAgree(common: seq<nat>, n: nat)
    requires Distinct(common) && forall k | 0 <= k < |common| :: common[k] < n
    ensures |PlanOrder(common, n)| == |common| && Distinct(PlanOrder(common, n))
  {
    PlanOrderDistinct(common, n);
    forall x: nat ensures x in PlanOrder(common, n) <==> x in common {
      if x in common { PlanOrderPosition(common, n, x); }
      if x in PlanOrder(common, n) { PlanOrderMember(common, n, x); }
    }
    DistinctPermutation(PlanOrder(common, n), common);
    Sorting.SameElements(PlanOrder(common, n), common);
  }

  lemma {:induction false} PlanOrderMember(common: seq<nat>, n: nat, x: nat)
    requires x in PlanOrder(common, n)
    ensures x in common
  {
    if n > 0 && x in PlanOrder(common, n - 1) { PlanOrderMember(common, n - 1, x); }
  }

  lemma {:induction false} PlaceIsCompared(common: seq<nat>, n: nat, i: nat, baselineAt: nat, candidateAt: nat)
    requires Distinct(common) && i < n && i in common
    requires forall k | 0 <= k < |PlanOrder(common, n)| && PlanOrder(common, n)[k] == i :: baselineAt == k
    requires forall k | 0 <= k < |common| && common[k] == i :: candidateAt == k
    ensures OutOfPlace(common, i) <==> baselineAt != candidateAt
  {
    PlanOrderPosition(common, n, i);
    var p :| 0 <= p < |common| && common[p] == i;
  }

  method TallyChanges(ghost input: SearchInput, ghost ds: seq<Decision>, flags: seq<bool>, common: seq<bool>,
                      baselinePositions: seq<nat>, candidatePositions: seq<nat>)
    returns (r: Option<int64>)
    requires input.Valid() && Known(input, ds)
    requires |flags| == |common| == |baselinePositions| == |candidatePositions| == |input.remaining|
    requires forall i | 0 <= i < |flags| ::
      ChangedBy(input, ds, i) <==> flags[i] || (common[i] && baselinePositions[i] != candidatePositions[i])
    ensures r == Some(ChangedCount(input, ds, |input.remaining|))
  {
    var changed := flags;
    var count: int64 := 0;
    for index := 0 to |flags|
      invariant |changed| == |flags| && forall i | index <= i < |flags| :: changed[i] == flags[i]
      invariant count == ChangedCount(input, ds, index) <= index
    {
      if common[index] && baselinePositions[index] != candidatePositions[index] {
        changed := changed[index := true];
      }
      if changed[index] {
        var sum := CheckedAdd(count, 1);
        if sum.None? {
          assert false;
          return None;
        }
        count := sum.value;
      }
    }
    r := Some(count);
  }

  method CountChanged(input: SearchInput, ghost ds: seq<Decision>, st: State) returns (r: Option<int64>)
    requires input.Valid() && Known(input, ds) && Flags(input, ds, st) && VisitsAre(input, ds, st)
    ensures r == Some(ChangedCount(input, ds, |input.remaining|))
  {
    var n := |input.remaining|;
    var common := st.commonOrder;
    KnownVisits(input, ds);
    CommonOrderDistinct(input, Visits(ds));
    CommonSizesAgree(common, n);
    var baseline := BaselineOrder(st.common, common);
    if |baseline| != |common| {
      assert false;
      return None;
    }
    var baselinePositions, candidatePositions := CommonPositions(n, baseline, common);
    forall i | 0 <= i < n
      ensures ChangedBy(input, ds, i) <==> st.changed[i] || (st.common[i] && baselinePositions[i] != candidatePositions[i])
    {
      ChangedByParts(input, ds, i);
      if i in common {
        PlaceIsCompared(common, n, i, baselinePositions[i], candidatePositions[i]);
      }
    }
    r := TallyChanges(input, ds, st.changed, st.common, baselinePositions, candidatePositions);
  }

  // ----- the whole loop -----

  lemma {:induction false} NothingKeepsAll(input: SearchInput)
    requires input.Valid()
    ensures Accepted(input, []) && ChainOf(input, []) == Some(ChainStart(input))
  {
  }

  /** Sums every utility, as if all activities were kept. */
  method OptimisticUtility(input: SearchInput, columns: Option<Columns>) returns (total: int64)
    requires Usable(input, columns)
    ensures total == KeptUtility(input, [], |input.remaining|)
  {
    total := 0;
    for index := 0 to |input.remaining|
      invariant total == KeptUtility(input, [], index)
    {
      var facts := ReadFacts(input, columns, index);
      UtilityBound(input, [], index);
      CheckedArithmeticIsExact(total, facts.utility);
      var sum := CheckedAdd(total, facts.utility);
      assert !SkippedIn([], input.remaining[index].ordinal);
      if sum.None? {
        assert false;
      } else {
        total := sum.value;
      }
    }
  }

  lemma {:induction false} InitialState(input: SearchInput, ranks: seq<int>, utility: int64)
    requires input.Valid() && ranks == Ranks(input) && utility == KeptUtility(input, [], |input.remaining|)
    ensures Represents(input, [], StartState(input, |ranks|, utility))
  {
    NothingKeepsAll(input);
    forall r | 0 <= r < |ranks| ensures SkipCounts(input, [], ranks)[r] == 0 {
      NoSkips(input, ranks[r], |input.remaining|);
    }
  }

  lemma {:induction false} NoSkips(input: SearchInput, rank: int, limit: nat)
    requires limit <= |input.remaining|
    ensures SkipCount(input, [], rank, limit) == 0
  {
    if limit > 0 { NoSkips(input, rank, limit - 1); }
  }

  function StartState(input: SearchInput, ranks: nat, utility: int64): State {
    var n := |input.remaining|;
    State(seq(n, _ => false), seq(n, _ => false), seq(n, _ => false), [], seq(ranks, _ => 0), utility,
          ChainStart(input), [], [])
  }

  lemma {:induction false} AcceptedTake(input: SearchInput, ds: seq<Decision>, k: nat)
    requires k <= |ds| && Accepted(input, ds)
    ensures Accepted(input, ds[..k])
    decreases |ds|
  {
    if k < |ds| {
      var front, last := ds[..|ds| - 1], ds[|ds| - 1];
      assert ds == front + [last];
      AcceptedAppend(input, front, last);
      AcceptedTake(input, front, k);
      assert front[..k] == ds[..k];
    } else {
      assert ds[..k] == ds;
    }
  }

  lemma {:induction false} RejectedTake(input: SearchInput, ds: seq<Decision>, k: nat)
    requires k <= |ds| && !Accepted(input, ds[..k])
    ensures !Accepted(input, ds)
  {
    if Accepted(input, ds) { AcceptedTake(input, ds, k); }
  }

  /** One round of the loop. */
  method ScoreNext(input: SearchInput, columns: Option<Columns>, ds: seq<Decision>, k: nat, st: State, ranks: seq<int>,
                   validateInput: bool)
    returns (next: Option<State>)
    requires Usable(input, columns) && k < |ds| <= |input.remaining| && ranks == Ranks(input)
    requires Represents(input, ds[..k], st)
    ensures next.Some? ==> Represents(input, ds[..k + 1], next.value)
    ensures next.None? ==> !Accepted(input, ds)
  {
    assert ds[..k + 1] == ds[..k] + [ds[k]];
    next := ScoreDecision(input, columns, ds[..k], st, ds[k], ranks, validateInput);
    if next.None? { RejectedTake(input, ds, k + 1); }
  }

  /** Runs the decisions through the loop. */
  method ScoreDecisions(input: SearchInput, columns: Option<Columns>, ds: seq<Decision>, ranks: seq<int>, validateInput: bool)
    returns (r: Option<State>)
    requires Usable(input, columns) && |ds| <= |input.remaining| && ranks == Ranks(input)
    ensures r.Some? ==> Represents(input, ds, r.value)
    ensures r.None? ==> !Accepted(input, ds)
  {
    var utility := OptimisticUtility(input, columns);
    InitialState(input, ranks, utility);
    var st := StartState(input, |ranks|, utility);
    assert ds[..0] == [];
    for k := 0 to |ds|
      invariant Represents(input, ds[..k], st)
    {
      var next := ScoreNext(input, columns, ds, k, st, ranks, validateInput);
      if next.None? {
        return None;
      }
      st := next.value;
    }
    assert ds[..|ds|] == ds;
    r := Some(st);
  }

  // ----- the final validity check never fails -----

  lemma {:induction false} LegAddsCosts(input: SearchInput, c: Chain, d: Decision)
    requires input.Valid() && c.at <= |input.remaining| && input.IndexOf(d.ordinal).Some? && Leg(input, c, d).Some?
    requires CostsNothingNegative(c)
    ensures CostsNothingNegative(Leg(input, c, d).value) && d.start < d.end
  {
    var index := input.IndexOf(d.ordinal).value;
    var a := input.remaining[index];
    CostsAreNonNegative(a, d.start, d.end);
    AccumulateGrows(c.travel, input.TravelMs(c.at, index + 1));
    AccumulateGrows(c.shortfall, ShortfallOf(a, d.start, d.end));
    AccumulateGrows(c.lateness, LatenessOf(a, d.start));
    AccumulateGrows(c.shift, ShiftOf(a, d.start));
  }

  lemma {:induction false} AccumulateGrows(total: int64, amount: Option<int64>)
    requires amount.Some? ==> 0 <= amount.value
    ensures Accumulate(total, amount).Some? ==> total <= Accumulate(total, amount).value
  {
  }

  lemma {:induction false} CostsAreNonNegative(a: PlanningActivity, start: int64, end: int64)
    requires a.Valid() && start < end
    ensures ShortfallOf(a, start, end).Some? ==> 0 <= ShortfallOf(a, start, end).value
    ensures LatenessOf(a, start).Some? ==> 0 <= LatenessOf(a, start).value
    ensures ShiftOf(a, start).Some? ==> 0 <= ShiftOf(a, start).value
  {
    CheckedArithmeticIsExact(end, start);
    if LatenessAnchor(a).Some? { CheckedArithmeticIsExact(start, LatenessAnchor(a).value); }
    if a.BaselineScheduled() { CheckedArithmeticIsExact(start, a.segment.start.value); }
  }

  predicate CostsNothingNegative(c: Chain) { 0 <= c.travel && 0 <= c.shortfall && 0 <= c.lateness && 0 <= c.shift }

  lemma {:induction false} RunCosts(input: SearchInput, visits: seq<Decision>)
    requires input.Valid() && (forall k | 0 <= k < |visits| :: input.IndexOf(visits[k].ordinal).Some?)
    requires Run(input, visits).Some?
    ensures CostsNothingNegative(Run(input, visits).value)
  {
    if visits != [] {
      var front := visits[..|visits| - 1];
      RunLast(input, visits, front);
      RunCosts(input, front);
      LegAddsCosts(input, Run(input, front).value, visits[|visits| - 1]);
    }
  }

  lemma {:induction false} RunGoesForward(input: SearchInput, visits: seq<Decision>, k: nat)
    requires input.Valid() && (forall j | 0 <= j < |visits| :: input.IndexOf(visits[j].ordinal).Some?)
    requires Run(input, visits).Some? && k < |visits|
    ensures visits[k].start < visits[k].end
  {
    RunTake(input, visits, k + 1);
    LastGoesForward(input, visits[..k + 1]);
  }

  lemma {:induction false} LastGoesForward(input: SearchInput, visits: seq<Decision>)
    requires input.Valid() && (forall j | 0 <= j < |visits| :: input.IndexOf(visits[j].ordinal).Some?)
    requires Run(input, visits).Some? && visits != []
    ensures visits[|visits| - 1].start < visits[|visits| - 1].end
  {
    var front := visits[..|visits| - 1];
    RunLast(input, visits, front);
    LegGoesForward(input, Run(input, front).value, visits[|visits| - 1]);
  }

  lemma {:induction false} LegGoesForward(input: SearchInput, c: Chain, d: Decision)
    requires input.Valid() && c.at <= |input.remaining| && input.IndexOf(d.ordinal).Some? && Leg(input, c, d).Some?
    ensures d.start < d.end
  {
  }

  lemma {:induction false} SortedSkipsAscend(ordinals: seq<int>)
    requires Distinct(ordinals)
    ensures StrictlyAscending(Sort(IntLess, ordinals))
    ensures forall x :: x in Sort(IntLess, ordinals) <==> x in ordinals
  {
    var sorted := Sort(IntLess, ordinals);
    IntOrder();
    SortSorts(IntLess, ordinals);
    SameElements(ordinals, sorted);
    forall i, j | 0 <= i < j < |sorted| ensures sorted[i] < sorted[j] {
      assert !IntLess(sorted[j], sorted[i]);
      DistinctCounts(ordinals, sorted[i]);
      assert sorted == sorted[..j] + [sorted[j]] + sorted[j + 1..] && sorted[i] in sorted[..j];
    }
  }

  lemma {:induction false} KeyIsValid(input: SearchInput, ds: seq<Decision>)
    requires Known(input, ds) && forall k | 0 <= k < |Visits(ds)| :: Visits(ds)[k].start < Visits(ds)[k].end
    ensures KeyOf(ds).Valid()
  {
    HalvesAreKnown(input, ds);
    var visits, skips := Visits(ds), OrdinalsOf(Skips(ds));
    SortedSkipsAscend(skips);
    var sorted := Sort(IntLess, skips);
    forall i, j | 0 <= i < j < |sorted| ensures sorted[i] < sorted[j] {}
    forall k | 0 <= k < |visits| ensures visits[k].ordinal !in sorted {
      assert visits[k].ordinal !in skips;
    }
    assert Distinct(OrdinalsOf(visits));
  }

  /** Every accepted sequence has a valid score. */
  lemma {:induction false} AcceptedScoreIsValid(input: SearchInput, ds: seq<Decision>)
    requires Accepted(input, ds)
    ensures ScoreOf(input, ds, ChainOf(input, ds).value).Valid()
  {
    VisitsKnown(input, ds);
    RunCosts(input, Visits(ds));
    forall k | 0 <= k < |Visits(ds)| ensures Visits(ds)[k].start < Visits(ds)[k].end {
      RunGoesForward(input, Visits(ds), k);
    }
    KeyIsValid(input, ds);
  }

  // ----- the scorer -----

  method CollectRanks(input: SearchInput, columns: Option<Columns>) returns (ranks: seq<int>)
    requires Usable(input, columns)
    ensures ranks == Ranks(input)
  {
    var list: seq<int> := [];
    for index := 0 to |input.remaining|
      invariant list == RankList(input)[..index]
    {
      if columns.Some? {
        assert RowOf(input.remaining[index], columns.value, index);
        list := list + [columns.value.ranks[index]];
      } else {
        list := list + [input.remaining[index].activity.priorityRank];
      }
    }
    assert RankList(input)[..|input.remaining|] == RankList(input);
    ranks := Dedupe(Sort(IntLess, list));
  }

  lemma {:induction false} AllAreDecided(input: SearchInput, ds: seq<Decision>, decided: seq<bool>)
    requires Known(input, ds) && |ds| == |input.remaining| == |decided|
    requires forall i | 0 <= i < |decided| :: decided[i] <==> Decided(ds, input.remaining[i].ordinal)
    ensures false !in decided
  {
    forall i | 0 <= i < |decided| ensures decided[i] { FullLengthDecidesAll(input, ds, i); }
  }

  /** `score_candidate_impl`: whichever layout it reads and whether or not it
      validates the input again, it computes the score. */
  method ComputeScore(input: SearchInput, ds: seq<Decision>, columns: Option<Columns>, validateInput: bool)
    returns (r: Option<Score>)
    requires !validateInput ==> input.Valid()
    requires columns.Some? ==> input.Valid() && ColumnsOf(input, columns.value)
    ensures r == ScoreCandidate(input, ds)
  {
    if validateInput && !input.Valid() {
      return None;
    }
    if |ds| > |input.remaining| {
      return None;
    }
    var ranks := CollectRanks(input, columns);
    var scored := ScoreDecisions(input, columns, ds, ranks, validateInput);
    if scored.None? {
      return None;
    }
    r := FinishScore(input, ds, scored.value);
  }

  method FinishScore(input: SearchInput, ds: seq<Decision>, st: State) returns (r: Option<Score>)
    requires Represents(input, ds, st)
    ensures r == ScoreCandidate(input, ds)
  {
    if |ds| == |input.remaining| && false in st.decided {
      AllAreDecided(input, ds, st.decided);
      assert false;
      return None;
    }
    var changed := CountChanged(input, ds, st);
    if changed.None? {
      assert false;
      return None;
    }
    var key := PlanKey(OrdinalsOf(st.visits), EntriesOf(st.visits), Sort(IntLess, st.skipped));
    var score := Score(st.skipCounts, st.utility, st.chain.lateness, st.chain.shortfall, st.chain.travel,
                       changed.value, st.chain.shift, st.chain.end, key);
    assert score == ScoreOf(input, ds, st.chain);
    AcceptedScoreIsValid(input, ds);
    r := if score.Valid() then Some(score) else None;
  }
}

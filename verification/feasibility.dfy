/** When the planner calls a trip infeasible, no plan at any start times exists.
    Plans are judged here by the planning contract's own hard constraints. */
module Feasibility {
  import opened Domain
  import opened PlannerInput
  import opened Alternatives
  import opened CandidateScores
  import opened Scoring
  import opened SearchSpace

  ghost predicate VisitsNamed(input: SearchInput, visits: seq<Decision>) {
    forall k | 0 <= k < |visits| :: input.IndexOf(visits[k].ordinal).Some?
  }

  /** Matrix position and time after the given visits. */
  ghost function StandAfter(input: SearchInput, visits: seq<Decision>): (r: (nat, int))
    requires VisitsNamed(input, visits)
    ensures r.0 <= |input.remaining|
  {
    if visits == [] then (0, input.SuffixStart())
    else (input.IndexOf(visits[|visits| - 1].ordinal).value + 1, visits[|visits| - 1].end)
  }

  /** Every visit is reachable in time from the one before it and may occupy its interval. */
  ghost predicate LegalVisits(input: SearchInput, visits: seq<Decision>)
    requires input.Valid() && VisitsNamed(input, visits)
  {
    visits == [] ||
    var front, last := visits[..|visits| - 1], visits[|visits| - 1];
    LegalVisits(input, front) && LegalVisit(input, StandAfter(input, front), last)
  }

  ghost predicate LegalVisit(input: SearchInput, from: (nat, int), d: Decision)
    requires input.Valid() && from.0 <= |input.remaining| && input.IndexOf(d.ordinal).Some?
  {
    var index := input.IndexOf(d.ordinal).value;
    var route := input.matrix.value.At(from.0, index + 1);
    route.reachable && from.1 + route.seconds * 1000 <= d.start
    && MayOccupy(input, input.remaining[index], d.start, d.end)
  }

  /** A plan under the contract: each activity exactly once, only optional ones
      skipped, and the visits legal at whatever starts they have. */
  ghost predicate LegalPlan(input: SearchInput, ds: seq<Decision>) {
    Acceptable(input, ds) && |ds| == |input.remaining| && (VisitsKnown(input, ds); LegalVisits(input, Visits(ds)))
  }

  ghost predicate PrefersPositive(input: SearchInput, visits: seq<Decision>)
    requires VisitsNamed(input, visits)
  {
    forall k | 0 <= k < |visits| :: PrefersTime(input, visits[k])
  }

  predicate PrefersTime(input: SearchInput, d: Decision)
    requires input.IndexOf(d.ordinal).Some?
  {
    input.remaining[input.IndexOf(d.ordinal).value].activity.timing.preferredSeconds > 0
  }

  // ----- whatever is accepted is legal -----

  lemma {:induction false} AcceptedLegIsLegal(input: SearchInput, c: Chain, d: Decision)
    requires input.Valid() && c.at <= |input.remaining| && input.IndexOf(d.ordinal).Some? && Leg(input, c, d).Some?
    ensures LegalVisit(input, (c.at, c.end), d)
    ensures PrefersTime(input, d)
  {
    LegAdvances(input, c, d);
    LegPrefersTime(input, c, d);
    OfferedVisitIsLegal(input, c.at, c.end, d, ArrivalAt(input, c.at, c.end, input.IndexOf(d.ordinal).value).value);
  }

  lemma {:induction false} OfferedVisitIsLegal(input: SearchInput, at: nat, end: int64, d: Decision, arrival: int64)
    requires input.Valid() && at <= |input.remaining| && input.IndexOf(d.ordinal).Some?
    requires ArrivalAt(input, at, end, input.IndexOf(d.ordinal).value) == Some(arrival)
    requires Offered(input, input.remaining[input.IndexOf(d.ordinal).value], arrival, d.start, d.end)
    ensures LegalVisit(input, (at, end), d)
  {
    var index := input.IndexOf(d.ordinal).value;
    CheckedArithmeticIsExact(end, input.TravelMs(at, index + 1).value);
    OfferedIsLegal(input, input.remaining[index], arrival, d.start, d.end);
  }

  lemma {:induction false} LegPrefersTime(input: SearchInput, c: Chain, d: Decision)
    requires input.Valid() && c.at <= |input.remaining| && input.IndexOf(d.ordinal).Some? && Leg(input, c, d).Some?
    ensures PrefersTime(input, d)
  {
    assert ShortfallOf(input.remaining[input.IndexOf(d.ordinal).value], d.start, d.end).Some?;
  }

  lemma {:induction false} RunSplit(input: SearchInput, front: seq<Decision>, last: Decision)
    requires input.Valid() && VisitsNamed(input, front) && VisitsNamed(input, front + [last])
    ensures input.IndexOf(last.ordinal).Some?
    ensures Run(input, front + [last])
         == if Run(input, front).None? then None else Leg(input, Run(input, front).value, last)
    ensures LegalVisits(input, front + [last]) <==>
            LegalVisits(input, front) && LegalVisit(input, StandAfter(input, front), last)
    ensures StandAfter(input, front + [last]) == (input.IndexOf(last.ordinal).value + 1, last.end)
    ensures PrefersPositive(input, front + [last]) <==> PrefersPositive(input, front) && PrefersTime(input, last)
  {
    var all := front + [last];
    assert all[|front|] == last && all[..|front|] == front;
    assert forall k | 0 <= k < |front| :: all[k] == front[k];
  }

  lemma {:induction false} RunStepIsLegal(input: SearchInput, front: seq<Decision>, last: Decision)
    requires input.Valid() && VisitsNamed(input, front) && VisitsNamed(input, front + [last])
    requires Run(input, front + [last]).Some?
    ensures Run(input, front).Some?
    ensures (Run(input, front).value.at, Run(input, front).value.end) == StandAfter(input, front) ==>
            LegalVisit(input, StandAfter(input, front), last)
    ensures PrefersTime(input, last)
    ensures (Run(input, front + [last]).value.at, Run(input, front + [last]).value.end)
         == StandAfter(input, front + [last])
  {
    RunSplit(input, front, last);
    AcceptedLegIsLegal(input, Run(input, front).value, last);
    LegAdvances(input, Run(input, front).value, last);
  }

  lemma {:induction false} RunIsLegal(input: SearchInput, visits: seq<Decision>)
    requires input.Valid() && VisitsNamed(input, visits) && Run(input, visits).Some?
    ensures LegalVisits(input, visits) && PrefersPositive(input, visits)
    ensures (Run(input, visits).value.at, Run(input, visits).value.end) == StandAfter(input, visits)
  {
    if visits != [] {
      var front, last := visits[..|visits| - 1], visits[|visits| - 1];
      assert visits == front + [last];
      RunStepIsLegal(input, front, last);
      RunIsLegal(input, front);
      RunSplit(input, front, last);
    }
  }

  /** Every complete plan the scorer accepts is legal, on every input. */
  lemma {:induction false} AcceptedIsLegal(input: SearchInput, ds: seq<Decision>)
    requires CompletePlan(input, ds)
    ensures LegalPlan(input, ds)
    ensures VisitsNamed(input, Visits(ds)) && PrefersPositive(input, Visits(ds))
  {
    VisitsKnown(input, ds);
    RunIsLegal(input, Visits(ds));
  }

  // ----- whatever is legal has an accepted counterpart -----

  /** Two to the power 55 milliseconds: over a million years either way. */
  const TIME_BOUND: int := 0x80_0000_0000_0000

  predicate SmallTime(t: Option<int64>) { t.Some? ==> -TIME_BOUND <= t.value <= TIME_BOUND }

  /** The times that enter sums are far from the 64-bit limits. */
  predicate SmallTimes(input: SearchInput) {
    && -TIME_BOUND <= input.horizonStart && input.horizonEnd <= TIME_BOUND
    && (forall i | 0 <= i < |input.remaining| ::
          SmallTime(input.remaining[i].activity.timing.reservation)
          && SmallTime(input.remaining[i].segment.start) && SmallTime(input.remaining[i].segment.end))
  }

  ghost predicate Bounded(input: SearchInput, c: Chain, visits: nat) {
    && input.SuffixStart() <= c.end
    && (c.end <= input.horizonEnd || visits == 0)
    && (visits == 0 ==> c.travel == 0)
    && 0 <= c.travel <= c.end - input.SuffixStart()
    && 0 <= c.shortfall <= visits * 0x1_0000_0000_0000
    && 0 <= c.lateness <= visits * (2 * TIME_BOUND)
    && 0 <= c.shift <= visits * (2 * TIME_BOUND)
  }

  lemma {:induction false} SmallIsRepresentable(input: SearchInput, i: nat)
    requires input.Valid() && SmallTimes(input) && i < |input.remaining|
    ensures Representable(input.remaining[i])
  {
    var a := input.remaining[i];
    assert SmallTime(a.activity.timing.reservation) && SmallTime(a.segment.start) && SmallTime(a.segment.end);
    if a.BaselineScheduled() {
      CheckedArithmeticIsExact(a.segment.end.value, a.segment.start.value);
    }
    if a.activity.timing.reservation.Some? {
      CheckedArithmeticIsExact(a.activity.timing.reservation.value, Milliseconds(a.activity.timing.graceSeconds));
    }
  }

  lemma {:induction false} CostsOfVisit(input: SearchInput, i: nat, start: int64, end: int64)
    requires input.Valid() && SmallTimes(input) && i < |input.remaining|
    requires input.horizonStart <= start < end <= input.horizonEnd
    requires input.remaining[i].activity.timing.preferredSeconds > 0
    ensures var a := input.remaining[i];
            var shortfall, lateness, shift := ShortfallOf(a, start, end), LatenessOf(a, start), ShiftOf(a, start);
            && shortfall.Some? && 0 <= shortfall.value <= 0x1_0000_0000_0000
            && lateness.Some? && 0 <= lateness.value <= 2 * TIME_BOUND
            && shift.Some? && 0 <= shift.value <= 2 * TIME_BOUND
  {
    var a := input.remaining[i];
    assert SmallTime(a.activity.timing.reservation) && SmallTime(a.segment.start) && SmallTime(a.segment.end);
    CheckedArithmeticIsExact(end, start);
    CheckedArithmeticIsExact(Milliseconds(a.activity.timing.preferredSeconds), end - start);
    if LatenessAnchor(a).Some? {
      CheckedArithmeticIsExact(start, LatenessAnchor(a).value);
    }
    if a.BaselineScheduled() {
      CheckedArithmeticIsExact(start, a.segment.start.value);
    }
  }

  lemma {:induction false} AccumulateFits(total: int64, amount: int64)
    requires 0 <= total <= 0x4000_0000_0000_0000 && 0 <= amount < 0x4000_0000_0000_0000
    ensures Accumulate(total, Some(amount)) == Some(total + amount)
  {
    CheckedArithmeticIsExact(total, amount);
  }

  lemma {:induction false} TotalsFit(input: SearchInput, c: Chain, visits: nat, index: nat, start: int64, end: int64, travel: int64)
    requires input.Valid() && SmallTimes(input) && index < |input.remaining|
    requires Bounded(input, c, visits) && visits < 64 && 0 <= travel
    requires c.end + travel <= start && input.horizonStart <= start < end <= input.horizonEnd
    requires input.remaining[index].activity.timing.preferredSeconds > 0
    ensures var a := input.remaining[index];
      var sums := (Accumulate(c.travel, Some(travel)), Accumulate(c.shortfall, ShortfallOf(a, start, end)),
                   Accumulate(c.lateness, LatenessOf(a, start)), Accumulate(c.shift, ShiftOf(a, start)));
      && sums.0.Some? && sums.1.Some? && sums.2.Some? && sums.3.Some?
      && Bounded(input, Chain(index + 1, end, sums.0.value, sums.1.value, sums.2.value, sums.3.value), visits + 1)
  {
    var a := input.remaining[index];
    CostsOfVisit(input, index, start, end);
    assert c.travel + travel <= end - input.SuffixStart() <= 2 * TIME_BOUND;
    AccumulateFits(c.travel, travel);
    AccumulateFits(c.shortfall, ShortfallOf(a, start, end).value);
    AccumulateFits(c.lateness, LatenessOf(a, start).value);
    AccumulateFits(c.shift, ShiftOf(a, start).value);
  }

  /** One leg to an offered interval cannot overflow. */
  lemma {:induction false} LegFits(input: SearchInput, c: Chain, visits: nat, d: Decision, arrival: int64)
    requires input.Valid() && SmallTimes(input) && c.at <= |input.remaining| && input.IndexOf(d.ordinal).Some?
    requires Bounded(input, c, visits) && visits < 64 && PrefersTime(input, d)
    requires ArrivalAt(input, c.at, c.end, input.IndexOf(d.ordinal).value) == Some(arrival)
    requires arrival <= d.start && input.horizonStart <= d.start < d.end <= input.horizonEnd
    requires Offers(AlternativesFor(input, input.remaining[input.IndexOf(d.ordinal).value], arrival), d.start, d.end)
    ensures Leg(input, c, d).Some? && Bounded(input, Leg(input, c, d).value, visits + 1)
  {
    var index := input.IndexOf(d.ordinal).value;
    var travel := input.TravelMs(c.at, index + 1).value;
    CheckedArithmeticIsExact(c.end, travel);
    TotalsFit(input, c, visits, index, d.start, d.end, travel);
  }

  /** A legal visit can be made, no later, from any place standing no later. */
  lemma {:induction false} ShiftVisit(input: SearchInput, c: Chain, visits: nat, from: (nat, int), d: Decision)
    returns (shifted: Decision)
    requires input.Valid() && SmallTimes(input) && c.at <= |input.remaining| && input.IndexOf(d.ordinal).Some?
    requires Bounded(input, c, visits) && visits < 64
    requires c.at == from.0 && c.end <= from.1 && LegalVisit(input, from, d)
    requires PrefersTime(input, d)
    ensures shifted.ordinal == d.ordinal && shifted.kind == 0 && shifted.end <= d.end
    ensures Leg(input, c, shifted).Some? && Bounded(input, Leg(input, c, shifted).value, visits + 1)
  {
    var arrival, s, e := OfferedNoLater(input, c, from, d);
    shifted := Decision(d.ordinal, 0, s, e);
    LegFits(input, c, visits, shifted, arrival);
  }

  lemma {:induction false} OfferedNoLater(input: SearchInput, c: Chain, from: (nat, int), d: Decision)
    returns (arrival: int64, s: int64, e: int64)
    requires input.Valid() && SmallTimes(input) && c.at <= |input.remaining| && input.IndexOf(d.ordinal).Some?
    requires c.at == from.0 && input.horizonStart <= c.end <= from.1 && LegalVisit(input, from, d)
    ensures ArrivalAt(input, c.at, c.end, input.IndexOf(d.ordinal).value) == Some(arrival)
    ensures Offers(AlternativesFor(input, input.remaining[input.IndexOf(d.ordinal).value], arrival), s, e)
    ensures arrival <= s <= d.start && e - s == d.end - d.start
    ensures input.horizonStart <= s < e <= input.horizonEnd
  {
    var index := input.IndexOf(d.ordinal).value;
    SmallIsRepresentable(input, index);
    arrival := ArrivesInTime(input, c, from, d);
    s, e := EarliestStartDominates(input, input.remaining[index], arrival, d.start, d.end);
    OfferedIffGenerated(input, input.remaining[index], arrival, s, e);
  }

  lemma {:induction false} ArrivesInTime(input: SearchInput, c: Chain, from: (nat, int), d: Decision) returns (arrival: int64)
    requires input.Valid() && c.at <= |input.remaining| && input.IndexOf(d.ordinal).Some?
    requires c.at == from.0 && c.end <= from.1 && LegalVisit(input, from, d)
    requires SmallTimes(input) && input.horizonStart <= c.end
    ensures ArrivalAt(input, c.at, c.end, input.IndexOf(d.ordinal).value) == Some(arrival)
    ensures c.end <= arrival <= d.start
  {
    var index := input.IndexOf(d.ordinal).value;
    var travel := input.matrix.value.At(c.at, index + 1).seconds * 1000;
    assert input.TravelMs(c.at, index + 1) == Some(travel);
    arrival := c.end + travel;
    CheckedArithmeticIsExact(c.end, travel);
  }

  lemma {:induction false} LegLands(input: SearchInput, c: Chain, d: Decision)
    requires input.Valid() && c.at <= |input.remaining| && input.IndexOf(d.ordinal).Some? && Leg(input, c, d).Some?
    ensures Leg(input, c, d).value.end == d.end && Leg(input, c, d).value.at == input.IndexOf(d.ordinal).value + 1
  {
  }

  /** Shifted visits keep every activity, stand no later and stay within bounds. */
  ghost predicate ShiftedFrom(input: SearchInput, visits: seq<Decision>, shifted: seq<Decision>)
    requires input.Valid() && VisitsNamed(input, visits)
  {
    && |shifted| == |visits|
    && (forall k | 0 <= k < |visits| :: shifted[k].ordinal == visits[k].ordinal && shifted[k].kind == 0)
    && VisitsNamed(input, shifted)
    && Run(input, shifted).Some?
    && Bounded(input, Run(input, shifted).value, |visits|)
    && Run(input, shifted).value.at == StandAfter(input, visits).0
    && Run(input, shifted).value.end <= StandAfter(input, visits).1
  }

  lemma {:induction false} ShiftOneMore(input: SearchInput, front: seq<Decision>, last: Decision, before: seq<Decision>)
    returns (shifted: seq<Decision>)
    requires input.Valid() && SmallTimes(input) && |front| < 64
    requires VisitsNamed(input, front) && VisitsNamed(input, front + [last]) && input.IndexOf(last.ordinal).Some?
    requires ShiftedFrom(input, front, before)
    requires LegalVisit(input, StandAfter(input, front), last) && PrefersTime(input, last)
    ensures ShiftedFrom(input, front + [last], shifted)
  {
    var moved := ShiftVisit(input, Run(input, before).value, |front|, StandAfter(input, front), last);
    shifted := before + [moved];
    ShiftJoins(input, front, last, before, moved);
  }

  lemma {:induction false} ShiftJoins(input: SearchInput, front: seq<Decision>, last: Decision, before: seq<Decision>, moved: Decision)
    requires input.Valid() && VisitsNamed(input, front) && VisitsNamed(input, front + [last]) && ShiftedFrom(input, front, before)
    requires input.IndexOf(last.ordinal).Some? && moved.ordinal == last.ordinal && moved.kind == 0 && moved.end <= last.end
    requires Leg(input, Run(input, before).value, moved).Some?
    requires Bounded(input, Leg(input, Run(input, before).value, moved).value, |front| + 1)
    ensures ShiftedFrom(input, front + [last], before + [moved])
  {
    RunJoins(input, before, moved);
    StandsAfter(input, front, last);
    LegLands(input, Run(input, before).value, moved);
  }

  lemma {:induction false} RunJoins(input: SearchInput, front: seq<Decision>, last: Decision)
    requires input.Valid() && VisitsNamed(input, front) && input.IndexOf(last.ordinal).Some? && Run(input, front).Some?
    ensures VisitsNamed(input, front + [last])
    ensures Run(input, front + [last]) == Leg(input, Run(input, front).value, last)
  {
    RunSplit(input, front, last);
  }

  lemma {:induction false} StandsAfter(input: SearchInput, front: seq<Decision>, last: Decision)
    requires input.Valid() && VisitsNamed(input, front) && VisitsNamed(input, front + [last]) && input.IndexOf(last.ordinal).Some?
    ensures StandAfter(input, front + [last]) == (input.IndexOf(last.ordinal).value + 1, last.end)
  {
    RunSplit(input, front, last);
  }

  /** The left-shift argument over a whole chain of visits. */
  lemma {:induction false} ShiftVisits(input: SearchInput, visits: seq<Decision>) returns (shifted: seq<Decision>)
    requires input.Valid() && SmallTimes(input) && |visits| <= 64 && VisitsNamed(input, visits)
    requires LegalVisits(input, visits) && PrefersPositive(input, visits)
    ensures ShiftedFrom(input, visits, shifted)
  {
    if visits == [] {
      shifted := [];
    } else {
      var front, last := visits[..|visits| - 1], visits[|visits| - 1];
      assert visits == front + [last];
      RunSplit(input, front, last);
      var before := ShiftVisits(input, front);
      shifted := ShiftOneMore(input, front, last, before);
    }
  }

  /** Replacing the visits of a plan, activity by activity, keeps it well formed. */
  lemma {:induction false} ReplaceVisits(input: SearchInput, ds: seq<Decision>, visits: seq<Decision>)
    requires Acceptable(input, ds)
    requires |visits| == |Visits(ds)|
    requires forall k | 0 <= k < |visits| :: visits[k].ordinal == Visits(ds)[k].ordinal && visits[k].kind == 0
    ensures Acceptable(input, visits + Skips(ds)) && |visits + Skips(ds)| == |ds|
    ensures Visits(visits + Skips(ds)) == visits
  {
    VisitsMembers(ds);
    HalvesAreKnown(input, ds);
    var skips := Skips(ds);
    var all := visits + skips;
    forall k | 0 <= k < |skips| ensures skips[k].kind != 0 { assert skips[k] in skips; }
    VisitsThenSkips(visits, skips);
    forall i, j | 0 <= i < j < |all| ensures all[i].ordinal != all[j].ordinal {
      if j < |visits| {
        assert Visits(ds)[i].ordinal != Visits(ds)[j].ordinal;
      } else if i < |visits| {
        assert Visits(ds)[i].ordinal != skips[j - |visits|].ordinal;
      } else {
        assert skips[i - |visits|].ordinal != skips[j - |visits|].ordinal;
      }
    }
    forall k | 0 <= k < |all| ensures input.IndexOf(all[k].ordinal).Some? && all[k].kind <= 1 {
      if k < |visits| { assert Visits(ds)[k] in ds; } else { assert skips[k - |visits|] in ds; }
    }
    forall k | 0 <= k < |all| && all[k].kind != 0 ensures SkipAllowed(input, all[k]) {
      assert all[k] in ds;
      var m :| 0 <= m < |ds| && ds[m] == all[k];
    }
  }

  /** Completeness: a legal plan at any start times has an accepted counterpart. */
  lemma {:induction false} LegalHasAccepted(input: SearchInput, ds: seq<Decision>) returns (accepted: seq<Decision>)
    requires SmallTimes(input) && LegalPlan(input, ds)
    requires VisitsNamed(input, Visits(ds)) && PrefersPositive(input, Visits(ds))
    ensures CompletePlan(input, accepted)
  {
    VisitsMembers(ds);
    var visits := ShiftVisits(input, Visits(ds));
    ReplaceVisits(input, ds, visits);
    accepted := visits + Skips(ds);
  }

  /** The scorer accepts some complete plan exactly when a legal plan exists
      that schedules no activity with a zero preferred duration. */
  lemma {:induction false} FeasibleIff(input: SearchInput)
    requires SmallTimes(input)
    ensures (exists ds :: CompletePlan(input, ds)) <==>
            (exists ds :: LegalPlan(input, ds) && VisitsNamed(input, Visits(ds)) && PrefersPositive(input, Visits(ds)))
  {
    if ds :| CompletePlan(input, ds) {
      AcceptedIsLegal(input, ds);
    }
    if ds :| LegalPlan(input, ds) && VisitsNamed(input, Visits(ds)) && PrefersPositive(input, Visits(ds)) {
      var accepted := LegalHasAccepted(input, ds);
    }
  }
}

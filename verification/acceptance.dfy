/** Exactly which decisions the planner accepts, and which unfinished plans it
    goes on with, said of the contract, the travel times and the decisions. */
module Acceptance {
  import opened Domain
  import opened Sorting
  import opened PlannerInput
  import opened Alternatives
  import opened CandidateScores
  import opened Scoring
  import opened SearchSpace
  import opened Feasibility
  import opened OfferLaws
  import opened ScoreTotals
  import TripSearch

  // ----- when the rest of the trip starts -----

  /** The later of now and the end of every preserved visit. */
  ghost predicate IsDeparture(input: SearchInput, t: int) {
    && input.now <= t
    && (forall k | 0 <= k < |input.prefix| && input.prefix[k].end.Some? :: input.prefix[k].end.value <= t)
    && (t == input.now || exists k | 0 <= k < |input.prefix| :: input.prefix[k].end == Some(t))
  }

  lemma {:induction false} LatestEndIsMet(segments: seq<Segment>, start: int64)
    ensures LatestEnd(segments, start) == start || exists k | 0 <= k < |segments| :: segments[k].end == Some(LatestEnd(segments, start))
  {
    if segments != [] {
      var s := segments[0];
      var next := if s.state.Scheduled? && s.end.Some? && s.end.value > start then s.end.value else start;
      LatestEndIsMet(segments[1..], next);
      if k :| 0 <= k < |segments[1..]| && segments[1..][k].end == Some(LatestEnd(segments[1..], next)) {
        assert segments[k + 1].end == Some(LatestEnd(segments, start));
      } else if LatestEnd(segments, start) != start {
        assert segments[0].end == Some(LatestEnd(segments, start));
      }
    }
  }

  lemma {:induction false} SuffixStartIsDeparture(input: SearchInput)
    requires input.Valid()
    ensures forall t: int :: t == input.SuffixStart() <==> IsDeparture(input, t)
  {
    LatestEndBounds(input.prefix, input.now);
    LatestEndIsMet(input.prefix, input.now);
    forall k | 0 <= k < |input.prefix| && input.prefix[k].end.Some? ensures input.prefix[k].end.value <= input.SuffixStart() {
      assert input.prefix[k].Valid();
    }
    forall t: int ensures t == input.SuffixStart() <==> IsDeparture(input, t) {
      OneDeparture(input, t);
    }
  }

  lemma {:induction false} OneDeparture(input: SearchInput, t: int)
    requires IsDeparture(input, input.SuffixStart())
    ensures t == input.SuffixStart() <==> IsDeparture(input, t)
  {
  }

  /** The order in which activities are tried is that of the trip. */
  lemma {:induction false} OrderAscends(input: SearchInput, i: nat, j: nat)
    requires input.Valid() && i < j < |TripSearch.ActivityOrder(input)|
    ensures var order := TripSearch.ActivityOrder(input);
      order[i] < |input.remaining| && order[j] < |input.remaining| && input.remaining[order[i]].ordinal < input.remaining[order[j]].ordinal
  {
    var positions, order := Positions(|input.remaining|), TripSearch.ActivityOrder(input);
    TripSearch.OrderCoversAll(input);
    SortSorts(OrdinalOrder(input), positions);
    assert order[i] in order && order[j] in order;
    assert !OrdinalOrder(input)(order[j], order[i]);
    OrderIsDistinct(input, i, j);
    IndexOfIsInverse(input, order[i]);
    IndexOfIsInverse(input, order[j]);
  }

  lemma {:induction false} OrderIsDistinct(input: SearchInput, i: nat, j: nat)
    requires i < j < |TripSearch.ActivityOrder(input)|
    ensures TripSearch.ActivityOrder(input)[i] != TripSearch.ActivityOrder(input)[j]
  {
    var positions, order := Positions(|input.remaining|), TripSearch.ActivityOrder(input);
    SameElements(positions, order);
    DistinctCounts(positions, order[i]);
    assert order == order[..j] + [order[j]] + order[j + 1..] && order[i] in order[..j];
  }

  // ----- visits -----

  /** When the k-th visit is left for, and so reached. */
  ghost function ReachedAt(input: SearchInput, visits: seq<Decision>, k: nat): int
    requires input.Valid() && Named(input, visits) && k < |visits|
  {
    (if k == 0 then input.SuffixStart() else visits[k - 1].end) + TravelTo(input, visits, k)
  }

  /** The visit is on a way that exists, in time, lawful, and either as the
      current plan has it or as soon as can be; and time is wanted for it. */
  ghost predicate GoodVisit(input: SearchInput, visits: seq<Decision>, k: nat)
    requires input.Valid() && Named(input, visits) && k < |visits|
  {
    var d, a, reached := visits[k], Visited(input, visits[k]), ReachedAt(input, visits, k);
    && input.matrix.value.At(Place(input, visits, k), Place(input, visits, k + 1)).reachable
    && reached <= d.start && MayOccupy(input, a, d.start, d.end)
    && (AtBaseline(a, d.start, d.end) || AsSoonAsOpen(a, reached, d.start, d.end))
    && a.activity.timing.preferredSeconds > 0
  }

  ghost predicate GoodVisits(input: SearchInput, visits: seq<Decision>)
    requires input.Valid() && Named(input, visits)
  {
    forall k | 0 <= k < |visits| :: GoodVisit(input, visits, k)
  }

  /** A visit, or the omission of an activity that may be omitted. */
  ghost predicate GoodDecision(input: SearchInput, d: Decision) {
    exists i | 0 <= i < |input.remaining| ::
      && input.remaining[i].ordinal == d.ordinal
      && (d.kind == 0 || (d.kind == 1 && d.start == 0 && d.end == 0
                          && !input.remaining[i].activity.timing.mandatory && input.remaining[i].activity.timing.canSkip))
  }

  ghost predicate GoodDecisions(input: SearchInput, ds: seq<Decision>) {
    && (forall k | 0 <= k < |ds| :: GoodDecision(input, ds[k]))
    && (forall i, j | 0 <= i < j < |ds| :: ds[i].ordinal != ds[j].ordinal)
  }

  lemma {:induction false} AcceptableIff(input: SearchInput, ds: seq<Decision>)
    requires input.Valid()
    ensures Acceptable(input, ds) <==> |ds| <= |input.remaining| && GoodDecisions(input, ds)
  {
    forall k | 0 <= k < |ds|
      ensures GoodDecision(input, ds[k]) <==>
        input.IndexOf(ds[k].ordinal).Some? && ds[k].kind <= 1 && (ds[k].kind != 0 ==> SkipAllowed(input, ds[k]))
    {
      DecisionIff(input, ds[k]);
    }
  }

  lemma {:induction false} DecisionIff(input: SearchInput, d: Decision)
    requires input.Valid()
    ensures GoodDecision(input, d) <==>
      input.IndexOf(d.ordinal).Some? && d.kind <= 1 && (d.kind != 0 ==> SkipAllowed(input, d))
  {
    if input.IndexOf(d.ordinal).Some? {
      var i := input.IndexOf(d.ordinal).value;
      forall j | 0 <= j < |input.remaining| && input.remaining[j].ordinal == d.ordinal ensures j == i {
        IndexOfIsInverse(input, j);
      }
    }
  }

  // ----- one leg -----

  lemma {:induction false} TravelIs(input: SearchInput, at: nat, index: nat, end: int64, start: int64)
    requires input.Valid() && at <= |input.remaining| && index < |input.remaining|
    requires -TIME_BOUND <= end && start <= TIME_BOUND
    ensures var route := input.matrix.value.At(at, index + 1);
      (ArrivalAt(input, at, end, index).Some? && ArrivalAt(input, at, end, index).value <= start)
      <==> route.reachable && end + route.seconds * 1000 <= start
    ensures ArrivalAt(input, at, end, index).Some? ==>
      ArrivalAt(input, at, end, index).value == end + input.matrix.value.At(at, index + 1).seconds * 1000
  {
    var travel := input.TravelMs(at, index + 1);
    if travel.Some? {
      CheckedArithmeticIsExact(end, travel.value);
    }
  }

  /** What a leg asks, with the chain standing where it does. */
  ghost predicate GoodLegTo(input: SearchInput, c: Chain, d: Decision, index: nat)
    requires input.Valid() && c.at <= |input.remaining| && index < |input.remaining|
  {
    var a, route := input.remaining[index], input.matrix.value.At(c.at, index + 1);
    var reached := c.end + route.seconds * 1000;
    && route.reachable && reached <= d.start && MayOccupy(input, a, d.start, d.end)
    && (AtBaseline(a, d.start, d.end) || AsSoonAsOpen(a, reached, d.start, d.end))
    && a.activity.timing.preferredSeconds > 0
  }

  lemma {:induction false} LegIsGood(input: SearchInput, c: Chain, d: Decision, index: nat)
    requires input.Valid() && SmallTimes(input) && c.at <= |input.remaining| && input.IndexOf(d.ordinal) == Some(index)
    requires Leg(input, c, d).Some? && -TIME_BOUND <= c.end
    ensures GoodLegTo(input, c, d, index)
  {
    AcceptedLegIsLegal(input, c, d);
    SmallIsRepresentable(input, index);
    TravelIs(input, c.at, index, c.end, d.start);
    OffersExactly(input, input.remaining[index], ArrivalAt(input, c.at, c.end, index).value, d.start, d.end);
  }

  lemma {:induction false} GoodLeg(input: SearchInput, c: Chain, visits: nat, d: Decision, index: nat)
    requires input.Valid() && SmallTimes(input) && c.at <= |input.remaining| && input.IndexOf(d.ordinal) == Some(index)
    requires Bounded(input, c, visits) && visits < 64 && GoodLegTo(input, c, d, index)
    ensures Leg(input, c, d).Some?
  {
    TravelIs(input, c.at, index, c.end, d.start);
    SmallIsRepresentable(input, index);
    var arrival := ArrivalAt(input, c.at, c.end, index).value;
    OffersExactly(input, input.remaining[index], arrival, d.start, d.end);
    LegFits(input, c, visits, d, arrival);
  }

  lemma {:induction false} LegStaysBounded(input: SearchInput, c: Chain, visits: nat, d: Decision, index: nat)
    requires input.Valid() && SmallTimes(input) && c.at <= |input.remaining| && input.IndexOf(d.ordinal) == Some(index)
    requires Bounded(input, c, visits) && visits < 64 && Leg(input, c, d).Some?
    ensures Bounded(input, Leg(input, c, d).value, visits + 1)
  {
    AcceptedLegIsLegal(input, c, d);
    TravelIs(input, c.at, index, c.end, d.start);
    LegFits(input, c, visits, d, ArrivalAt(input, c.at, c.end, index).value);
  }

  // ----- whole plans -----

  /** The chain stands where the visits lead. */
  ghost predicate StandsAt(input: SearchInput, c: Chain, visits: seq<Decision>)
    requires Named(input, visits)
  {
    c.at == Place(input, visits, |visits|) && c.end == (if visits == [] then input.SuffixStart() else visits[|visits| - 1].end)
  }

  lemma {:induction false} GoodIff(input: SearchInput, c: Chain, front: seq<Decision>, d: Decision, index: nat)
    requires input.Valid() && Named(input, front) && Named(input, front + [d]) && c.at <= |input.remaining|
    requires StandsAt(input, c, front) && input.IndexOf(d.ordinal) == Some(index)
    ensures GoodVisit(input, front + [d], |front|) <==> GoodLegTo(input, c, d, index)
  {
    var visits := front + [d];
    assert visits[|front|] == d && (front != [] ==> visits[|front| - 1] == front[|front| - 1]);
  }

  lemma {:induction false} GoodFront(input: SearchInput, front: seq<Decision>, d: Decision, k: nat)
    requires input.Valid() && Named(input, front) && Named(input, front + [d]) && k < |front|
    ensures GoodVisit(input, front + [d], k) <==> GoodVisit(input, front, k)
  {
    var visits := front + [d];
    assert visits[k] == front[k] && (k > 0 ==> visits[k - 1] == front[k - 1]);
  }

  lemma {:induction false} GoodSplits(input: SearchInput, front: seq<Decision>, d: Decision)
    requires input.Valid() && Named(input, front) && Named(input, front + [d])
    ensures GoodVisits(input, front + [d]) <==> GoodVisits(input, front) && GoodVisit(input, front + [d], |front|)
  {
    forall k | 0 <= k < |front| ensures GoodVisit(input, front + [d], k) <==> GoodVisit(input, front, k) {
      GoodFront(input, front, d, k);
    }
  }

  lemma {:induction false} RunIff(input: SearchInput, visits: seq<Decision>)
    requires input.Valid() && SmallTimes(input) && Named(input, visits) && |visits| <= 64
    ensures Run(input, visits).Some? <==> GoodVisits(input, visits)
    ensures Run(input, visits).Some? ==> Bounded(input, Run(input, visits).value, |visits|) && StandsAt(input, Run(input, visits).value, visits)
  {
    if visits != [] {
      var front, d := visits[..|visits| - 1], visits[|visits| - 1];
      assert visits == front + [d];
      RunIff(input, front);
      GoodSplits(input, front, d);
      if Run(input, front).Some? {
        LastLegIff(input, Run(input, front).value, front, d);
      }
    }
  }

  lemma {:induction false} LastLegIff(input: SearchInput, c: Chain, front: seq<Decision>, d: Decision)
    requires input.Valid() && SmallTimes(input) && Named(input, front) && Named(input, front + [d]) && |front| < 64
    requires c.at <= |input.remaining| && StandsAt(input, c, front) && Bounded(input, c, |front|)
    ensures input.IndexOf(d.ordinal).Some?
    ensures Leg(input, c, d).Some? <==> GoodVisit(input, front + [d], |front|)
    ensures Leg(input, c, d).Some? ==>
      Bounded(input, Leg(input, c, d).value, |front| + 1) && StandsAt(input, Leg(input, c, d).value, front + [d])
  {
    assert (front + [d])[|front|] == d;
    var index := input.IndexOf(d.ordinal).value;
    GoodIff(input, c, front, d, index);
    if Leg(input, c, d).Some? {
      LegIsGood(input, c, d, index);
      LegStaysBounded(input, c, |front|, d, index);
      LegLands(input, c, d);
    } else if GoodLegTo(input, c, d, index) {
      GoodLeg(input, c, |front|, d, index);
    }
  }

  /** With times small enough not to overflow, a plan so far is accepted exactly
      when each decision is good, each activity is decided at most once, and each
      visit is good where it stands. */
  lemma {:induction false} AcceptedIff(input: SearchInput, ds: seq<Decision>)
    requires input.Valid() && SmallTimes(input)
    ensures Accepted(input, ds) <==>
      |ds| <= |input.remaining| && GoodDecisions(input, ds) && Named(input, Visits(ds)) && GoodVisits(input, Visits(ds))
  {
    AcceptableIff(input, ds);
    if Acceptable(input, ds) {
      VisitsKnown(input, ds);
      VisitsMembers(ds);
      RunIff(input, Visits(ds));
    }
  }

  // ----- unfinished plans -----

  /** When the plan so far is over. */
  ghost function EndsAt(input: SearchInput, ds: seq<Decision>): int64 {
    if Visits(ds) == [] then input.SuffixStart() else Visits(ds)[|Visits(ds)| - 1].end
  }

  /** The activity could still be visited, were there no way to go. */
  ghost predicate StillPossible(input: SearchInput, a: PlanningActivity, from: int) {
    exists start: int64, end: int64 :: from <= start && MayOccupy(input, a, start, end)
  }

  ghost predicate MustVisit(a: PlanningActivity) { a.activity.timing.mandatory || !a.activity.timing.canSkip }

  lemma {:induction false} StandingIs(input: SearchInput, ds: seq<Decision>)
    requires Known(input, ds)
    ensures Standing(input, ds).1 == EndsAt(input, ds)
  {
    if ds != [] {
      var front := ds[..|ds| - 1];
      assert Known(input, front);
      StandingIs(input, front);
    }
  }

  lemma {:induction false} OffersAnyIff(input: SearchInput, i: nat, from: int64)
    requires input.Valid() && SmallTimes(input) && i < |input.remaining| && input.horizonStart <= from
    ensures OffersAny(AlternativesFor(input, input.remaining[i], from)) <==> StillPossible(input, input.remaining[i], from)
  {
    var a := input.remaining[i];
    SmallIsRepresentable(input, i);
    assert a.Valid();
    if OffersAny(AlternativesFor(input, a, from)) {
      var k :| 0 <= k < |AlternativesFor(input, a, from)| && AlternativesFor(input, a, from)[k].scheduled;
      var start, end := AlternativesFor(input, a, from)[k].start, AlternativesFor(input, a, from)[k].end;
      assert Offers(AlternativesFor(input, a, from), start, end);
      OffersExactly(input, a, from, start, end);
    }
    if StillPossible(input, a, from) {
      var start: int64, end: int64 :| from <= start && MayOccupy(input, a, start, end);
      var s, e := EarliestStartDominates(input, a, from, start, end);
      OfferedIffGenerated(input, a, from, s, e);
    }
  }

  /** An accepted plan so far is gone on with exactly when every activity that
      must be visited and is not yet decided could still be. */
  lemma {:induction false} ViableIff(input: SearchInput, ds: seq<Decision>)
    requires input.Valid() && SmallTimes(input)
    ensures Viable(input, ds) <==>
      Accepted(input, ds) &&
      forall i | 0 <= i < |input.remaining| && MustVisit(input.remaining[i]) && !Decided(ds, input.remaining[i].ordinal) ::
        StillPossible(input, input.remaining[i], EndsAt(input, ds))
  {
    if Accepted(input, ds) {
      StandingIs(input, ds);
      ChainStands(input, ds);
      forall i | 0 <= i < |input.remaining|
        ensures OffersAny(AlternativesFor(input, input.remaining[i], EndsAt(input, ds)))
           <==> StillPossible(input, input.remaining[i], EndsAt(input, ds))
      {
        OffersAnyIff(input, i, EndsAt(input, ds));
      }
      ReachIff(input, ds);
    }
  }

  lemma {:induction false} ReachIff(input: SearchInput, ds: seq<Decision>)
    requires input.Valid() && Known(input, ds) && Standing(input, ds).1 == EndsAt(input, ds)
    ensures PassesLowerBound(input, ds) <==>
      forall i | 0 <= i < |input.remaining| && MustVisit(input.remaining[i]) && !Decided(ds, input.remaining[i].ordinal) ::
        OffersAny(AlternativesFor(input, input.remaining[i], EndsAt(input, ds)))
  {
    forall i | 0 <= i < |input.remaining|
      ensures WithinReach(input, ds, i) <==>
        (MustVisit(input.remaining[i]) && !Decided(ds, input.remaining[i].ordinal)
         ==> OffersAny(AlternativesFor(input, input.remaining[i], EndsAt(input, ds))))
    {
    }
  }
}

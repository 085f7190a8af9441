/** The search over trips: the traversal applied to the space of accepted,
    unpruned decision sequences, and what its answers mean for the trip. */
module TripSearch {
  import opened Domain
  import opened Sorting
  import opened PlannerInput
  import opened Alternatives
  import opened CandidateScores
  import opened Scoring
  import opened SearchSpace
  import opened Feasibility
  import opened Search

  function DecisionOf(a: Alternative): Decision {
    Decision(a.ordinal, if a.scheduled then 0 else 1, a.start, a.end)
  }

  function DecisionsOf(alternatives: seq<Alternative>): seq<Decision> {
    seq(|alternatives|, k requires 0 <= k < |alternatives| => DecisionOf(alternatives[k]))
  }

  /** When the parent would reach an activity; the horizon's end if it cannot. */
  function ArrivalFrom(input: SearchInput, ds: seq<Decision>, index: nat): int64
    requires input.Valid() && Known(input, ds) && index < |input.remaining|
  {
    var standing := Standing(input, ds);
    ArrivalAt(input, standing.0, standing.1, index).GetOr(input.horizonEnd)
  }

  function NextDecisions(input: SearchInput, ds: seq<Decision>, index: nat): seq<Decision>
    requires input.Valid() && Known(input, ds) && index < |input.remaining|
  {
    DecisionsOf(AlternativesFor(input, input.remaining[index], ArrivalFrom(input, ds, index)))
  }

  /** Suffix positions by ascending trip ordinal. */
  function ActivityOrder(input: SearchInput): seq<nat> {
    Sort<nat>(OrdinalOrder(input), Positions(|input.remaining|))
  }

  const NO_SCORE: Score := Score([], 0, 0, 0, 0, 0, 0, 0, PlanKey([], [], []))

  function SpaceOf(input: SearchInput): Space
    requires input.Valid()
  {
    Space(|input.remaining|,
          ActivityOrder(input),
          (ds: seq<Decision>, i: nat) => i < |input.remaining| && Decided(ds, input.remaining[i].ordinal),
          (ds: seq<Decision>, i: nat) =>
            if i < |input.remaining| && Known(input, ds) then NextDecisions(input, ds, i) else [],
          (ds: seq<Decision>) => Viable(input, ds),
          (ds: seq<Decision>) => ScoreCandidate(input, ds).GetOr(NO_SCORE))
  }

  function Refused(outcome: Outcome): Result {
    Result(outcome, None, 0, 0, false, outcome == DeadlineExceeded, outcome == Cancelled)
  }

  function BeamSearch(input: SearchInput, budget: Budget, polls: Polls): Result {
    if !input.Valid() || !budget.Valid() then Refused(InvalidInput)
    else if polls.stop(0) then Refused(Cancelled)
    else if polls.late(0) then Refused(DeadlineExceeded)
    else SearchFrom(SpaceOf(input), budget, polls)
  }

  // ----- the space is regular -----

  lemma {:induction false} OrderCoversAll(input: SearchInput)
    ensures forall i: nat :: i in ActivityOrder(input) <==> i < |input.remaining|
    ensures |ActivityOrder(input)| == |input.remaining|
  {
    var positions := Positions(|input.remaining|);
    SameElements(positions, ActivityOrder(input));
    forall i: nat ensures i in positions <==> i < |input.remaining| {
      if i < |input.remaining| { assert positions[i] == i; }
    }
  }

  /** The last decision of a viable path is one its parent generates. */
  lemma {:induction false} ViableIsGenerated(input: SearchInput, ds: seq<Decision>, d: Decision)
    requires Viable(input, ds + [d])
    ensures Accepted(input, ds) && input.IndexOf(d.ordinal).Some? && !Decided(ds, d.ordinal)
    ensures d in NextDecisions(input, ds, input.IndexOf(d.ordinal).value)
  {
    AcceptedAppend(input, ds, d);
    ChainStands(input, ds);
    var index := input.IndexOf(d.ordinal).value;
    var arrival := ArrivalFrom(input, ds, index);
    var alternatives := AlternativesFor(input, input.remaining[index], arrival);
    AlternativesAreOrdered(input, input.remaining[index], arrival);
    var k := GeneratedAt(input, input.remaining[index], alternatives, d) by {
      if d.kind == 0 { LegIsOffered(input, ChainOf(input, ds).value, d); }
    }
    assert DecisionsOf(alternatives)[k] == d;
  }

  lemma {:induction false} LegIsOffered(input: SearchInput, c: Chain, d: Decision)
    requires input.Valid() && c.at <= |input.remaining| && input.IndexOf(d.ordinal).Some? && Leg(input, c, d).Some?
    ensures ArrivalAt(input, c.at, c.end, input.IndexOf(d.ordinal).value).Some?
    ensures Offers(AlternativesFor(input, input.remaining[input.IndexOf(d.ordinal).value],
                                   ArrivalAt(input, c.at, c.end, input.IndexOf(d.ordinal).value).value), d.start, d.end)
  {
  }

  lemma {:induction false} GeneratedAt(input: SearchInput, a: PlanningActivity, alternatives: seq<Alternative>, d: Decision) returns (k: nat)
    requires a.Valid() && Ordered(a, alternatives) && d.ordinal == a.ordinal && d.kind <= 1
    requires d.kind == 0 ==> Offers(alternatives, d.start, d.end)
    requires d.kind == 1 ==> d.start == 0 && d.end == 0 && !a.Protected()
    ensures k < |alternatives| && DecisionOf(alternatives[k]) == d
  {
    if d.kind == 0 {
      k :| 0 <= k < |alternatives| && alternatives[k].scheduled
           && alternatives[k].start == d.start && alternatives[k].end == d.end;
    } else {
      k := |alternatives| - 1;
    }
  }

  lemma {:induction false} SpaceIsRegular(input: SearchInput)
    requires input.Valid()
    ensures Regular(SpaceOf(input))
  {
    var space := SpaceOf(input);
    OrderCoversAll(input);
    forall ds: seq<Decision>, d: Decision | space.viable(ds + [d])
      ensures space.viable(ds) && Generated(space, ds, d)
    {
      ViablePrefix(input, ds, d);
      ViableIsGenerated(input, ds, d);
      var i := input.IndexOf(d.ordinal).value;
      assert i in space.order && !space.decided(ds, i) && d in space.next(ds, i);
    }
  }

  lemma {:induction false} PlansAreCompletePlans(input: SearchInput, ds: seq<Decision>)
    requires input.Valid()
    ensures Plan(SpaceOf(input), ds) <==> CompletePlan(input, ds)
    ensures CompletePlan(input, ds) ==> SpaceOf(input).score(ds) == ScoreCandidate(input, ds).value
  {
    if CompletePlan(input, ds) {
      CompletePlanIsViable(input, ds, |ds|);
      assert ds[..|ds|] == ds;
    }
  }

  // ----- what the answers mean -----

  ghost predicate IsBestPlan(input: SearchInput, best: Candidate) {
    forall ds | CompletePlan(input, ds) :: !Better(ScoreCandidate(input, ds).value, best.score)
  }

  /** What a search result may claim about its trip. */
  ghost predicate TruthfulResult(input: SearchInput, budget: Budget, r: Result) {
    && r.expansions <= budget.maxExpansions
    && r.candidates <= budget.maxCandidates
    && (r.best.Some? <==> r.outcome in {Complete, BestSoFar})
    && (r.best.Some? ==>
          CompletePlan(input, r.best.value.decisions)
          && ScoreCandidate(input, r.best.value.decisions) == Some(r.best.value.score))
    && (r.outcome == ExhaustiveInfeasible ==> !r.truncated && forall ds :: !CompletePlan(input, ds))
    && (r.outcome == Complete && !r.truncated ==> IsBestPlan(input, r.best.value))
  }

  /** Every result is truthful, for every input, budget and interruption: a
      returned plan is complete and accepted and carries its own score; budgets
      are kept; "infeasible" means no complete plan exists; and a complete
      search that dropped nothing returns a best plan. */
  lemma {:induction false} SearchIsTruthfulForTrips(input: SearchInput, budget: Budget, polls: Polls)
    ensures input.Valid() && budget.Valid() ==> TruthfulResult(input, budget, BeamSearch(input, budget, polls))
    ensures !input.Valid() || !budget.Valid() ==> BeamSearch(input, budget, polls) == Refused(InvalidInput)
  {
    if input.Valid() && budget.Valid() && !polls.stop(0) && !polls.late(0) {
      var space := SpaceOf(input);
      SpaceIsRegular(input);
      assert Accepted(input, []);
      SearchIsTruthful(space, budget, polls);
      TruthfulTransfers(input, budget, SearchFrom(space, budget, polls));
    }
  }

  lemma {:induction false} TruthfulTransfers(input: SearchInput, budget: Budget, r: Result)
    requires input.Valid() && Truthful(SpaceOf(input), budget, r)
    ensures TruthfulResult(input, budget, r)
  {
    forall ds ensures Plan(SpaceOf(input), ds) <==> CompletePlan(input, ds)
              ensures CompletePlan(input, ds) ==> SpaceOf(input).score(ds) == ScoreCandidate(input, ds).value
    {
      PlansAreCompletePlans(input, ds);
    }
  }

  /** "Infeasible" is complete: then no legal plan exists at any start times
      (other than ones that schedule an activity preferring no time at all). */
  lemma {:induction false} InfeasibleMeansNoLegalPlan(input: SearchInput, budget: Budget, polls: Polls)
    requires SmallTimes(input)
    requires BeamSearch(input, budget, polls).outcome == ExhaustiveInfeasible
    ensures forall ds | LegalPlan(input, ds) && VisitsNamed(input, Visits(ds)) :: !PrefersPositive(input, Visits(ds))
  {
    SearchIsTruthfulForTrips(input, budget, polls);
    FeasibleIff(input);
  }
}

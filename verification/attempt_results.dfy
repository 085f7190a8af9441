/** What a planning attempt brings back, from its seed to its proposal. */
module AttemptResults {
  import opened Domain
  import opened PlannerInput
  import opened CandidateScores
  import opened Scoring
  import opened SearchSpace
  import opened Proposals
  import opened ProposalAssembler
  import opened ReplanFacts
  import opened RouteRequests
  import opened TripRuntime
  import opened PlanningPipeline
  import opened ScoreTotals
  import opened ScoreChanges
  import opened AttemptInputs
  import P = ProposalTells
  import Search

  /** The proposal names what the attempt was seeded with. */
  ghost predicate NamesSeed(p: PlanProposal, a: Attempt) {
    && p.proposalId == a.context.proposalId && p.createdAt == a.context.createdAt
    && p.sourceEpoch == a.seed.source.epoch && p.sourcePlannerVersion == a.seed.source.plannerVersion
    && p.sourceRevision == a.seed.source.revision && p.sourceMutation == a.seed.source.accepted
    && p.basePlanId == a.seed.state.plan.planId
  }

  ghost predicate ChangesPlan(input: SearchInput, ds: seq<Decision>)
    requires Named(input, Visits(ds))
  {
    exists i | 0 <= i < |input.remaining| :: Differs(input, ds, i)
  }

  /** The stored proposal is a complete accepted plan, written out, with the
      reasons the facts give and the qualities of the search and the routes. */
  ghost predicate TellsResult(stored: StoredProposal, a: Attempt, x: Surroundings, ds: seq<Decision>)
    requires Plannable(a, x)
  {
    var input, r := InputFor(a, x), Searched(a, x);
    && CompletePlan(input, ds) && Named(input, Visits(ds)) && r.best.Some? && r.best.value.decisions == ds
    && FactsFor(a, x).Some? && NamesSeed(stored.proposal, a)
    && P.TellsPlan(stored.proposal, input, ds, a.seed.state.activities, SourceOf(a), ReasonsFor(x, FactsFor(a, x).value))
    && stored.reasons == x.reasons(FactsFor(a, x).value, ChangesPlan(input, ds))
    && stored.searchDepth == |ds|
    && (stored.planQuality == CompletePlanQuality <==> r.outcome == Search.Complete)
    && (stored.planQuality == BestSoFarQuality <==> r.outcome == Search.BestSoFar)
    && stored.routingQuality == AcquireMatrix(a.seed.state, x.provider).value.quality
  }

  lemma {:induction false} StoredIs(a: Attempt, x: Surroundings)
    requires PlanningPipeline.Planned(a, x).Some?
    ensures Plannable(a, x) && FactsFor(a, x).Some? && Searched(a, x).best.Some?
    ensures var facts, r := FactsFor(a, x).value, Searched(a, x);
      var p := AssembledFor(a, x, facts, r.best.value.decisions);
      && r.outcome in {Search.Complete, Search.BestSoFar} && p.Some? && PlanningPipeline.Planned(a, x).value == StoredFor(a, x, facts, r, p.value)
  {
  }

  /** Whatever an attempt brings back is a plan its search found, truly told. */
  lemma {:induction false} PlannedTells(a: Attempt, x: Surroundings)
    requires PlanningPipeline.Planned(a, x).Some? && BudgetOf(a.context).Valid()
    ensures Plannable(a, x)
    ensures exists ds :: TellsResult(PlanningPipeline.Planned(a, x).value, a, x, ds)
  {
    StoredIs(a, x);
    FoundIsComplete(a, x);
    var input, facts, ds := InputFor(a, x), FactsFor(a, x).value, Searched(a, x).best.value.decisions;
    P.ProposalTellsPlan(input, ds, a.seed.state.activities, SourceOf(a), ReasonsFor(x, facts));
    ResultTells(a, x, facts, ds, AssembledFor(a, x, facts, ds).value);
  }

  lemma {:induction false} ResultTells(a: Attempt, x: Surroundings, facts: Facts, ds: seq<Decision>, p: Assembled)
    requires Plannable(a, x) && FactsFor(a, x) == Some(facts) && Searched(a, x).best.Some?
    requires Searched(a, x).best.value.decisions == ds && Searched(a, x).outcome in {Search.Complete, Search.BestSoFar}
    requires CompletePlan(InputFor(a, x), ds) && Named(InputFor(a, x), Visits(ds))
    requires P.TellsPlan(p.proposal, InputFor(a, x), ds, a.seed.state.activities, SourceOf(a), ReasonsFor(x, facts))
    requires p.changesCurrentPlan <==> ChangesPlan(InputFor(a, x), ds)
    ensures TellsResult(StoredFor(a, x, facts, Searched(a, x), p), a, x, ds)
  {
  }

  /** What an attempt plans with: its own trip, and the provider's travel times. */
  lemma {:induction false} PlansWith(a: Attempt, x: Surroundings)
    requires Plannable(a, x)
    ensures var s, input := a.seed.state, InputFor(a, x);
      && TellsTrip(input, s, FrameOf(a.context), AcquireMatrix(s, x.provider).value.matrix)
      && (input.remaining != [] ==>
            && s.observation.location.Some? && AnswersAll(x.provider, s.observation.location.value, input.remaining)
            && TellsTravel(AcquireMatrix(s, x.provider).value, x.provider, s.observation.location.value, input.remaining))
  {
    var s, f := a.seed.state, FrameOf(a.context);
    var matrix := AcquireMatrix(s, x.provider).value.matrix;
    AcquiredFits(s, x.provider);
    InputTells(s, f, matrix);
    AcquiredTells(s, x.provider, f, matrix);
  }
}

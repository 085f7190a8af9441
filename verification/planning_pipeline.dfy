/** A planning attempt from end to end: what the planner makes of a seed is
    either out of date when it returns, or goes on offer. */
module PlanningPipeline {
  import opened Domain
  import opened PlannerInput
  import opened Proposals
  import opened ProposalAssembler
  import opened ProposalTheorems
  import opened PlanningInputAssembly
  import opened ReplanFacts
  import opened RouteRequests
  import opened TripRuntime
  import opened RuntimeSteps
  import opened RuntimeOffers
  import opened RuntimeSafety
  import CandidateScores
  import Search
  import SearchSpace
  import TripSearch

  /** What an attempt meets outside the shard: the provider of travel times, the
      clock and the stop token, and the reasons it derives from its facts. */
  datatype Surroundings = Surroundings(provider: Provider, polls: Search.Polls, reasons: (Facts, bool) -> seq<Reason>)

  function FrameOf(c: PlanningContext): Frame { Frame(c.currentTime, c.horizonStart, c.horizonEnd) }

  function BudgetOf(c: PlanningContext): Search.Budget { Search.Budget(c.maxCandidates, c.beamWidth, c.maxExpansions) }

  function SourceOf(a: Attempt): ProposalSource {
    var v := a.seed.source;
    ProposalSource(a.context.proposalId, v.epoch, v.plannerVersion, a.seed.state.plan.planId, v.revision, v.accepted,
                   a.context.createdAt)
  }

  /** The attempt has something to plan with. */
  predicate Plannable(a: Attempt, x: Surroundings) {
    a.seed.state.Valid() && InHorizon(FrameOf(a.context)) && AcquireMatrix(a.seed.state, x.provider).Some?
  }

  function InputFor(a: Attempt, x: Surroundings): (input: SearchInput)
    requires Plannable(a, x)
    ensures input.Valid() && TripsOwn(input, a.seed.state.activities)
  {
    var matrix := AcquireMatrix(a.seed.state, x.provider).value.matrix;
    AcquiredFits(a.seed.state, x.provider);
    InputIsValid(a.seed.state, FrameOf(a.context), matrix);
    InputIsOwn(a.seed.state, FrameOf(a.context), matrix);
    InputOf(a.seed.state, FrameOf(a.context), matrix)
  }

  function FactsFor(a: Attempt, x: Surroundings): Option<Facts>
    requires Plannable(a, x)
  {
    DeriveFacts(InputFor(a, x))
  }

  function Searched(a: Attempt, x: Surroundings): Search.Result
    requires Plannable(a, x)
  {
    TripSearch.BeamSearch(InputFor(a, x), BudgetOf(a.context), x.polls)
  }

  function ReasonsFor(x: Surroundings, facts: Facts): bool -> seq<Reason> { (changed: bool) => x.reasons(facts, changed) }

  function StoredFor(a: Attempt, x: Surroundings, facts: Facts, r: Search.Result, p: Assembled): StoredProposal
    requires Plannable(a, x)
  {
    StoredProposal(p.proposal, x.reasons(facts, p.changesCurrentPlan), |InputFor(a, x).remaining|,
                   if r.outcome == Search.Complete then CompletePlanQuality else BestSoFarQuality,
                   AcquireMatrix(a.seed.state, x.provider).value.quality)
  }

  function AssembledFor(a: Attempt, x: Surroundings, facts: Facts, ds: seq<CandidateScores.Decision>): Option<Assembled>
    requires Plannable(a, x)
  {
    AssembleProposal(InputFor(a, x), ds, a.seed.state.activities, SourceOf(a), ReasonsFor(x, facts))
  }

  /** What the executors bring back: acquire the matrix, assemble the input,
      derive the facts, search, assemble the best plan found, and keep it only if
      it checks. */
  function Planned(a: Attempt, x: Surroundings): Option<StoredProposal> {
    if !Plannable(a, x) || FactsFor(a, x).None? then None
    else
      var facts, r := FactsFor(a, x).value, Searched(a, x);
      if r.best.None? || (r.outcome != Search.Complete && r.outcome != Search.BestSoFar) then None
      else
        var p := AssembledFor(a, x, facts, r.best.value.decisions);
        if p.None? || !StoredFor(a, x, facts, r, p.value).ValidFor(a.seed.state.activities) then None
        else Some(StoredFor(a, x, facts, r, p.value))
  }

  lemma {:induction false} FoundIsComplete(a: Attempt, x: Surroundings)
    requires Plannable(a, x) && BudgetOf(a.context).Valid() && Searched(a, x).best.Some?
    ensures Searched(a, x).outcome in {Search.Complete, Search.BestSoFar}
    ensures SearchSpace.CompletePlan(InputFor(a, x), Searched(a, x).best.value.decisions)
  {
    TripSearch.SearchIsTruthfulForTrips(InputFor(a, x), BudgetOf(a.context), x.polls);
  }

  lemma {:induction false} CompleteAssembles(a: Attempt, x: Surroundings, facts: Facts, ds: seq<CandidateScores.Decision>)
    requires Plannable(a, x) && a.seed.source.epoch != 0 && a.seed.source.revision != 0
    requires SearchSpace.CompletePlan(InputFor(a, x), ds)
    ensures var p := AssembledFor(a, x, facts, ds);
      && (p.Some? <==> a.seed.source.accepted != 0)
      && (p.Some? ==> forall r :: StoredFor(a, x, facts, r, p.value).ValidFor(a.seed.state.activities))
  {
    AssemblySucceeds(InputFor(a, x), ds, a.seed.state.activities, SourceOf(a), ReasonsFor(x, facts));
  }

  /** An attempt that can plan at all brings a proposal back exactly when its
      facts derive, the search found a plan and the trip has settled a mutation:
      nothing after the search can fail. */
  lemma {:induction false} PlannedExactlyWhenFound(a: Attempt, x: Surroundings)
    requires Plannable(a, x) && BudgetOf(a.context).Valid() && a.seed.source.epoch != 0 && a.seed.source.revision != 0
    ensures Planned(a, x).Some? <==> FactsFor(a, x).Some? && Searched(a, x).best.Some? && a.seed.source.accepted != 0
  {
    if FactsFor(a, x).Some? && Searched(a, x).best.Some? {
      FoundIsComplete(a, x);
      CompleteAssembles(a, x, FactsFor(a, x).value, Searched(a, x).best.value.decisions);
    }
  }

  lemma {:induction false} PlannedNames(a: Attempt, x: Surroundings)
    requires Planned(a, x).Some?
    ensures var p := Planned(a, x).value;
      && p.ValidFor(a.seed.state.activities)
      && p.proposal.sourceEpoch == a.seed.source.epoch && p.proposal.sourcePlannerVersion == a.seed.source.plannerVersion
      && p.proposal.basePlanId == a.seed.state.plan.planId
  {
  }

  /** The same for every attempt of every run: what it was seeded with never
      stands in the way. */
  lemma {:induction false} EveryAttemptPlans(labels: seq<Label>, k: nat, x: Surroundings, maxAdvisoryBytes: nat)
    requires k < |Reach(labels, maxAdvisoryBytes).outstanding|
    ensures var a := Reach(labels, maxAdvisoryBytes).outstanding[k];
      && (Plannable(a, x) <==> AcquireMatrix(a.seed.state, x.provider).Some?)
      && (Planned(a, x).Some? <==>
            Plannable(a, x) && FactsFor(a, x).Some? && Searched(a, x).best.Some? && a.seed.source.accepted != 0)
  {
    var a := Reach(labels, maxAdvisoryBytes).outstanding[k];
    AttemptsAreReady(labels, k, maxAdvisoryBytes);
    if Plannable(a, x) {
      PlannedExactlyWhenFound(a, x);
    }
  }

  /** In every run whose starts are fit, a proposal the planner makes for an
      attempt goes on offer if the attempt's token is still current: it is never
      refused as stale or invalid.  If the token is not current the state is
      left alone. */
  lemma {:induction false} PlannedGoesOnOffer(labels: seq<Label>, k: nat, x: Surroundings, load: Load, maxAdvisoryBytes: nat)
    requires StartsFit(labels, maxAdvisoryBytes)
    requires var w := Reach(labels, maxAdvisoryBytes); w.trip.Some? && k < |w.outstanding| && Planned(w.outstanding[k], x).Some?
    ensures var w := Reach(labels, maxAdvisoryBytes);
      var p := Planned(w.outstanding[k], x);
      var after := Next(w, Finish(k, p, load), maxAdvisoryBytes);
      && after.trip.Some?
      && after.trip.value.state == if w.trip.value.versions.CanCommit(w.outstanding[k].seed.token)
                                   then w.trip.value.state.(proposal := p) else w.trip.value.state
  {
    var w := Reach(labels, maxAdvisoryBytes);
    var t, a, p := w.trip.value, w.outstanding[k], Planned(w.outstanding[k], x);
    OffersAreCurrent(labels, maxAdvisoryBytes);
    RunIsSafe(labels, maxAdvisoryBytes, NONE);
    assert Good(a, w.trip, NONE, TopEpoch(labels, maxAdvisoryBytes));
    PlannedNames(a, x);
    if t.versions.CanCommit(a.seed.token) {
      OfferFits(t, a, p.value);
    }
    FinishOutcome(w, k, p, load, maxAdvisoryBytes);
  }

  lemma {:induction false} OfferFits(t: Trip, a: Attempt, p: StoredProposal)
    requires Sane(t) && Ready(a) && Answers(a, t.state, t.versions.snapshot) && t.versions.CanCommit(a.seed.token)
    requires p.ValidFor(a.seed.state.activities)
    requires p.proposal.sourceEpoch == a.seed.source.epoch && p.proposal.sourcePlannerVersion == a.seed.source.plannerVersion
    requires p.proposal.basePlanId == a.seed.state.plan.planId
    ensures Commits(t, a, p)
  {
    assert a.seed.state.Core() == t.state.Core();
    assert a.seed.state.activities == a.seed.state.Core().activities && a.seed.state.plan == a.seed.state.Core().plan;
  }
}

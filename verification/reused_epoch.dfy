/** A run with an unfit start: a trip erased and started again in the same epoch
    takes a result computed for the trip it replaced. */
module ReusedEpoch {
  import opened Domain
  import opened Proposals
  import opened TripEvents
  import opened TripStates
  import opened RuntimeVersions
  import opened EventCoordinator
  import opened TripRuntime
  import opened RuntimeSafety
  import CandidateScores
  import opened PlannerInput
  import opened ProposalAssembler
  import opened ReplanFacts
  import opened RouteRequests
  import opened PlanningPipeline
  import Search

  function PlanNumbered(id: Id): CurrentPlan { CurrentPlan(id, 1, UserAuthored, [], 0, None) }

  /** A trip without activities, told apart by its time zone and its plan. */
  function TripIn(timeZone: string, planId: Id): TripState {
    TripState(0, timeZone, [], 0, None, PlanNumbered(planId), [], Observation(None, None, None, None), None)
  }

  function Begin(timeZone: string): Label {
    Boot(BootRequest(TripIn(timeZone, 1), "", 1, 1, 0, 0, None), true)
  }

  const FREE := Load(true, true, true)
  const CONTEXT := PlanningContext(0, 0, 1, 9, 0, 1, 1, 1)
  const REPLACED := PlanReplaced(PlanNumbered(2))
  const REPLACE := Event(EventRequest(Request(1, 1, 0, 1, None, TripEvent(0, 0, None, REPLACED)), CONTEXT), FREE)
  const ERASE := Deactivate(1, false)
  const OFFER := StoredProposal(PlanProposal(9, 1, 1, 2, 2, 1, [], [], 0), [], 0, CompletePlanQuality, RoutingQuality.Fresh)
  const LATE := Finish(0, Some(OFFER), FREE)

  const BEGUN := Snapshot(1, 1, 0, 0, 0, 0, 0)
  const CHANGED := Snapshot(1, 2, 1, 1, 1, 0, 0)

  function AttemptIn(timeZone: string): Attempt {
    Attempt(Seed(TripIn(timeZone, 2), REPLACED, CHANGED, Token(1, 1, 1)), CONTEXT, Critical, false)
  }

  function BegunTrip(timeZone: string): Trip {
    Trip(TripIn(timeZone, 1), "", Versions(true, BEGUN), None, false, false, Normal, NoPayload, None)
  }

  function ChangedTrip(timeZone: string): Trip {
    Trip(TripIn(timeZone, 2), "", Versions(true, CHANGED), None, false, true, Critical, REPLACED, None)
  }

  lemma {:induction false} SmallTripsAreValid(timeZone: string, planId: Id)
    requires timeZone != ""
    ensures TripIn(timeZone, planId).Valid()
  {
    assert ActivityIds([]) == [] && SegmentIds([]) == [];
  }

  lemma {:induction false} Begins(timeZone: string, outstanding: seq<Attempt>)
    requires timeZone != ""
    ensures Next(World(None, outstanding, true), Begin(timeZone), 0) == World(Some(BegunTrip(timeZone)), outstanding, true)
  {
    SmallTripsAreValid(timeZone, 1);
  }

  lemma {:induction false} ReplacementApplies(timeZone: string)
    requires timeZone != ""
    ensures Verdict(TripIn(timeZone, 1), TripEvent(0, 0, None, REPLACED), 0).Applied?
    ensures After(TripIn(timeZone, 1), TripEvent(0, 0, None, REPLACED), 0) == TripIn(timeZone, 2)
  {
    SmallTripsAreValid(timeZone, 1);
    SmallTripsAreValid(timeZone, 2);
    assert ActivityIds([]) == [] && SegmentIds([]) == [];
    assert REPLACED.ValidFor([], 0);
    assert Candidate(TripIn(timeZone, 1), TripEvent(0, 0, None, REPLACED)) == TripIn(timeZone, 2);
  }

  lemma {:induction false} Replaces(timeZone: string, outstanding: seq<Attempt>)
    requires timeZone != ""
    ensures Next(World(Some(BegunTrip(timeZone)), outstanding, true), REPLACE, 0)
            == World(Some(ChangedTrip(timeZone)), outstanding + [AttemptIn(timeZone)], true)
  {
    ReplacementApplies(timeZone);
    var t := BegunTrip(timeZone);
    var c := Coordinate(t.state, t.versions, REPLACE.request.admission, 0, 0);
    assert c.0 == TripIn(timeZone, 2) && c.1 == Versions(true, CHANGED);
    assert c.2.seed == Some(AttemptIn(timeZone).seed);
  }

  lemma {:induction false} OfferFits()
    ensures OFFER.ValidFor([])
  {
    assert ActivityIds([]) == [] && ProposalIds([]) == [];
  }

  /** Surroundings in which nothing interrupts the attempt and there is nothing to explain. */
  ghost predicate Unhurried(x: Surroundings) {
    !x.polls.stop(0) && !x.polls.late(0) && forall facts, changed :: x.reasons(facts, changed) == []
  }

  lemma {:induction false} NothingRemains(x: Surroundings)
    ensures var a := AttemptIn("UTC");
      Plannable(a, x) && InputFor(a, x).remaining == [] && InputFor(a, x).prefix == []
      && AcquireMatrix(a.seed.state, x.provider) == Some(Acquired(RawMatrix(1, [HERE]), RoutingQuality.Fresh))
  {
    SmallTripsAreValid("UTC", 2);
  }

  lemma {:induction false} NothingToDecide(x: Surroundings)
    requires Unhurried(x)
    ensures var a := AttemptIn("UTC");
      && Plannable(a, x) && FactsFor(a, x) == Some(Facts(false, false, None))
      && Searched(a, x).outcome == Search.Complete && Searched(a, x).best.Some? && Searched(a, x).best.value.decisions == []
  {
    NothingRemains(x);
  }

  lemma {:induction false} AssembledIs(input: SearchInput, ds: seq<CandidateScores.Decision>, source: ProposalSource, reasons: bool -> seq<Reason>)
    requires AssembleProposal(input, ds, [], source, reasons).Some?
    ensures AssembleProposal(input, ds, [], source, reasons).value.proposal
         == PlanProposal(source.proposalId, source.epoch, source.plannerVersion, source.basePlanId, source.revision, source.mutation,
                         [], [], source.createdAt)
  {
    var q := AssembleProposal(input, ds, [], source, reasons).value.proposal;
    assert q.ValidFor([]) && q.prefix == [] && q.suffix == [];
  }

  lemma {:induction false} EmptyAssembles(x: Surroundings, facts: Facts)
    requires Unhurried(x)
    ensures var a := AttemptIn("UTC");
      Plannable(a, x) && AssembledFor(a, x, facts, []).Some? && AssembledFor(a, x, facts, []).value.proposal == OFFER.proposal
  {
    var a := AttemptIn("UTC");
    NothingToDecide(x);
    FoundIsComplete(a, x);
    CompleteAssembles(a, x, facts, []);
    AssembledIs(InputFor(a, x), [], SourceOf(a), ReasonsFor(x, facts));
  }

  /** The offer is what the planner makes of the first attempt. */
  lemma {:induction false} OfferIsPlanned(x: Surroundings)
    requires Unhurried(x)
    ensures PlanningPipeline.Planned(AttemptIn("UTC"), x) == Some(OFFER)
  {
    NothingRemains(x);
    NothingToDecide(x);
    EmptyAssembles(x, FactsFor(AttemptIn("UTC"), x).value);
    OfferFits();
  }

  lemma {:induction false} LateResultCommits(outstanding: seq<Attempt>)
    requires |outstanding| == 2 && outstanding[0] == AttemptIn("UTC")
    ensures var n := Next(World(Some(ChangedTrip("CET")), outstanding, true), LATE, 0);
      n.trip.Some? && n.trip.value.state == TripIn("CET", 2).(proposal := Some(OFFER))
  {
    OfferFits();
    SmallTripsAreValid("CET", 2);
    assert Commits(ChangedTrip("CET"), outstanding[0], OFFER);
  }

  /** The run: begin, change, erase, begin again in the same epoch, change, and
      then the first attempt reports what the planner makes of it.  Two attempts
      are out, and the proposal is put on a state it was not computed from. */
  lemma {:induction false} ReusedEpochCommitsStale()
    ensures var labels := [Begin("UTC"), REPLACE, ERASE, Begin("CET"), REPLACE];
      var w := Reach(labels, 0);
      && |w.outstanding| == 2 && w.trip.Some? && w.trip.value.state.proposal.None?
      && Next(w, LATE, 0).trip.Some? && Next(w, LATE, 0).trip.value.state == w.trip.value.state.(proposal := Some(OFFER))
      && w.outstanding[LATE.k].seed.state.Core() != w.trip.value.state.Core()
      && !StartsFit(labels, 0)
      && forall x | Unhurried(x) :: PlanningPipeline.Planned(w.outstanding[LATE.k], x) == LATE.proposal
  {
    var all := [Begin("UTC"), REPLACE, ERASE, Begin("CET"), REPLACE];
    assert all[..4] == [Begin("UTC"), REPLACE, ERASE, Begin("CET")];
    assert all[..4][..3] == [Begin("UTC"), REPLACE, ERASE];
    assert all[..4][..3][..2] == [Begin("UTC"), REPLACE];
    assert all[..4][..3][..2][..1] == [Begin("UTC")];
    assert all[..4][..3][..2][..1][..0] == [];
    ReachesTwo(all);
    LateResultCommits([AttemptIn("UTC"), AttemptIn("CET")]);
    forall x | Unhurried(x) ensures PlanningPipeline.Planned(AttemptIn("UTC"), x) == LATE.proposal {
      OfferIsPlanned(x);
    }
  }

  lemma {:induction false} ReachesTwo(all: seq<Label>)
    requires all == [Begin("UTC"), REPLACE, ERASE, Begin("CET"), REPLACE]
    ensures Reach(all, 0) == World(Some(ChangedTrip("CET")), [AttemptIn("UTC"), AttemptIn("CET")], true)
    ensures !StartsFit(all, 0)
  {
    var three := all[..4][..3];
    assert three == [Begin("UTC"), REPLACE, ERASE];
    ReachesErased(three);
    var out := [AttemptIn("UTC")];
    Begins("CET", out);
    Replaces("CET", out);
    assert Reach(all[..4], 0) == Next(Reach(three, 0), Begin("CET"), 0);
    assert Reach(all, 0) == Next(Reach(all[..4], 0), REPLACE, 0);
    assert out + [AttemptIn("CET")] == [AttemptIn("UTC"), AttemptIn("CET")];
    assert out[0].seed.token.plannerVersion == 1 && Unfit(out[0], Begin("CET").boot);
    SmallTripsAreValid("CET", 1);
    assert !FitStart(Reach(three, 0), Begin("CET"));
    assert !StartsFit(all[..4], 0);
  }

  lemma {:induction false} ReachesErased(three: seq<Label>)
    requires three == [Begin("UTC"), REPLACE, ERASE]
    ensures Reach(three, 0) == World(None, [AttemptIn("UTC")], true)
  {
    var two, one := three[..2], three[..2][..1];
    assert one[..0] == [];
    Begins("UTC", []);
    Replaces("UTC", []);
    assert Reach(one, 0) == Next(EMPTY, Begin("UTC"), 0);
    assert Reach(two, 0) == Next(Reach(one, 0), REPLACE, 0);
    assert [] + [AttemptIn("UTC")] == [AttemptIn("UTC")];
  }
}

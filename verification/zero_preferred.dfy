/** Where "infeasible" is wrong.  The generator gives an added-back activity at
    least a second, but the scorer refuses to schedule any activity whose
    preferred duration is zero, so a trip holding one that may not be skipped
    is called infeasible although the contract allows a plan. */
module ZeroPreferred {
  import opened Domain
  import opened PlannerInput
  import opened Alternatives
  import opened CandidateScores
  import opened Scoring
  import opened Feasibility
  import opened Search
  import opened TripSearch

  const STOP: PlanningActivity :=
    PlanningActivity(
      Activity(1, "place", "Place", Location(40.0, -74.0), "America/New_York", Walking, Flexible, Planned, 0, 1,
               Timing([Window(0, 10000)], None, 0, 0, 0, 10, true, true, false, None), 0, None),
      0, Segment(1, Omitted, None, None))

  const HERE: RouteEstimate := RouteEstimate(0, 0, true)

  const TRIP: SearchInput :=
    SearchInput(0, 0, 100000, [], [STOP], Some(RawMatrix(2, [HERE, HERE, HERE, HERE])))

  const VISIT: Decision := Decision(0, 0, 0, 1000)

  const UNHURRIED: Polls := Polls((k: nat) => false, (k: nat) => false)

  lemma {:induction false} TripIsValid()
    ensures TRIP.Valid() && SmallTimes(TRIP) && TRIP.IndexOf(0) == Some(0)
  {
    assert TRIP.remaining[0] == STOP;
  }

  lemma {:induction false} VisitIsLegal()
    ensures LegalPlan(TRIP, [VISIT])
  {
    TripIsValid();
    VisitsKnown(TRIP, [VISIT]);
    VisitsOnly([VISIT]);
    assert [VISIT][..0] == [];
    assert Window(0, 10000) in STOP.activity.timing.windows;
    assert MayOccupy(TRIP, STOP, 0, 1000);
    assert LegalVisit(TRIP, StandAfter(TRIP, []), VISIT);
    assert LegalVisits(TRIP, [VISIT]);
  }

  lemma {:induction false} NothingIsAccepted(ds: seq<Decision>)
    requires ds != []
    ensures !Accepted(TRIP, ds)
  {
    if Accepted(TRIP, ds) {
      TripIsValid();
      assert |ds| == 1 && ds == [] + [ds[0]];
      AcceptedAppend(TRIP, [], ds[0]);
      assert TRIP.remaining[TRIP.IndexOf(ds[0].ordinal).value] == STOP;
      AcceptedLegIsLegal(TRIP, ChainOf(TRIP, []).value, ds[0]);
    }
  }

  lemma {:induction false} NothingIsAdmitted(space: Space, budget: Budget, ds: seq<Decision>, next: seq<Decision>, p: Progress)
    requires forall d: Decision :: !space.viable(ds + [d])
    ensures ConsiderDecisions(space, budget, ds, next, p) == Going(p)
  {
    if next != [] { NothingIsAdmitted(space, budget, ds, next[1..], p); }
  }

  /** A legal plan exists, and an unlimited search still answers "infeasible". */
  lemma {:induction false} ZeroPreferredIsMissed()
    ensures LegalPlan(TRIP, [VISIT])
    ensures BeamSearch(TRIP, Budget(1, 1, 1), UNHURRIED).outcome == ExhaustiveInfeasible
  {
    VisitIsLegal();
    TripIsValid();
    var space, budget := SpaceOf(TRIP), Budget(1, 1, 1);
    var p := Progress([], None, 0, 0);
    OrderCoversAll(TRIP);
    assert space.order == [0] by { assert space.order[0] in ActivityOrder(TRIP); }
    forall d: Decision ensures !space.viable([] + [d]) { NothingIsAccepted([] + [d]); }
    var q := p.(expansions := 1);
    NothingIsAdmitted(space, budget, [], space.next([], 0), q);
    assert !space.decided([], 0);
    assert ConsiderActivities(space, budget, UNHURRIED, [], [0], p) == Going(q);
    var root := Candidate([], space.score([]));
    assert ConsiderParents(space, budget, UNHURRIED, [root], p) == Going(q);
  }
}

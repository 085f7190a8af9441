/** What the replay of the current plan can get wrong: it can end an attempt for
    which a plan was to be found. */
module LongStop {
  import opened Domain
  import opened TripEvents
  import opened TripStates
  import opened RuntimeVersions
  import opened EventCoordinator
  import opened TripRuntime
  import opened RuntimeSafety
  import opened PlannerInput
  import opened PlanningInputAssembly
  import opened RouteRequests
  import opened ReplanFacts
  import opened PlanningPipeline
  import opened CandidateScores
  import opened Alternatives
  import opened Scoring
  import opened SearchSpace
  import opened Search
  import opened TripSearch

  // ----- a stop that lasts for all of time -----

  const PLACE := Location(0.0, 0.0)

  const OPTIONAL := Activity(1, "place", "Place", PLACE, "UTC", Walking, Flexible, Planned, 0, 1,
                             Timing([], None, 0, 0, 1, 1, false, true, true, None), 0, None)

  const FOREVER := Segment(1, Scheduled, Some(0), Some(INT64_MAX))

  const ENTRY := PlanningActivity(OPTIONAL, 0, FOREVER)

  const SKIP := Decision(0, 1, 0, 0)

  /** One optional stop that takes all of time, a millisecond after it began. */
  predicate Endless(input: SearchInput) {
    && input.Valid() && input.prefix == [] && input.remaining == [ENTRY] && input.now == 1
    && input.matrix.value.At(0, 1) == HERE
  }

  lemma {:induction false} EndlessFactsFail(input: SearchInput)
    requires Endless(input)
    ensures DeriveFacts(input).None?
  {
    assert Stop(input, 0) && input.SuffixStart() == 1;
    assert Arrival(input, 1, 0, 0) == Some(1);
    assert StopEnd(FOREVER, 1).None?;
  }

  lemma {:induction false} OnlyDropping(input: SearchInput, arrival: int64)
    requires Endless(input) && arrival == 1
    ensures DecisionsOf(AlternativesFor(input, ENTRY, arrival)) == [SKIP]
  {
  }

  lemma {:induction false} DroppingIsAccepted(input: SearchInput)
    requires Endless(input)
    ensures Scoring.Accepted(input, [SKIP])
  {
    SkipIsKnown(input);
    assert Scoring.Visits([SKIP]) == Scoring.Visits([SKIP][..0]) == [];
  }

  lemma {:induction false} SkipIsKnown(input: SearchInput)
    requires Endless(input)
    ensures Scoring.Acceptable(input, [SKIP])
  {
    IndexOfIsInverse(input, 0);
    assert input.remaining[0] == ENTRY;
  }

  lemma {:induction false} DroppingIsViable(input: SearchInput)
    requires Endless(input)
    ensures Viable(input, [SKIP])
  {
    DroppingIsAccepted(input);
    forall i | 0 <= i < |input.remaining| ensures WithinReach(input, [SKIP], i) {
      assert input.remaining[i] == ENTRY && !ENTRY.Protected();
    }
  }

  lemma {:induction false} OnlyChoiceIsFound(space: Space, budget: Budget, polls: Polls, d: Decision)
    requires space.size == 1 && space.order == [0] && !space.decided([], 0) && space.next([], 0) == [d] && space.viable([d])
    requires budget.Valid() && !polls.stop(1) && !polls.late(1)
    ensures SearchFrom(space, budget, polls).best.Some?
  {
    var p := Progress([], None, 0, 0);
    var q := Admit(1, Candidate([d], space.score([d])), p.(expansions := 1));
    assert [] + [d] == [d];
    assert ConsiderDecisions(space, budget, [], [d], p.(expansions := 1)) == Going(q);
    assert ConsiderActivities(space, budget, polls, [], [0], p) == Going(q);
    var root := Candidate([], space.score([]));
    assert ConsiderParents(space, budget, polls, [root], p) == Going(q);
    assert Levels(space, budget, polls, 1, Retain(budget, q.children), q, |q.children| > budget.beamWidth).best.Some?;
  }

  lemma {:induction false} OnlyOrder(input: SearchInput)
    requires |input.remaining| == 1
    ensures ActivityOrder(input) == [0]
  {
    OrderCoversAll(input);
    assert ActivityOrder(input)[0] in ActivityOrder(input);
  }

  lemma {:induction false} OnlyNext(input: SearchInput)
    requires Endless(input)
    ensures NextDecisions(input, [], 0) == [SKIP]
  {
    assert ArrivalAt(input, 0, 1, 0) == Some(1);
    OnlyDropping(input, ArrivalFrom(input, [], 0));
  }

  lemma {:induction false} EndlessIsFound(input: SearchInput, budget: Budget, polls: Polls)
    requires Endless(input) && budget.Valid() && !polls.stop(0) && !polls.late(0) && !polls.stop(1) && !polls.late(1)
    ensures BeamSearch(input, budget, polls).best.Some?
  {
    OnlyOrder(input);
    OnlyNext(input);
    DroppingIsViable(input);
    OnlyChoiceIsFound(SpaceOf(input), budget, polls, SKIP);
  }

  // ----- an attempt to plan it -----

  const STATE := TripState(0, "UTC", [OPTIONAL], 0, None, CurrentPlan(1, 1, UserAuthored, [FOREVER], 0, None), [],
                           Observation(Some(PLACE), None, None, None), None)

  const ATTEMPT := Attempt(Seed(STATE, LocationUpdated(PLACE), Snapshot(1, 1, 1, 1, 1, 1, 1), Token(1, 1, 1)),
                           PlanningContext(1, 0, 100, 1, 0, 1, 1, 1), Normal, true)

  const NEAR: Matrix := RawMatrix(2, [HERE, HERE, HERE, HERE])

  const UNHURRIED := Surroundings((_: seq<Location>, _: TravelMode) => Table(NEAR, false),
                                  Polls((k: nat) => false, (k: nat) => false), (_: Facts, _: bool) => [])

  lemma {:induction false} StateIsValid()
    ensures STATE.Valid()
  {
    assert ActivityIds(STATE.activities) == [1] && SegmentIds(STATE.plan.segments) == [1];
    assert InOrder([FOREVER], None);
    assert ActivityIndex([OPTIONAL], 1) == Some(0);
  }

  lemma {:induction false} RequestIs()
    ensures MakeRequest(STATE) == Some(RouteRequest([PLACE, PLACE], [Walking]))
  {
    StateIsValid();
    ValidStateFacts(STATE);
    assert STATE.plan.segments[0..] == [FOREVER];
    assert ActivityIndex([OPTIONAL], 1) == Some(0);
    assert LocationsOf([OPTIONAL], [FOREVER]) == [PLACE] && ModesOf([OPTIONAL], [FOREVER]) == [Walking];
    assert [PLACE] + [PLACE] == [PLACE, PLACE];
  }

  lemma {:induction false} AttemptIsEndless()
    ensures Ready(ATTEMPT) && Plannable(ATTEMPT, UNHURRIED) && Endless(InputFor(ATTEMPT, UNHURRIED))
  {
    var r := RouteRequest([PLACE, PLACE], [Walking]);
    StateIsValid();
    RequestIs();
    assert Serves(UNHURRIED.provider, r, Walking) && Serves(UNHURRIED.provider, r, Driving);
    CombinedAt(UNHURRIED.provider, r, 0, 1);
    assert NEAR.At(0, 1) == HERE;
    var input := InputFor(ATTEMPT, UNHURRIED);
    assert STATE.plan.segments[0..] == [FOREVER] && ActivityIndex([OPTIONAL], 1) == Some(0);
    assert input.remaining == [ENTRY];
  }

  /** An attempt with everything it needs, for which the search finds a plan,
      comes back empty-handed: replaying the plan overflows. */
  lemma {:induction false} ReplayOverflowDropsPlan()
    ensures Ready(ATTEMPT) && Plannable(ATTEMPT, UNHURRIED) && ATTEMPT.seed.source.accepted != 0
    ensures Searched(ATTEMPT, UNHURRIED).best.Some? && FactsFor(ATTEMPT, UNHURRIED).None?
    ensures PlanningPipeline.Planned(ATTEMPT, UNHURRIED).None?
  {
    AttemptIsEndless();
    EndlessFactsFail(InputFor(ATTEMPT, UNHURRIED));
    EndlessIsFound(InputFor(ATTEMPT, UNHURRIED), BudgetOf(ATTEMPT.context), UNHURRIED.polls);
  }
}

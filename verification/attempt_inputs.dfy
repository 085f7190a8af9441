/** What a planning attempt is given: which activities, and which travel times,
    said of the trip's state and the provider's answers. */
module AttemptInputs {
  import opened Domain
  import opened PlannerInput
  import opened Proposals
  import opened TripEvents
  import opened TripStates
  import opened PlanningInputAssembly
  import opened RouteRequests

  // ----- the activities -----

  /** The input says of a segment of the plan what the trip says. */
  ghost predicate TellsOf(a: PlanningActivity, s: TripState, segment: Segment) {
    && a.segment == segment && a.activity.id == segment.id
    && a.ordinal < |s.activities| && s.activities[a.ordinal] == a.activity
  }

  /** Whether the activity of a segment is finished or under way. */
  ghost predicate Begun(s: TripState, segment: Segment) {
    exists a | a in s.activities :: a.id == segment.id && !a.state.Planned?
  }

  /** The plan falls into a front that has begun, which the input keeps, and a
      rest that has not, which it plans anew, in the plan's order. */
  ghost predicate TellsTrip(input: SearchInput, s: TripState, f: Frame, matrix: Matrix) {
    && input.now == f.now && input.horizonStart == f.horizonStart && input.horizonEnd == f.horizonEnd
    && input.matrix == Some(matrix)
    && |input.prefix| + |input.remaining| == |s.plan.segments|
    && (forall i | 0 <= i < |input.prefix| :: input.prefix[i] == s.plan.segments[i] && Begun(s, s.plan.segments[i]))
    && (forall i | 0 <= i < |input.remaining| ::
          TellsOf(input.remaining[i], s, s.plan.segments[|input.prefix| + i]) && !Begun(s, s.plan.segments[|input.prefix| + i]))
  }

  lemma {:induction false} BegunIff(s: TripState, i: nat)
    requires s.Valid() && i < |s.plan.segments|
    ensures Begun(s, s.plan.segments[i]) <==> i < PreservedCount(s)
  {
    var id := s.plan.segments[i].id;
    assert SegmentFits(s.activities, id, i, s.prefix);
    var at, ids := ActivityIndex(s.activities, id).value, ActivityIds(s.activities);
    forall a | a in s.activities && a.id == id ensures a == s.activities[at] {
      var k :| 0 <= k < |s.activities| && s.activities[k] == a;
      assert ids[k] == ids[at];
    }
    assert s.activities[at] in s.activities;
  }

  lemma {:induction false} InputTells(s: TripState, f: Frame, matrix: Matrix)
    requires s.Valid() && Framed(s, f, matrix)
    ensures PreservedCount(s) <= |s.plan.segments| && AllHave(s.activities, s.plan.segments)
    ensures TellsTrip(InputOf(s, f, matrix), s, f, matrix)
  {
    ValidStateFacts(s);
    var k, segments, input := PreservedCount(s), s.plan.segments, InputOf(s, f, matrix);
    forall i | 0 <= i < k ensures Begun(s, segments[i]) {
      BegunIff(s, i);
    }
    forall i | 0 <= i < |segments| - k ensures TellsOf(input.remaining[i], s, segments[k + i]) && !Begun(s, segments[k + i]) {
      assert Has(s.activities, segments[k + i].id);
      BegunIff(s, k + i);
    }
  }

  // ----- the travel times -----

  /** The traveller's place and then that of each remaining activity. */
  ghost function Places(here: Location, remaining: seq<PlanningActivity>): (r: seq<Location>)
    ensures |r| == |remaining| + 1
  {
    seq(|remaining| + 1, j requires 0 <= j <= |remaining| => if j == 0 then here else remaining[j - 1].activity.location)
  }

  /** The provider answers for the way to an activity. */
  ghost predicate Answers(provider: Provider, here: Location, remaining: seq<PlanningActivity>, i: nat)
    requires i < |remaining|
  {
    var table := provider(Places(here, remaining), remaining[i].activity.inboundMode);
    table.Table? && table.matrix.count == |remaining| + 1
  }

  ghost predicate AnswersAll(provider: Provider, here: Location, remaining: seq<PlanningActivity>) {
    forall i | 0 <= i < |remaining| :: Answers(provider, here, remaining, i)
  }

  /** The way to an activity, from anywhere, is the provider's, by the activity's mode. */
  ghost predicate TellsWays(m: Matrix, provider: Provider, here: Location, remaining: seq<PlanningActivity>, i: nat)
    requires i < |remaining| && Answers(provider, here, remaining, i) && m.count == |remaining| + 1
  {
    var table, d := provider(Places(here, remaining), remaining[i].activity.inboundMode).matrix, i + 1;
    forall o | 0 <= o < m.count :: m.At(o, d) == table.At(o, d)
  }

  /** The whole matrix and its quality. */
  ghost predicate TellsTravel(a: Acquired, provider: Provider, here: Location, remaining: seq<PlanningActivity>)
    requires AnswersAll(provider, here, remaining)
  {
    && a.matrix.count == |remaining| + 1
    && (forall o | 0 <= o < a.matrix.count :: a.matrix.At(o, 0) == RouteEstimate(0, 0, o == 0))
    && (forall i | 0 <= i < |remaining| :: Answers(provider, here, remaining, i) && TellsWays(a.matrix, provider, here, remaining, i))
    && (a.quality == StaleCache <==>
          exists i | 0 <= i < |remaining| ::
            Answers(provider, here, remaining, i) && provider(Places(here, remaining), remaining[i].activity.inboundMode).stale)
    && (a.quality == StaleCache || a.quality == Fresh)
  }

  lemma {:induction false} PlacesAre(activities: seq<Activity>, rest: seq<Segment>, here: Location, remaining: seq<PlanningActivity>)
    requires AllHave(activities, rest) && remaining == Entries(activities, rest)
    ensures [here] + LocationsOf(activities, rest) == Places(here, remaining)
    ensures |ModesOf(activities, rest)| == |remaining|
    ensures forall i | 0 <= i < |remaining| :: ModesOf(activities, rest)[i] == remaining[i].activity.inboundMode
  {
    forall i | 0 <= i < |rest| ensures remaining[i].activity == ActivityOf(activities, rest[i]) && Has(activities, rest[i].id) {
      assert Has(activities, rest[i].id);
    }
  }

  lemma {:induction false} RequestIs(s: TripState, remaining: seq<PlanningActivity>)
    requires s.Valid() && PreservedCount(s) < |s.plan.segments| && s.observation.location.Some?
    requires AllHave(s.activities, s.plan.segments) && remaining == Entries(s.activities, s.plan.segments[PreservedCount(s)..])
    ensures MakeRequest(s).Some? && MakeRequest(s).value.locations == Places(s.observation.location.value, remaining)
    ensures |MakeRequest(s).value.modes| == |remaining|
    ensures forall i | 0 <= i < |remaining| :: MakeRequest(s).value.modes[i] == remaining[i].activity.inboundMode
  {
    RequestFits(s);
    PlacesAre(s.activities, s.plan.segments[PreservedCount(s)..], s.observation.location.value, remaining);
  }

  lemma {:induction false} ServesIff(provider: Provider, r: RouteRequest, here: Location, remaining: seq<PlanningActivity>)
    requires r.locations == Places(here, remaining) && |r.modes| == |remaining|
    requires forall i | 0 <= i < |remaining| :: r.modes[i] == remaining[i].activity.inboundMode
    ensures ServesAll(provider, r) <==> AnswersAll(provider, here, remaining)
  {
    if ServesAll(provider, r) {
      forall i | 0 <= i < |remaining| ensures Answers(provider, here, remaining, i) {
        assert r.modes[i] in r.modes;
        assert Serves(provider, r, r.modes[i]) by { assert r.modes[i] == Walking || r.modes[i] == Driving; }
      }
    }
    if AnswersAll(provider, here, remaining) {
      ServedBy(provider, r, here, remaining, Walking);
      ServedBy(provider, r, here, remaining, Driving);
    }
  }

  lemma {:induction false} ServedBy(provider: Provider, r: RouteRequest, here: Location, remaining: seq<PlanningActivity>, mode: TravelMode)
    requires r.locations == Places(here, remaining) && |r.modes| == |remaining| && AnswersAll(provider, here, remaining)
    requires forall i | 0 <= i < |remaining| :: r.modes[i] == remaining[i].activity.inboundMode
    ensures Serves(provider, r, mode)
    ensures StaleFor(provider, r, mode) <==>
      exists i | 0 <= i < |remaining| ::
        && remaining[i].activity.inboundMode == mode && Answers(provider, here, remaining, i)
        && provider(Places(here, remaining), remaining[i].activity.inboundMode).stale
  {
    if mode in r.modes {
      var i :| 0 <= i < |r.modes| && r.modes[i] == mode;
      assert Answers(provider, here, remaining, i);
    }
  }

  lemma {:induction false} WaysAreTold(provider: Provider, r: RouteRequest, here: Location, remaining: seq<PlanningActivity>, i: nat)
    requires r.locations == Places(here, remaining) && |r.modes| == |remaining| && ServesAll(provider, r)
    requires i < |remaining| && r.modes[i] == remaining[i].activity.inboundMode && Answers(provider, here, remaining, i)
    ensures TellsWays(Combined(provider, r), provider, here, remaining, i)
  {
    var m, d, table := Combined(provider, r), i + 1, provider(Places(here, remaining), remaining[i].activity.inboundMode).matrix;
    forall o | 0 <= o < m.count ensures m.At(o, d) == table.At(o, d) {
      CombinedAt(provider, r, o, d);
    }
  }

  lemma {:induction false} NothingLeadsBack(provider: Provider, r: RouteRequest)
    requires ServesAll(provider, r) && |r.locations| == |r.modes| + 1
    ensures forall o | 0 <= o < |r.locations| :: Combined(provider, r).At(o, 0) == RouteEstimate(0, 0, o == 0)
  {
    forall o | 0 <= o < |r.locations| ensures Combined(provider, r).At(o, 0) == RouteEstimate(0, 0, o == 0) {
      CombinedAt(provider, r, o, 0);
    }
  }

  lemma {:induction false} CombinedTells(provider: Provider, r: RouteRequest, a: Acquired, here: Location, remaining: seq<PlanningActivity>)
    requires r.locations == Places(here, remaining) && |r.modes| == |remaining| && AnswersAll(provider, here, remaining)
    requires forall i | 0 <= i < |remaining| :: r.modes[i] == remaining[i].activity.inboundMode
    requires ServesAll(provider, r) && a.matrix == Combined(provider, r)
    requires a.quality == if StaleFor(provider, r, Walking) || StaleFor(provider, r, Driving) then StaleCache else Fresh
    ensures TellsTravel(a, provider, here, remaining)
  {
    NothingLeadsBack(provider, r);
    forall i | 0 <= i < |remaining| ensures Answers(provider, here, remaining, i) && TellsWays(a.matrix, provider, here, remaining, i) {
      WaysAreTold(provider, r, here, remaining, i);
    }
    ServedBy(provider, r, here, remaining, Walking);
    ServedBy(provider, r, here, remaining, Driving);
  }

  /** A matrix is acquired for a trip with something left exactly if the
      traveller is somewhere known and the provider answers, in the mode of
      each remaining activity, for their place followed by those of the
      activities.  It then says what those answers say. */
  lemma {:induction false} AcquiredTells(s: TripState, provider: Provider, f: Frame, anyMatrix: Matrix)
    requires s.Valid() && Framed(s, f, anyMatrix)
    ensures PreservedCount(s) <= |s.plan.segments| && AllHave(s.activities, s.plan.segments)
    ensures var remaining := InputOf(s, f, anyMatrix).remaining;
      if remaining == [] then AcquireMatrix(s, provider) == Some(Acquired(RawMatrix(1, [RouteEstimate(0, 0, true)]), Fresh))
      else if s.observation.location.None? || !AnswersAll(provider, s.observation.location.value, remaining)
      then AcquireMatrix(s, provider).None?
      else AcquireMatrix(s, provider).Some? && TellsTravel(AcquireMatrix(s, provider).value, provider, s.observation.location.value, remaining)
  {
    ValidStateFacts(s);
    RequestFits(s);
    var remaining := InputOf(s, f, anyMatrix).remaining;
    if remaining != [] && s.observation.location.Some? {
      var here, r := s.observation.location.value, MakeRequest(s).value;
      RequestIs(s, remaining);
      ServesIff(provider, r, here, remaining);
      if ServesAll(provider, r) {
        CombinedTells(provider, r, AcquireMatrix(s, provider).value, here, remaining);
      }
    }
  }
}

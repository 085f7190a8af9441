/** Exactly when a current token can mislead: a start that is not fit is followed,
    sooner or later, by a state other than the one the token was captured in. */
module UnfitStart {
  import opened Domain
  import opened Folding
  import opened TripEvents
  import opened TripStates
  import opened RuntimeVersions
  import opened EventCoordinator
  import opened TripRuntime
  import opened RuntimeSteps
  import opened RuntimeOffers
  import opened RuntimeSafety

  // ----- a fit attempt stays fit -----

  lemma {:induction false} SaneFollow(w: World, labels: seq<Label>, maxAdvisoryBytes: nat)
    requires SaneWorld(w)
    ensures SaneWorld(Follow(w, labels, maxAdvisoryBytes))
  {
    if labels != [] {
      SaneFollow(w, labels[..|labels| - 1], maxAdvisoryBytes);
      SaneStep(Follow(w, labels[..|labels| - 1], maxAdvisoryBytes), labels[|labels| - 1], maxAdvisoryBytes);
    }
  }

  ghost predicate AnswersIn(a: Attempt, w: World) {
    w.trip.Some? ==> Answers(a, w.trip.value.state, w.trip.value.versions.snapshot)
  }

  lemma {:induction false} StillAnswers(w: World, labels: seq<Label>, a: Attempt, maxAdvisoryBytes: nat)
    requires SaneWorld(w) && AnswersIn(a, w) && Quiet(w, labels, maxAdvisoryBytes)
    ensures AnswersIn(a, Follow(w, labels, maxAdvisoryBytes))
  {
    if labels != [] {
      var front, last := labels[..|labels| - 1], labels[|labels| - 1];
      StillAnswers(w, front, a, maxAdvisoryBytes);
      SaneFollow(w, front, maxAdvisoryBytes);
      OneAnswer(Follow(w, front, maxAdvisoryBytes), last, a, maxAdvisoryBytes);
    }
  }

  lemma {:induction false} OneAnswer(w: World, l: Label, a: Attempt, maxAdvisoryBytes: nat)
    requires SaneWorld(w) && AnswersIn(a, w) && !StartsEpoch(w, l)
    ensures AnswersIn(a, Next(w, l, maxAdvisoryBytes))
  {
    if Next(w, l, maxAdvisoryBytes).trip.Some? {
      StepMoves(w, l, maxAdvisoryBytes);
    }
  }

  // ----- catching up with the attempt's planner version -----

  /** A place the attempt's traveller was not seen at. */
  function Elsewhere(s: TripState): (r: Location)
    ensures r.Valid() && s.observation.location != Some(r)
  {
    if s.observation.location == Some(Location(0.0, 0.0)) then Location(1.0, 0.0) else Location(0.0, 0.0)
  }

  const CONTEXT := PlanningContext(0, 0, 1, 0, 0, 1, 1, 1)
  const BUSY := Load(false, false, false)

  function Sighting(epoch: uint64, number: uint64, place: Location): EventRequest {
    EventRequest(Request(epoch, 0, number, 0, None, TripEvent(0, 0, None, LocationUpdated(place))), CONTEXT)
  }

  /** So many observations, numbered on from the last. */
  function Sightings(v: Snapshot, n: nat, place: Location): seq<Label>
    requires v.observed + n <= UINT64_MAX
  {
    seq(n, i requires 0 <= i < n => Event(Sighting(v.epoch, v.observed + i + 1, place), BUSY))
  }

  function SeenAt(s: TripState, place: Location): TripState {
    s.(observation := s.observation.(location := Some(place), observedAt := Some(0)), proposal := None)
  }

  predicate HasRoom(v: Snapshot, n: nat) {
    v.observed + n <= UINT64_MAX && v.plannerVersion + n <= UINT64_MAX && v.generation + n <= UINT64_MAX
  }

  function Later(v: Snapshot, n: nat): Snapshot
    requires HasRoom(v, n)
  {
    v.(plannerVersion := v.plannerVersion + n, generation := v.generation + n, observed := v.observed + n)
  }

  /** The trip `n` sightings later. */
  predicate SightedTrip(t: Trip, s: TripState, v: Snapshot, n: nat, place: Location) {
    && HasRoom(v, n) && t.state.Valid() && !t.deactivating && t.versions == Versions(true, Later(v, n))
    && t.state == if n == 0 then s else SeenAt(s, place)
  }

  predicate Sighted(w: World, s: TripState, v: Snapshot, n: nat, place: Location, outstanding: seq<Attempt>) {
    w.trip.Some? && w.outstanding == outstanding && SightedTrip(w.trip.value, s, v, n, place)
  }

  lemma {:induction false} SeenIsValid(s: TripState, place: Location)
    requires s.Valid() && place.Valid()
    ensures SeenAt(s, place).Valid()
  {
  }

  lemma {:induction false} SightingApplies(s: TripState, place: Location, maxAdvisoryBytes: nat)
    requires s.Valid() && place.Valid()
    ensures var e := TripEvent(0, 0, None, LocationUpdated(place));
      Verdict(s, e, maxAdvisoryBytes).Applied? && After(s, e, maxAdvisoryBytes) == SeenAt(s, place)
  {
    SeenIsValid(s, place);
  }

  lemma {:induction false} SightingIsAdmitted(s: TripState, v: Snapshot, place: Location, maxAdvisoryBytes: nat)
    requires s.Valid() && place.Valid() && HasRoom(v, 1)
    ensures var c := Coordinate(s, Versions(true, v), Sighting(v.epoch, v.observed + 1, place).admission, 0, maxAdvisoryBytes);
      c.0 == SeenAt(s, place) && c.2.status.Admitted? && c.1 == Versions(true, Later(v, 1))
  {
    SightingApplies(s, place, maxAdvisoryBytes);
  }

  /** While the executors take nothing, an event hands no attempt out. */
  lemma {:induction false} NothingGoesOut(t: Trip, result: CoordinatorResult, r: EventRequest, priority: Priority, accepting: bool)
    ensures var n := AfterAdmission(t, result, r, priority, accepting, BUSY);
      n.1 == [] && n.0.state == t.state && n.0.versions == t.versions && n.0.deactivating == t.deactivating
  {
  }

  lemma {:induction false} SightingMoves(t: Trip, s: TripState, v: Snapshot, n: nat, place: Location, accepting: bool, maxAdvisoryBytes: nat)
    requires SightedTrip(t, s, v, n, place) && place.Valid() && HasRoom(v, n + 1)
    ensures var h := HandleEvent(t, Sighting(v.epoch, v.observed + n + 1, place), accepting, BUSY, maxAdvisoryBytes);
      SightedTrip(h.0, s, v, n + 1, place) && h.1 == []
  {
    var r := Sighting(v.epoch, v.observed + n + 1, place);
    SeenIsValid(t.state, place);
    SightingIsAdmitted(t.state, Later(v, n), place, maxAdvisoryBytes);
    var c := Coordinate(t.state, t.versions, r.admission, 0, maxAdvisoryBytes);
    NothingGoesOut(t.(state := c.0, versions := c.1), c.2, r, r.admission.event.payload.PriorityFor(t.state.activities), accepting);
  }

  lemma {:induction false} OneSighting(w: World, w': World, r: EventRequest, s: TripState, v: Snapshot, n: nat, place: Location,
                                       outstanding: seq<Attempt>, maxAdvisoryBytes: nat)
    requires Sighted(w, s, v, n, place, outstanding) && place.Valid() && HasRoom(v, n + 1)
    requires r == Sighting(v.epoch, v.observed + n + 1, place) && w' == Next(w, Event(r, BUSY), maxAdvisoryBytes)
    ensures Sighted(w', s, v, n + 1, place, outstanding)
  {
    SightingMoves(w.trip.value, s, v, n, place, w.accepting, maxAdvisoryBytes);
    assert outstanding + [] == outstanding;
  }

  /** So many sightings lead to the trip so many sightings later, and start nothing. */
  ghost predicate CaughtUp(w: World, s: TripState, v: Snapshot, n: nat, place: Location, outstanding: seq<Attempt>, maxAdvisoryBytes: nat) {
    forall now {:trigger Ask(now)} :: Ask(now) ==>
      && HasRoom(v, n) && Quiet(w, Sightings(v, n, place), maxAdvisoryBytes)
      && Sighted(Follow(w, Sightings(v, n, place), maxAdvisoryBytes), s, v, n, place, outstanding)
  }

  lemma {:induction false} LastSighting(v: Snapshot, n: nat, place: Location)
    requires n > 0 && v.observed + n <= UINT64_MAX
    ensures var labels := Sightings(v, n, place);
      && labels != [] && labels[..|labels| - 1] == Sightings(v, n - 1, place)
      && labels[|labels| - 1] == Event(Sighting(v.epoch, v.observed + (n - 1) + 1, place), BUSY)
  {
  }

  lemma {:induction false} FollowOneMore(w: World, front: seq<Label>, all: seq<Label>, l: Label, maxAdvisoryBytes: nat)
    requires all != [] && all[..|all| - 1] == front && all[|all| - 1] == l && Quiet(w, front, maxAdvisoryBytes) && !l.Boot?
    ensures Follow(w, all, maxAdvisoryBytes) == Next(Follow(w, front, maxAdvisoryBytes), l, maxAdvisoryBytes)
    ensures Quiet(w, all, maxAdvisoryBytes)
  {
  }

  lemma {:induction false} OneMore(w: World, s: TripState, v: Snapshot, n: nat, place: Location, outstanding: seq<Attempt>, maxAdvisoryBytes: nat)
    requires n > 0 && place.Valid() && HasRoom(v, n) && CaughtUp(w, s, v, n - 1, place, outstanding, maxAdvisoryBytes)
    ensures CaughtUp(w, s, v, n, place, outstanding, maxAdvisoryBytes)
  {
    assert Ask(true);
    var front, all := Sightings(v, n - 1, place), Sightings(v, n, place);
    LastSighting(v, n, place);
    FollowOneMore(w, front, all, all[|all| - 1], maxAdvisoryBytes);
    OneSighting(Follow(w, front, maxAdvisoryBytes), Follow(w, all, maxAdvisoryBytes), all[|all| - 1].request, s, v, n - 1, place,
                outstanding, maxAdvisoryBytes);
  }

  lemma {:induction false} Catches(w: World, s: TripState, v: Snapshot, n: nat, place: Location, outstanding: seq<Attempt>, maxAdvisoryBytes: nat)
    requires place.Valid() && HasRoom(v, n) && CaughtUp(w, s, v, 0, place, outstanding, maxAdvisoryBytes)
    ensures CaughtUp(w, s, v, n, place, outstanding, maxAdvisoryBytes)
  {
    if n > 0 {
      Catches(w, s, v, n - 1, place, outstanding, maxAdvisoryBytes);
      OneMore(w, s, v, n, place, outstanding, maxAdvisoryBytes);
    }
  }

  // ----- the token that misleads -----

  /** The attempt's token is current and the state is not the one it was captured in. */
  ghost predicate Misleads(a: Attempt, w: World) {
    w.trip.Some? && w.trip.value.versions.CanCommit(a.seed.token) && a.seed.state.Core() != w.trip.value.state.Core()
  }

  /** In some continuation without another start it does. */
  ghost predicate CanMislead(a: Attempt, w: World, maxAdvisoryBytes: nat) {
    exists labels :: Quiet(w, labels, maxAdvisoryBytes) && Misleads(a, Follow(w, labels, maxAdvisoryBytes))
  }

  lemma {:induction false} NotTheSeed(seed: TripState, s: TripState)
    requires s.observation.location == Some(Elsewhere(seed))
    ensures seed.Core() != s.Core()
  {
    assert seed.Core().observation == seed.observation && s.Core().observation == s.observation;
  }

  /** The world just after a start. */
  function Booted(w: World, b: BootRequest, room: bool): World { w.(trip := HandleBoot(w.trip, b, room)) }

  function FirstOf(b: BootRequest): Snapshot { NewlyActive(b.epoch, b.revision, b.finalized, b.observed).snapshot }

  lemma {:induction false} StartIsCaughtUp(w: World, b: BootRequest, room: bool, place: Location, maxAdvisoryBytes: nat)
    requires SaneWorld(w) && Starts(w, b, room)
    ensures CaughtUp(Booted(w, b, room), b.state, FirstOf(b), 0, place, w.outstanding, maxAdvisoryBytes)
    ensures b.observed == 0 && b.state.Valid() && b.state.proposal.None? && b.epoch != 0
  {
    BootMeans(w, b, room);
    assert Sightings(FirstOf(b), 0, place) == [];
  }

  lemma {:induction false} UnfitMisleads(w: World, b: BootRequest, room: bool, a: Attempt, maxAdvisoryBytes: nat) returns (labels: seq<Label>)
    requires SaneWorld(w) && Starts(w, b, room) && Ready(a) && Unfit(a, b)
    ensures Quiet(Booted(w, b, room), labels, maxAdvisoryBytes) && Misleads(a, Follow(Booted(w, b, room), labels, maxAdvisoryBytes))
  {
    var n, place := a.seed.token.plannerVersion, Elsewhere(a.seed.state);
    StartIsCaughtUp(w, b, room, place, maxAdvisoryBytes);
    Catches(Booted(w, b, room), b.state, FirstOf(b), n, place, w.outstanding, maxAdvisoryBytes);
    assert Ask(true);
    labels := Sightings(FirstOf(b), n, place);
    CaughtMisleads(Follow(Booted(w, b, room), labels, maxAdvisoryBytes), b, a, w.outstanding);
  }

  lemma {:induction false} CaughtMisleads(w: World, b: BootRequest, a: Attempt, outstanding: seq<Attempt>)
    requires Ready(a) && Unfit(a, b)
    requires Sighted(w, b.state, FirstOf(b), a.seed.token.plannerVersion, Elsewhere(a.seed.state), outstanding)
    ensures Misleads(a, w)
  {
    if a.seed.token.plannerVersion > 0 {
      NotTheSeed(a.seed.state, w.trip.value.state);
    }
  }

  lemma {:induction false} FitAnswers(w: World, b: BootRequest, room: bool, a: Attempt)
    requires Starts(w, b, room) && !Unfit(a, b)
    ensures AnswersIn(a, Booted(w, b, room))
  {
    BootMeans(w, b, room);
  }

  /** The guard is exact: after any run and any start, an attempt's token can come
      to be current on a state it was not captured in if and only if the attempt
      is unfit for the start, whatever else happens before the next start. */
  lemma {:induction false} TokenMisleadsIff(run: seq<Label>, b: BootRequest, room: bool, a: Attempt, maxAdvisoryBytes: nat)
    requires Starts(Reach(run, maxAdvisoryBytes), b, room) && Ready(a)
    ensures CanMislead(a, Booted(Reach(run, maxAdvisoryBytes), b, room), maxAdvisoryBytes) <==> Unfit(a, b)
  {
    var before := Reach(run, maxAdvisoryBytes);
    var w := Booted(before, b, room);
    OffersAreCurrent(run, maxAdvisoryBytes);
    SaneStep(before, Boot(b, room), maxAdvisoryBytes);
    if Unfit(a, b) {
      var labels := UnfitMisleads(before, b, room, a, maxAdvisoryBytes);
    } else {
      FitAnswers(before, b, room, a);
      forall labels | Quiet(w, labels, maxAdvisoryBytes) ensures !Misleads(a, Follow(w, labels, maxAdvisoryBytes)) {
        StillAnswers(w, labels, a, maxAdvisoryBytes);
      }
    }
  }
}

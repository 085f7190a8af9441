/** Exactly when the planner's own result can be committed on a state it was not
    computed from: what must be the case at the start of an epoch for an attempt
    still out to do so later, as long as nobody edits the trip. */
module StaleCommits {
  import opened Domain
  import opened Folding
  import opened Proposals
  import opened TripEvents
  import opened TripStates
  import opened RuntimeVersions
  import opened EventCoordinator
  import opened TripRuntime
  import opened RuntimeSteps
  import opened RuntimeOffers
  import opened RuntimeSafety
  import opened UnfitStart
  import opened SamePlaces
  import PlanningPipeline

  // ----- what lasts from a start to the next -----

  /** There are numbers left for a durable command. */
  predicate Open(v: Snapshot) { CanIncrement(v.accepted) && CanIncrement(v.revision) }

  predicate IsEdit(l: Label) { l.Event? && l.request.admission.event.payload.TripEdited? }

  predicate NoEdits(labels: seq<Label>) { forall i | 0 <= i < |labels| :: !IsEdit(labels[i]) }

  /** What steps without a start or an edit keep of the start. */
  predicate Kept(t: Trip, b: BootRequest) {
    var v := t.versions.snapshot;
    && v.epoch == b.epoch && Alongside(b.state.activities, t.state.activities)
    && (v.plannerVersion == 0 ==> t.state.Core() == b.state.Core())
    && (!Open(FirstOf(b)) ==> !Open(v) && t.state.plan == b.state.plan)
  }

  ghost predicate KeptIn(w: World, b: BootRequest) { w.trip.Some? ==> Kept(w.trip.value, b) }

  lemma {:induction false} AdmissionCounts(s: TripState, v: Versions, r: Request, now: int64, verdict: Outcome, after: TripState)
    requires v.active && !Open(v.snapshot)
    ensures var c := Settle(s, v, r, now, verdict, after);
      !Open(c.1.snapshot) && (c.2.status.Admitted? ==> !IsDurable(r.event.payload.Class().value))
  {
  }

  lemma {:induction false} PlanCommandsAreDurable(p: Payload)
    requires p.ChangesPlan()
    ensures p.Class().Some? && IsDurable(p.Class().value)
  {
  }

  /** Without numbers left, no admission changes the plan. */
  lemma {:induction false} ClosedKeepsPlan(s: TripState, v: Versions, r: Request, now: int64, maxAdvisoryBytes: nat)
    requires v.active && !Open(v.snapshot)
    ensures var c := Coordinate(s, v, r, now, maxAdvisoryBytes); !Open(c.1.snapshot) && c.0.plan == s.plan
  {
    AdmissionCounts(s, v, r, now, Verdict(s, r.event, maxAdvisoryBytes), After(s, r.event, maxAdvisoryBytes));
    if Coordinate(s, v, r, now, maxAdvisoryBytes).0.plan != s.plan {
      AdmissionChangesPlan(s, v, r, now, maxAdvisoryBytes);
      PlanCommandsAreDurable(r.event.payload);
      assert false;
    }
  }

  lemma {:induction false} AdmissionStaysPut(s: TripState, v: Versions, r: Request, now: int64, maxAdvisoryBytes: nat)
    requires !r.event.payload.TripEdited?
    ensures Alongside(s.activities, Coordinate(s, v, r, now, maxAdvisoryBytes).0.activities)
  {
    EventStaysPut(s, r.event, maxAdvisoryBytes);
    assert Alongside(s.activities, s.activities);
  }

  /** The parts of a step that `Kept` asks about. */
  predicate Carries(t: Trip, t': Trip) {
    && StepsTo(t, t') && Alongside(t.state.activities, t'.state.activities)
    && (!Open(t.versions.snapshot) ==> !Open(t'.versions.snapshot) && t'.state.plan == t.state.plan)
  }

  lemma {:induction false} CarriesKept(t: Trip, t': Trip, b: BootRequest)
    requires Carries(t, t') && Kept(t, b)
    ensures Kept(t', b)
  {
    AlongsideTransitive(b.state.activities, t.state.activities, t'.state.activities);
  }

  lemma {:induction false} EventCarries(t: Trip, r: EventRequest, accepting: bool, load: Load, maxAdvisoryBytes: nat)
    requires Sane(t) && !r.admission.event.payload.TripEdited?
    ensures Carries(t, HandleEvent(t, r, accepting, load, maxAdvisoryBytes).0)
  {
    EventMoves(t, r, accepting, load, maxAdvisoryBytes);
    EventLeaves(t, r, accepting, load, maxAdvisoryBytes);
    AdmissionStaysPut(t.state, t.versions, r.admission, r.planning.currentTime, maxAdvisoryBytes);
    if !Open(t.versions.snapshot) {
      ClosedKeepsPlan(t.state, t.versions, r.admission, r.planning.currentTime, maxAdvisoryBytes);
    }
    assert Alongside(t.state.activities, t.state.activities);
  }

  lemma {:induction false} ControlCarries(t: Trip, l: Label)
    requires Sane(t) && IsControl(l) && HandleControl(t, l).Some?
    ensures Carries(t, HandleControl(t, l).value)
  {
    ControlLeaves(t, l);
  }

  lemma {:induction false} StepCarries(w: World, l: Label, maxAdvisoryBytes: nat)
    requires SaneWorld(w) && !StartsEpoch(w, l) && !IsEdit(l) && Next(w, l, maxAdvisoryBytes).trip.Some?
    ensures w.trip.Some? && Carries(w.trip.value, Next(w, l, maxAdvisoryBytes).trip.value)
  {
    StepMoves(w, l, maxAdvisoryBytes);
    match l {
      case Boot(b, room) => BootMeans(w, b, room);
      case Event(r, load) => EventCarries(w.trip.value, r, w.accepting, load, maxAdvisoryBytes);
      case Finish(k, proposal, load) =>
        if k < |w.outstanding| { FinishLeaves(w.trip.value, w.outstanding[k], proposal, w.accepting, load); }
      case Fail(k, load) =>
        if k < |w.outstanding| { FinishLeaves(w.trip.value, w.outstanding[k], None, w.accepting, load); }
      case Lose(_) =>
      case Close =>
      case _ => ControlCarries(w.trip.value, l);
    }
  }

  lemma {:induction false} KeptThroughout(w: World, labels: seq<Label>, b: BootRequest, maxAdvisoryBytes: nat)
    requires SaneWorld(w) && KeptIn(w, b) && Quiet(w, labels, maxAdvisoryBytes) && NoEdits(labels)
    ensures KeptIn(Follow(w, labels, maxAdvisoryBytes), b)
  {
    if labels != [] {
      var front, last := labels[..|labels| - 1], labels[|labels| - 1];
      assert forall i | 0 <= i < |front| :: front[i] == labels[i];
      KeptThroughout(w, front, b, maxAdvisoryBytes);
      SaneFollow(w, front, maxAdvisoryBytes);
      OneKept(Follow(w, front, maxAdvisoryBytes), last, b, maxAdvisoryBytes);
    }
  }

  lemma {:induction false} OneKept(w: World, l: Label, b: BootRequest, maxAdvisoryBytes: nat)
    requires SaneWorld(w) && KeptIn(w, b) && !StartsEpoch(w, l) && !IsEdit(l)
    ensures KeptIn(Next(w, l, maxAdvisoryBytes), b)
  {
    if Next(w, l, maxAdvisoryBytes).trip.Some? {
      StepCarries(w, l, maxAdvisoryBytes);
      CarriesKept(w.trip.value, Next(w, l, maxAdvisoryBytes).trip.value, b);
    }
  }

  lemma {:induction false} KeptAtFirst(w: World, b: BootRequest, room: bool)
    requires Starts(w, b, room)
    ensures KeptIn(Booted(w, b, room), b)
  {
    BootMeans(w, b, room);
  }

  // ----- attempts that can do harm -----

  /** The attempt is unfit for the start, the trip has the activities it was
      computed for, and it has the plan too or can still be given it. */
  predicate Harmful(a: Attempt, b: BootRequest) {
    && Unfit(a, b) && Matches(a.seed.state.activities, b.state.activities)
    && (b.state.plan.planId == a.seed.state.plan.planId || (a.seed.token.plannerVersion > 0 && Open(FirstOf(b))))
  }

  /** The proposal is one for the attempt's seed, as everything the planner makes of it is. */
  predicate MadeFor(p: StoredProposal, a: Attempt) {
    && p.ValidFor(a.seed.state.activities) && p.proposal.sourceEpoch == a.seed.source.epoch
    && p.proposal.sourcePlannerVersion == a.seed.source.plannerVersion && p.proposal.basePlanId == a.seed.state.plan.planId
  }

  /** The proposal would be committed on another state. */
  ghost predicate StaleNow(a: Attempt, p: StoredProposal, w: World) {
    w.trip.Some? && Commits(w.trip.value, a, p) && a.seed.state.Core() != w.trip.value.state.Core()
  }

  lemma {:induction false} StaleIsHarmful(a: Attempt, p: StoredProposal, t: Trip, b: BootRequest)
    requires Kept(t, b) && t.state.Valid() && MadeFor(p, a) && Commits(t, a, p)
    ensures Unfit(a, b) ==> Harmful(a, b)
  {
    ProposalFitsIff(p, a.seed.state.activities, t.state.activities);
    AlongsideMatches(a.seed.state.activities, b.state.activities, t.state.activities);
    assert t.state.plan.planId == a.seed.state.plan.planId;
    if a.seed.token.plannerVersion == 0 {
      assert t.state.Core().plan == t.state.plan && b.state.Core().plan == b.state.plan;
    }
  }

  /** Nothing else does harm. */
  lemma {:induction false} OnlyHarmful(w: World, b: BootRequest, room: bool, a: Attempt, p: StoredProposal, labels: seq<Label>,
                                       maxAdvisoryBytes: nat)
    requires SaneWorld(w) && Starts(w, b, room) && MadeFor(p, a)
    requires Quiet(Booted(w, b, room), labels, maxAdvisoryBytes) && NoEdits(labels)
    requires StaleNow(a, p, Follow(Booted(w, b, room), labels, maxAdvisoryBytes))
    ensures Harmful(a, b)
  {
    var begun := Booted(w, b, room);
    var after := Follow(begun, labels, maxAdvisoryBytes);
    SaneStep(w, Boot(b, room), maxAdvisoryBytes);
    KeptAtFirst(w, b, room);
    KeptThroughout(begun, labels, b, maxAdvisoryBytes);
    SaneFollow(begun, labels, maxAdvisoryBytes);
    if !Unfit(a, b) {
      FitAnswers(w, b, room, a);
      StillAnswers(begun, labels, a, maxAdvisoryBytes);
      assert false;
    }
    StaleIsHarmful(a, p, after.trip.value, b);
  }

  // ----- and every one of them can -----

  /** A plan with the attempt's plan id that is not the attempt's plan. */
  function Renamed(plan: CurrentPlan, seed: CurrentPlan): CurrentPlan {
    CurrentPlan(seed.planId, plan.revision, UserAuthored, plan.segments, if seed.createdAt == 0 then 1 else 0, None)
  }

  function Replaced(s: TripState, seed: CurrentPlan): TripState { s.(plan := Renamed(s.plan, seed), proposal := None) }

  function Replacement(s: TripState, v: Snapshot, seed: CurrentPlan): EventRequest
    requires Open(v)
  {
    EventRequest(Request(v.epoch, v.accepted + 1, 0, v.revision, None, TripEvent(0, 0, None, PlanReplaced(Renamed(s.plan, seed)))),
                 CONTEXT)
  }

  function AfterReplacement(v: Snapshot): Snapshot
    requires Open(v) && HasRoom(v, 1)
  {
    v.(plannerVersion := v.plannerVersion + 1, generation := v.generation + 1, accepted := v.accepted + 1, revision := v.revision + 1)
  }

  lemma {:induction false} ReplacementApplies(s: TripState, seed: CurrentPlan, maxAdvisoryBytes: nat)
    requires s.Valid()
    ensures var e := TripEvent(0, 0, None, PlanReplaced(Renamed(s.plan, seed)));
      Replaced(s, seed).Valid() && Verdict(s, e, maxAdvisoryBytes).Applied? && After(s, e, maxAdvisoryBytes) == Replaced(s, seed)
  {
    assert Replaced(s, seed).Valid();
  }

  lemma {:induction false} ReplacementIsAdmitted(s: TripState, v: Snapshot, seed: CurrentPlan, maxAdvisoryBytes: nat)
    requires s.Valid() && Open(v) && HasRoom(v, 1) && v.revision != 0
    ensures var c := Coordinate(s, Versions(true, v), Replacement(s, v, seed).admission, 0, maxAdvisoryBytes);
      c.0 == Replaced(s, seed) && c.0.Valid() && c.1 == Versions(true, AfterReplacement(v))
  {
    ReplacementApplies(s, seed, maxAdvisoryBytes);
  }

  lemma {:induction false} ReplacementMoves(t: Trip, s: TripState, v: Snapshot, seed: CurrentPlan, accepting: bool, maxAdvisoryBytes: nat)
    requires s.Valid() && Open(v) && HasRoom(v, 1) && v.revision != 0
    requires t.state == s && t.versions == Versions(true, v) && !t.deactivating
    ensures var h := HandleEvent(t, Replacement(s, v, seed), accepting, BUSY, maxAdvisoryBytes);
      && h.1 == [] && h.0.state == Replaced(s, seed) && h.0.state.Valid() && !h.0.deactivating
      && h.0.versions == Versions(true, AfterReplacement(v))
  {
    var r := Replacement(s, v, seed);
    ReplacementIsAdmitted(s, v, seed, maxAdvisoryBytes);
    var c := Coordinate(s, Versions(true, v), r.admission, 0, maxAdvisoryBytes);
    NothingGoesOut(t.(state := c.0, versions := c.1), c.2, r, r.admission.event.payload.PriorityFor(t.state.activities), accepting);
  }

  /** The step leads from the one world to the other. */
  ghost predicate LeadsTo(w: World, l: Label, w': World, maxAdvisoryBytes: nat) {
    forall now {:trigger Ask(now)} :: Ask(now) ==> w' == Next(w, l, maxAdvisoryBytes)
  }

  lemma {:induction false} ReplacementLeads(w: World, w': World, r: EventRequest, s: TripState, v: Snapshot, seed: CurrentPlan,
                                            place: Location, outstanding: seq<Attempt>, maxAdvisoryBytes: nat)
    requires s.Valid() && Open(v) && HasRoom(v, 1) && v.revision != 0 && r == Replacement(s, v, seed)
    requires Sighted(w, s, v, 0, place, outstanding) && w' == Next(w, Event(r, BUSY), maxAdvisoryBytes)
    ensures Sighted(w', Replaced(s, seed), AfterReplacement(v), 0, place, outstanding)
  {
    ReplacementMoves(w.trip.value, s, v, seed, w.accepting, maxAdvisoryBytes);
    assert outstanding + [] == outstanding;
  }

  lemma {:induction false} SightedIsCaughtUp(w: World, s: TripState, v: Snapshot, place: Location, outstanding: seq<Attempt>, maxAdvisoryBytes: nat)
    requires Sighted(w, s, v, 0, place, outstanding)
    ensures CaughtUp(w, s, v, 0, place, outstanding, maxAdvisoryBytes)
  {
    assert Sightings(v, 0, place) == [];
  }

  lemma {:induction false} ReplacementCatchesUp(w: World, b: BootRequest, room: bool, seed: CurrentPlan, n: nat, place: Location,
                                                maxAdvisoryBytes: nat) returns (l: Label, w': World, s: TripState, v: Snapshot)
    requires SaneWorld(w) && Starts(w, b, room) && Open(FirstOf(b)) && n < UINT64_MAX
    ensures LeadsTo(Booted(w, b, room), l, w', maxAdvisoryBytes) && l.Event? && !IsEdit(l) && HasRoom(v, n)
    ensures b.observed == 0 && s == Replaced(b.state, seed) && v == AfterReplacement(FirstOf(b))
    ensures CaughtUp(w', s, v, 0, place, w.outstanding, maxAdvisoryBytes)
  {
    var begun, first := Booted(w, b, room), FirstOf(b);
    StartIsReady(w, b, room, place, maxAdvisoryBytes);
    s, v := Replaced(b.state, seed), AfterReplacement(first);
    var r := Replacement(b.state, first, seed);
    l := Event(r, BUSY);
    w' := Next(begun, l, maxAdvisoryBytes);
    ReplacementLeads(begun, w', r, b.state, first, seed, place, w.outstanding, maxAdvisoryBytes);
    SightedIsCaughtUp(w', s, v, place, w.outstanding, maxAdvisoryBytes);
  }

  lemma {:induction false} FollowFrom(w: World, l: Label, more: seq<Label>, maxAdvisoryBytes: nat)
    requires !StartsEpoch(w, l) && Quiet(Next(w, l, maxAdvisoryBytes), more, maxAdvisoryBytes)
    ensures Follow(w, [l] + more, maxAdvisoryBytes) == Follow(Next(w, l, maxAdvisoryBytes), more, maxAdvisoryBytes)
    ensures Quiet(w, [l] + more, maxAdvisoryBytes)
  {
    var all := [l] + more;
    if more == [] {
      assert all == [l] && all[..0] == [];
    } else {
      FollowFrom(w, l, more[..|more| - 1], maxAdvisoryBytes);
      assert all[..|all| - 1] == [l] + more[..|more| - 1];
    }
  }

  /** The trip stands where the attempt's result would be committed, and is not
      what it was computed from. */
  predicate Ripe(t: Trip, a: Attempt) {
    && t.state.Valid() && t.state.proposal.None? && t.versions.CanCommit(a.seed.token)
    && t.state.plan.planId == a.seed.state.plan.planId && Matches(a.seed.state.activities, t.state.activities)
    && a.seed.state.Core() != t.state.Core()
  }

  lemma {:induction false} RipeCommits(t: Trip, a: Attempt, p: StoredProposal)
    requires Ready(a) && Ripe(t, a) && MadeFor(p, a)
    ensures Commits(t, a, p)
  {
    ProposalFitsIff(p, a.seed.state.activities, t.state.activities);
  }

  /** So many sightings later the trip is ripe. */
  ghost predicate RipeAfter(a: Attempt, s: TripState, v: Snapshot, n: nat, place: Location) {
    forall now {:trigger Ask(now)} :: Ask(now) ==> forall t | SightedTrip(t, s, v, n, place) :: Ripe(t, a)
  }

  ghost predicate RipeIn(a: Attempt, w: World, outstanding: seq<Attempt>) {
    forall now {:trigger Ask(now)} :: Ask(now) ==> w.trip.Some? && Ripe(w.trip.value, a) && w.outstanding == outstanding
  }

  lemma {:induction false} SamePlanIsRipe(b: BootRequest, a: Attempt)
    requires Ready(a) && Harmful(a, b) && b.state.plan.planId == a.seed.state.plan.planId && b.state.proposal.None?
    ensures RipeAfter(a, b.state, FirstOf(b), a.seed.token.plannerVersion, Elsewhere(a.seed.state))
  {
    var n, place := a.seed.token.plannerVersion, Elsewhere(a.seed.state);
    forall t | SightedTrip(t, b.state, FirstOf(b), n, place) ensures Ripe(t, a) {
      if n > 0 {
        NotTheSeed(a.seed.state, t.state);
      }
    }
  }

  /** The same after the plan has been replaced. */
  ghost predicate RipeAfterReplacement(a: Attempt, b: BootRequest, seed: CurrentPlan, n: nat, place: Location) {
    forall now {:trigger Ask(now)} :: Ask(now) && b.observed == 0 && Open(FirstOf(b)) ==>
      forall t | SightedTrip(t, Replaced(b.state, seed), AfterReplacement(FirstOf(b)), n, place) :: Ripe(t, a)
  }

  lemma {:induction false} ReplacementRipe(a: Attempt, b: BootRequest, seed: CurrentPlan, n: nat, place: Location, s: TripState, v: Snapshot)
    requires RipeAfterReplacement(a, b, seed, n, place) && b.observed == 0 && Open(FirstOf(b))
    requires s == Replaced(b.state, seed) && v == AfterReplacement(FirstOf(b))
    ensures RipeAfter(a, s, v, n, place)
  {
    assert Ask(true);
  }

  lemma {:induction false} OtherPlanIsRipe(b: BootRequest, a: Attempt, n: uint64)
    requires n < UINT64_MAX && b.epoch != 0 && a.seed.token == Token(b.epoch, n + 1, n + 1)
    requires Matches(a.seed.state.activities, b.state.activities)
    ensures RipeAfterReplacement(a, b, a.seed.state.plan, n, Elsewhere(a.seed.state))
  {
    if b.observed == 0 && Open(FirstOf(b)) {
      var v := AfterReplacement(FirstOf(b));
      forall t | SightedTrip(t, Replaced(b.state, a.seed.state.plan), v, n, Elsewhere(a.seed.state)) ensures Ripe(t, a) {
        ReplacedIsRipe(t, b.state, a, v, n);
      }
    }
  }

  lemma {:induction false} OtherPlanHarms(b: BootRequest, a: Attempt) returns (n: uint64)
    requires Ready(a) && Harmful(a, b) && b.state.plan.planId != a.seed.state.plan.planId
    ensures n < UINT64_MAX && Open(FirstOf(b)) && RipeAfterReplacement(a, b, a.seed.state.plan, n, Elsewhere(a.seed.state))
  {
    n := a.seed.token.plannerVersion - 1;
    OtherPlanIsRipe(b, a, n);
  }

  lemma {:induction false} ReplacedIsRipe(t: Trip, s: TripState, a: Attempt, v: Snapshot, n: nat)
    requires SightedTrip(t, Replaced(s, a.seed.state.plan), v, n, Elsewhere(a.seed.state))
    requires Matches(a.seed.state.activities, s.activities)
    requires v.epoch != 0 && a.seed.token == Token(v.epoch, v.plannerVersion + n, v.generation + n)
    ensures Ripe(t, a)
  {
    ReplacedDiffers(t, s, a.seed.state, v, n);
  }

  lemma {:induction false} ReplacedDiffers(t: Trip, s: TripState, seed: TripState, v: Snapshot, n: nat)
    requires SightedTrip(t, Replaced(s, seed.plan), v, n, Elsewhere(seed))
    ensures t.state.plan.planId == seed.plan.planId && t.state.activities == s.activities && t.state.proposal.None?
    ensures seed.Core() != t.state.Core()
  {
    if n > 0 {
      NotTheSeed(seed, t.state);
    } else {
      assert t.state.Core().plan == t.state.plan && seed.Core().plan == seed.plan;
    }
  }

  lemma {:induction false} SightingsEditNothing(v: Snapshot, n: nat, place: Location)
    requires v.observed + n <= UINT64_MAX
    ensures NoEdits(Sightings(v, n, place))
  {
    var labels := Sightings(v, n, place);
    forall i | 0 <= i < |labels| ensures !IsEdit(labels[i]) {
      assert labels[i] == Event(Sighting(v.epoch, v.observed + i + 1, place), BUSY);
    }
  }

  lemma {:induction false} SightingsRipen(w: World, s: TripState, v: Snapshot, n: nat, place: Location, outstanding: seq<Attempt>,
                                          a: Attempt, maxAdvisoryBytes: nat) returns (labels: seq<Label>)
    requires CaughtUp(w, s, v, n, place, outstanding, maxAdvisoryBytes) && RipeAfter(a, s, v, n, place)
    ensures Quiet(w, labels, maxAdvisoryBytes) && NoEdits(labels) && RipeIn(a, Follow(w, labels, maxAdvisoryBytes), outstanding)
  {
    assert Ask(true);
    labels := Sightings(v, n, place);
    SightingsEditNothing(v, n, place);
    var after := Follow(w, labels, maxAdvisoryBytes);
    assert SightedTrip(after.trip.value, s, v, n, place);
  }

  lemma {:induction false} SamePlanRipens(w: World, b: BootRequest, room: bool, a: Attempt, maxAdvisoryBytes: nat) returns (labels: seq<Label>)
    requires SaneWorld(w) && Starts(w, b, room) && Ready(a) && Harmful(a, b)
    requires b.state.plan.planId == a.seed.state.plan.planId
    ensures Quiet(Booted(w, b, room), labels, maxAdvisoryBytes) && NoEdits(labels)
    ensures RipeIn(a, Follow(Booted(w, b, room), labels, maxAdvisoryBytes), w.outstanding)
  {
    var n, place := a.seed.token.plannerVersion, Elsewhere(a.seed.state);
    StartIsCaughtUp(w, b, room, place, maxAdvisoryBytes);
    Catches(Booted(w, b, room), b.state, FirstOf(b), n, place, w.outstanding, maxAdvisoryBytes);
    SamePlanIsRipe(b, a);
    labels := SightingsRipen(Booted(w, b, room), b.state, FirstOf(b), n, place, w.outstanding, a, maxAdvisoryBytes);
  }

  lemma {:induction false} RipensAfter(w: World, l: Label, w': World, more: seq<Label>, a: Attempt, outstanding: seq<Attempt>, maxAdvisoryBytes: nat)
    requires LeadsTo(w, l, w', maxAdvisoryBytes) && l.Event? && !IsEdit(l)
    requires Quiet(w', more, maxAdvisoryBytes) && NoEdits(more) && RipeIn(a, Follow(w', more, maxAdvisoryBytes), outstanding)
    ensures Quiet(w, [l] + more, maxAdvisoryBytes) && NoEdits([l] + more)
    ensures RipeIn(a, Follow(w, [l] + more, maxAdvisoryBytes), outstanding)
  {
    assert w' == Next(w, l, maxAdvisoryBytes) by { assert Ask(true); }
    FollowFrom(w, l, more, maxAdvisoryBytes);
  }

  lemma {:induction false} StepAndSightingsRipen(w: World, l: Label, w': World, s: TripState, v: Snapshot, n: nat, place: Location,
                                                 outstanding: seq<Attempt>, a: Attempt, maxAdvisoryBytes: nat) returns (labels: seq<Label>)
    requires LeadsTo(w, l, w', maxAdvisoryBytes) && l.Event? && !IsEdit(l) && place.Valid() && HasRoom(v, n)
    requires CaughtUp(w', s, v, 0, place, outstanding, maxAdvisoryBytes) && RipeAfter(a, s, v, n, place)
    ensures Quiet(w, labels, maxAdvisoryBytes) && NoEdits(labels) && RipeIn(a, Follow(w, labels, maxAdvisoryBytes), outstanding)
  {
    Catches(w', s, v, n, place, outstanding, maxAdvisoryBytes);
    var more := SightingsRipen(w', s, v, n, place, outstanding, a, maxAdvisoryBytes);
    labels := [l] + more;
    RipensAfter(w, l, w', more, a, outstanding, maxAdvisoryBytes);
  }

  lemma {:induction false} OtherPlanRipens(w: World, b: BootRequest, room: bool, a: Attempt, seed: CurrentPlan, n: nat, place: Location,
                                           maxAdvisoryBytes: nat) returns (labels: seq<Label>)
    requires SaneWorld(w) && Starts(w, b, room) && Open(FirstOf(b)) && n < UINT64_MAX && place.Valid()
    requires RipeAfterReplacement(a, b, seed, n, place)
    ensures Quiet(Booted(w, b, room), labels, maxAdvisoryBytes) && NoEdits(labels)
    ensures RipeIn(a, Follow(Booted(w, b, room), labels, maxAdvisoryBytes), w.outstanding)
  {
    var l, w', s, v := ReplacementCatchesUp(w, b, room, seed, n, place, maxAdvisoryBytes);
    ReplacementRipe(a, b, seed, n, place, s, v);
    labels := StepAndSightingsRipen(Booted(w, b, room), l, w', s, v, n, place, w.outstanding, a, maxAdvisoryBytes);
  }

  lemma {:induction false} StartIsReady(w: World, b: BootRequest, room: bool, place: Location, maxAdvisoryBytes: nat)
    requires SaneWorld(w) && Starts(w, b, room)
    ensures Sighted(Booted(w, b, room), b.state, FirstOf(b), 0, place, w.outstanding)
    ensures b.observed == 0 && b.state.Valid() && b.revision != 0
  {
    BootMeans(w, b, room);
  }

  // ----- exactly -----

  /** A completion of the attempt with this result changes the trip, and the trip
      is not in the state the result was computed from. */
  ghost predicate CommitsStale(a: Attempt, result: Option<StoredProposal>, w: World, j: nat, load: Load, maxAdvisoryBytes: nat) {
    && w.trip.Some? && j < |w.outstanding| && w.outstanding[j] == a
    && var after := Next(w, Finish(j, result, load), maxAdvisoryBytes);
      after.trip.Some? && after.trip.value.state != w.trip.value.state && a.seed.state.Core() != w.trip.value.state.Core()
  }

  /** In some continuation without another start and without an edit it does. */
  ghost predicate CanCommitStale(a: Attempt, result: Option<StoredProposal>, w: World, maxAdvisoryBytes: nat) {
    exists labels, j, load :: Quiet(w, labels, maxAdvisoryBytes) && NoEdits(labels)
      && CommitsStale(a, result, Follow(w, labels, maxAdvisoryBytes), j, load, maxAdvisoryBytes)
  }

  lemma {:induction false} CommitIsStale(a: Attempt, result: Option<StoredProposal>, w: World, j: nat, load: Load, maxAdvisoryBytes: nat)
    requires CommitsStale(a, result, w, j, load, maxAdvisoryBytes)
    ensures result.Some? && StaleNow(a, result.value, w)
  {
    FinishOutcome(w, j, result, load, maxAdvisoryBytes);
  }

  lemma {:induction false} RipeCommitsStale(a: Attempt, p: StoredProposal, w: World, j: nat, load: Load, maxAdvisoryBytes: nat)
    requires w.trip.Some? && j < |w.outstanding| && w.outstanding[j] == a
    requires Commits(w.trip.value, a, p) && w.trip.value.state.proposal.None? && a.seed.state.Core() != w.trip.value.state.Core()
    ensures CommitsStale(a, Some(p), w, j, load, maxAdvisoryBytes)
  {
    FinishOutcome(w, j, Some(p), load, maxAdvisoryBytes);
    assert w.trip.value.state.(proposal := Some(p)).proposal.Some?;
  }

  lemma {:induction false} HarmfulRipens(w: World, b: BootRequest, room: bool, a: Attempt, maxAdvisoryBytes: nat) returns (labels: seq<Label>)
    requires SaneWorld(w) && Starts(w, b, room) && Ready(a) && Harmful(a, b)
    ensures Quiet(Booted(w, b, room), labels, maxAdvisoryBytes) && NoEdits(labels)
    ensures RipeIn(a, Follow(Booted(w, b, room), labels, maxAdvisoryBytes), w.outstanding)
  {
    if b.state.plan.planId == a.seed.state.plan.planId {
      labels := SamePlanRipens(w, b, room, a, maxAdvisoryBytes);
    } else {
      var n := OtherPlanHarms(b, a);
      labels := OtherPlanRipens(w, b, room, a, a.seed.state.plan, n, Elsewhere(a.seed.state), maxAdvisoryBytes);
    }
  }

  lemma {:induction false} RipeInCommits(w: World, k: nat, a: Attempt, p: StoredProposal, outstanding: seq<Attempt>, maxAdvisoryBytes: nat)
    requires RipeIn(a, w, outstanding) && k < |outstanding| && outstanding[k] == a && Ready(a) && MadeFor(p, a)
    ensures CommitsStale(a, Some(p), w, k, BUSY, maxAdvisoryBytes)
  {
    assert Ask(true);
    RipeCommits(w.trip.value, a, p);
    RipeCommitsStale(a, p, w, k, BUSY, maxAdvisoryBytes);
  }

  lemma {:induction false} HarmfulCommits(w: World, b: BootRequest, room: bool, k: nat, a: Attempt, p: StoredProposal, maxAdvisoryBytes: nat)
    requires SaneWorld(w) && Starts(w, b, room) && k < |w.outstanding| && w.outstanding[k] == a
    requires Ready(a) && Harmful(a, b) && MadeFor(p, a)
    ensures CanCommitStale(a, Some(p), Booted(w, b, room), maxAdvisoryBytes)
  {
    var labels := HarmfulRipens(w, b, room, a, maxAdvisoryBytes);
    RipeInCommits(Follow(Booted(w, b, room), labels, maxAdvisoryBytes), k, a, p, w.outstanding, maxAdvisoryBytes);
  }

  lemma {:induction false} HarmIsNeeded(w: World, b: BootRequest, room: bool, a: Attempt, result: Option<StoredProposal>, maxAdvisoryBytes: nat)
    requires SaneWorld(w) && Starts(w, b, room) && (result.Some? ==> MadeFor(result.value, a))
    requires CanCommitStale(a, result, Booted(w, b, room), maxAdvisoryBytes)
    ensures result.Some? && Harmful(a, b)
  {
    var begun := Booted(w, b, room);
    var labels, j, load :| Quiet(begun, labels, maxAdvisoryBytes) && NoEdits(labels)
      && CommitsStale(a, result, Follow(begun, labels, maxAdvisoryBytes), j, load, maxAdvisoryBytes);
    CommitIsStale(a, result, Follow(begun, labels, maxAdvisoryBytes), j, load, maxAdvisoryBytes);
    OnlyHarmful(w, b, room, a, result.value, labels, maxAdvisoryBytes);
  }

  /** After any run and any start, what the planner makes of an attempt still out
      can be committed on a state it was not computed from if and only if it makes
      something of it and the attempt is harmful to the start. */
  lemma {:induction false} CommitsStaleIff(run: seq<Label>, b: BootRequest, room: bool, k: nat, x: PlanningPipeline.Surroundings,
                                           maxAdvisoryBytes: nat)
    requires Starts(Reach(run, maxAdvisoryBytes), b, room) && k < |Reach(run, maxAdvisoryBytes).outstanding|
    ensures var w := Reach(run, maxAdvisoryBytes);
      var result := PlanningPipeline.Planned(w.outstanding[k], x);
      CanCommitStale(w.outstanding[k], result, Booted(w, b, room), maxAdvisoryBytes) <==> result.Some? && Harmful(w.outstanding[k], b)
  {
    var w := Reach(run, maxAdvisoryBytes);
    var a := w.outstanding[k];
    var result := PlanningPipeline.Planned(a, x);
    OffersAreCurrent(run, maxAdvisoryBytes);
    AttemptsAreReady(run, k, maxAdvisoryBytes);
    if result.Some? {
      PlanningPipeline.PlannedNames(a, x);
    }
    if result.Some? && Harmful(a, b) {
      HarmfulCommits(w, b, room, k, a, result.value, maxAdvisoryBytes);
    }
    if CanCommitStale(a, result, Booted(w, b, room), maxAdvisoryBytes) {
      HarmIsNeeded(w, b, room, a, result, maxAdvisoryBytes);
    }
  }
}

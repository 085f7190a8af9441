/** Exactly which events apply to a valid state, said of the state and the event. */
module EventVerdicts {
  import opened Domain
  import opened TripEvents
  import opened TripStates
  import opened TripStateTheorems
  import opened EventEffects

  // ----- status changes -----

  /** An activity may be planned again unless the plan is past it, and started or
      finished when it is the plan's next. */
  ghost predicate InTurn(s: TripState, id: Id, newState: ActivityState) {
    exists k | 0 <= k < |s.plan.segments| ::
      s.plan.segments[k].id == id && if newState.Planned? then s.prefix <= k else k == s.prefix
  }

  lemma {:induction false} PlannedIsOwn(s: TripState, k: nat)
    requires s.Valid() && k < |s.plan.segments|
    ensures Has(s.activities, s.plan.segments[k].id) && SegmentIndex(s.plan.segments, s.plan.segments[k].id) == Some(k)
  {
    assert SegmentFits(s.activities, s.plan.segments[k].id, k, s.prefix);
    DistinctPositions(s.plan.segments);
  }

  lemma {:induction false} MayEnterIff(s: TripState, id: Id, newState: ActivityState)
    requires s.Valid()
    ensures MayEnter(s, id, newState) <==> InTurn(s, id, newState)
  {
    if MayEnter(s, id, newState) {
      var k := SegmentIndex(s.plan.segments, id).value;
      assert s.plan.segments[k].id == id;
    }
    if InTurn(s, id, newState) {
      var k :| 0 <= k < |s.plan.segments| && s.plan.segments[k].id == id
               && if newState.Planned? then s.prefix <= k else k == s.prefix;
      PlannedIsOwn(s, k);
      UnderWayIsCurrent(s, id, k);
    }
  }

  lemma {:induction false} StatusApplies(s: TripState, e: TripEvent, maxAdvisoryBytes: nat)
    requires s.Valid() && e.payload.StatusChanged?
    ensures Verdict(s, e, maxAdvisoryBytes).Applied? <==> InTurn(s, e.payload.id, e.payload.newState)
  {
    MayEnterIff(s, e.payload.id, e.payload.newState);
    if Has(s.activities, e.payload.id) {
      EventApplies(s, e, maxAdvisoryBytes);
    }
  }

  // ----- a new plan for the same activities -----

  /** The finished activities are still in front, and the one under way comes next. */
  ghost predicate KeepsFront(s: TripState, plan: CurrentPlan) {
    && (forall i | 0 <= i < s.prefix && i < |plan.segments| :: Finished(s, plan.segments[i].id))
    && (s.current.Some? ==> s.prefix < |plan.segments| && plan.segments[s.prefix].id == s.current.value)
  }

  ghost predicate Finished(s: TripState, id: Id) { exists k | 0 <= k < s.prefix && k < |s.plan.segments| :: s.plan.segments[k].id == id }

  lemma {:induction false} FinishedIff(s: TripState, id: Id)
    requires s.Valid() && Has(s.activities, id)
    ensures Finished(s, id) <==> Terminal(StateOf(s.activities, id).value)
    ensures StateOf(s.activities, id) == Some(Started) <==> s.current == Some(id)
  {
    HasIffListed(s.activities, id);
    var ids := SegmentIds(s.plan.segments);
    assert id in multiset(ActivityIds(s.activities));
    assert id in ids;
    var k :| 0 <= k < |ids| && ids[k] == id;
    assert SegmentFits(s.activities, s.plan.segments[k].id, k, s.prefix);
    forall j | 0 <= j < |ids| && s.plan.segments[j].id == id ensures j == k {
      assert ids[j] == ids[k];
    }
  }

  /** As many finished activities as the prefix in front means all of them. */
  lemma {:induction false} FrontIsAll(s: TripState, plan: CurrentPlan, i: nat)
    requires s.Valid() && plan.ValidFor(ActivityIds(s.activities)) && KeepsFront(s, plan)
    requires s.prefix <= i < |plan.segments|
    ensures !Finished(s, plan.segments[i].id)
  {
    var n := s.prefix;
    var was, now := SegmentIds(s.plan.segments)[..n], SegmentIds(plan.segments);
    forall j | 0 <= j < n ensures now[j] in was {
      assert Finished(s, plan.segments[j].id);
      var k :| 0 <= k < n && s.plan.segments[k].id == now[j];
      assert was[k] == now[j];
    }
    FrontFills(was, now, n, i);
    forall k | 0 <= k < n ensures s.plan.segments[k].id != plan.segments[i].id {
      assert was[k] in was;
    }
  }

  /** A front of different ids that are all among as many others is all of them. */
  lemma {:induction false} FrontFills(was: seq<Id>, now: seq<Id>, n: nat, i: nat)
    requires Distinct(was) && Distinct(now) && |was| == n <= i < |now| && forall j | 0 <= j < n :: now[j] in was
    ensures now[i] !in was
  {
    DistinctSize(was);
    DistinctSize(now[..n]);
    var wasSet, nowSet := set x | x in was, set x | x in now[..n];
    SameSize(nowSet, wasSet);
    assert forall j | 0 <= j < n :: now[..n][j] != now[i];
    assert now[i] !in nowSet;
  }

  lemma {:induction false} SameSize(a: set<Id>, b: set<Id>)
    requires a <= b && |a| == |b|
    ensures a == b
  {
    assert b == a + (b - a);
  }

  lemma {:induction false} NewPlanIsOwn(s: TripState, plan: CurrentPlan)
    requires s.Valid() && plan.ValidFor(ActivityIds(s.activities))
    ensures forall i | 0 <= i < |plan.segments| :: Has(s.activities, plan.segments[i].id)
  {
    forall i | 0 <= i < |plan.segments| ensures Has(s.activities, plan.segments[i].id) {
      assert SegmentIds(plan.segments)[i] in multiset(SegmentIds(plan.segments));
      HasIffListed(s.activities, plan.segments[i].id);
    }
  }

  lemma {:induction false} CurrentIsAlone(s: TripState, plan: CurrentPlan, i: nat)
    requires KeepsFront(s, plan) && Distinct(SegmentIds(plan.segments)) && s.prefix <= i < |plan.segments|
    requires s.current == Some(plan.segments[i].id)
    ensures i == s.prefix
  {
    assert SegmentIds(plan.segments)[i] == SegmentIds(plan.segments)[s.prefix];
  }

  lemma {:induction false} SegmentStillFits(s: TripState, plan: CurrentPlan, i: nat)
    requires s.Valid() && plan.ValidFor(ActivityIds(s.activities)) && KeepsFront(s, plan)
    requires i < |plan.segments| && Has(s.activities, plan.segments[i].id)
    ensures SegmentFits(s.activities, plan.segments[i].id, i, s.prefix)
  {
    FinishedIff(s, plan.segments[i].id);
    if i < s.prefix {
      assert Finished(s, plan.segments[i].id);
    } else {
      FrontIsAll(s, plan, i);
      if s.current == Some(plan.segments[i].id) {
        CurrentIsAlone(s, plan, i);
      }
    }
  }

  lemma {:induction false} UnderWayStays(s: TripState, plan: CurrentPlan)
    requires s.Valid() && plan.ValidFor(ActivityIds(s.activities)) && KeepsFront(s, plan)
    requires forall i | 0 <= i < |plan.segments| :: Has(s.activities, plan.segments[i].id)
    ensures s.current == UnderWay(s.activities, plan, s.prefix)
  {
    if s.prefix < |plan.segments| {
      FinishedIff(s, plan.segments[s.prefix].id);
    }
  }

  lemma {:induction false} FrontWasKept(s: TripState, plan: CurrentPlan)
    requires s.Valid() && plan.ValidFor(ActivityIds(s.activities)) && InProgress(s.activities, plan, s.prefix, s.current)
    ensures KeepsFront(s, plan)
  {
    NewPlanIsOwn(s, plan);
    forall i | 0 <= i < s.prefix && i < |plan.segments| ensures Finished(s, plan.segments[i].id) {
      assert SegmentFits(s.activities, plan.segments[i].id, i, s.prefix);
      FinishedIff(s, plan.segments[i].id);
    }
  }

  lemma {:induction false} NewPlanFits(s: TripState, plan: CurrentPlan)
    requires s.Valid() && plan.ValidFor(ActivityIds(s.activities))
    ensures InProgress(s.activities, plan, s.prefix, s.current) <==> KeepsFront(s, plan)
  {
    if KeepsFront(s, plan) {
      NewPlanIsOwn(s, plan);
      forall i | 0 <= i < |plan.segments| ensures SegmentFits(s.activities, plan.segments[i].id, i, s.prefix) {
        SegmentStillFits(s, plan, i);
      }
      UnderWayStays(s, plan);
    }
    if InProgress(s.activities, plan, s.prefix, s.current) {
      FrontWasKept(s, plan);
    }
  }

  /** The new plan an event brings without touching the activities. */
  ghost predicate BringsPlan(p: Payload, plan: CurrentPlan) {
    p == PlanReplaced(plan) || (p.PlanDecision? && p.accept && p.resulting == Some(plan))
  }

  lemma {:induction false} NewPlanApplies(s: TripState, e: TripEvent, plan: CurrentPlan, maxAdvisoryBytes: nat)
    requires s.Valid() && e.payload.ValidFor(s.activities, maxAdvisoryBytes) && !DecidesStale(s, e) && BringsPlan(e.payload, plan)
    ensures Verdict(s, e, maxAdvisoryBytes).Applied? <==> KeepsFront(s, plan)
  {
    EventApplies(s, e, maxAdvisoryBytes);
    NewPlanFits(s, plan);
  }

  // ----- edits -----

  /** The trip an edit describes. */
  ghost predicate Describes(s: TripState, t: TripState, operation: EditOperation, plan: CurrentPlan) {
    EditsTrip(s, t, operation, plan) && t.Valid() && SegmentIds(plan.segments) == ActivityIds(t.activities)
  }

  lemma {:induction false} InsertIsNew(s: TripState, t: TripState, a: Activity, at: nat)
    requires Inserts(s.activities, t.activities, a, at) && OwnActivities(t.activities)
    ensures a.Valid() && |s.activities| < 64 && !Has(s.activities, a.id)
  {
    var ids := ActivityIds(t.activities);
    assert t.activities[at].Valid();
    forall i | 0 <= i < |s.activities| ensures s.activities[i].id != a.id {
      var j := if i < at then i else i + 1;
      assert t.activities[j] == s.activities[i];
      assert ids[j] != ids[at];
    }
  }

  lemma {:induction false} ReorderIsPermutation(s: TripState, t: TripState, ids: seq<Id>)
    requires Reorders(s.activities, t.activities, ids) && OwnActivities(s.activities) && OwnActivities(t.activities)
    ensures Distinct(ids) && multiset(ids) == multiset(ActivityIds(s.activities))
  {
    var own := ActivityIds(s.activities);
    assert ActivityIds(t.activities) == ids;
    DistinctSize(ids);
    DistinctSize(own);
    var idSet, ownSet := set x | x in ids, set x | x in own;
    forall x | x in idSet ensures x in ownSet {
      var k :| 0 <= k < |ids| && ids[k] == x;
      var j :| 0 <= j < |s.activities| && s.activities[j] == t.activities[k];
      assert own[j] == x;
    }
    SameSize(idSet, ownSet);
    forall x ensures x in ids <==> x in own {
      assert x in idSet <==> x in ownSet;
    }
    DistinctPermutation(ids, own);
  }

  lemma {:induction false} DescribedIsPossible(s: TripState, t: TripState, operation: EditOperation)
    requires s.Valid() && Edits(s, t, operation) && OwnActivities(t.activities)
    ensures EditedIds(s.activities, operation).Some?
  {
    match operation {
      case AddActivity(a, at) => InsertIsNew(s, t, a, at);
      case ReplaceActivity(a) =>
        var i :| 0 <= i < |s.activities| && s.activities[i].id == a.id;
        assert t.activities[i].Valid();
      case RemoveActivity(id) =>
      case ReorderActivities(ids) => ReorderIsPermutation(s, t, ids);
    }
  }

  lemma {:induction false} SameRemoval(a: seq<Activity>, t: seq<Activity>, u: seq<Activity>, id: Id)
    requires Distinct(ActivityIds(a)) && Removes(a, t, id) && Removes(a, u, id)
    ensures t == u
  {
    var ids := ActivityIds(a);
    var i: nat :| RemovesAt(a, t, i) && a[i].id == id;
    var j: nat :| RemovesAt(a, u, j) && a[j].id == id;
    assert ids[i] == ids[j];
  }

  lemma {:induction false} SameReordering(a: seq<Activity>, t: seq<Activity>, u: seq<Activity>, order: seq<Id>)
    requires Distinct(ActivityIds(a)) && Reorders(a, t, order) && Reorders(a, u, order)
    ensures t == u
  {
    var ids := ActivityIds(a);
    forall k | 0 <= k < |order| ensures t[k] == u[k] {
      var i :| 0 <= i < |a| && a[i] == t[k];
      var j :| 0 <= j < |a| && a[j] == u[k];
      assert ids[i] == ids[j];
    }
  }

  lemma {:induction false} SameEdit(s: TripState, t: TripState, u: TripState, operation: EditOperation)
    requires Distinct(ActivityIds(s.activities)) && Edits(s, t, operation) && Edits(s, u, operation)
    ensures t.activities == u.activities
  {
    match operation {
      case AddActivity(a, at) =>
      case ReplaceActivity(a) =>
      case RemoveActivity(id) => SameRemoval(s.activities, t.activities, u.activities, id);
      case ReorderActivities(ids) => SameReordering(s.activities, t.activities, u.activities, ids);
    }
  }

  lemma {:induction false} DescribedIsValid(s: TripState, t: TripState, operation: EditOperation, plan: CurrentPlan)
    requires s.Valid() && plan.origin.UserAuthored? && Describes(s, t, operation, plan)
    ensures ValidEdit(s.activities, operation, plan) && t.activities == Edited(s, operation).activities
  {
    DescribedIsPossible(s, t, operation);
    EditIs(s, operation);
    SameEdit(s, t, Edited(s, operation), operation);
    EditedIdsAreTheIds(s, operation);
  }

  lemma {:induction false} SameProgress(s: TripState, t: TripState, u: TripState, operation: EditOperation, plan: CurrentPlan)
    requires EditsTrip(s, t, operation, plan) && EditsTrip(s, u, operation, plan) && t.activities == u.activities
    ensures t.prefix == u.prefix && t.current == u.current && t.plan == u.plan
  {
  }

  lemma {:induction false} DescribedFits(s: TripState, t: TripState, operation: EditOperation, plan: CurrentPlan)
    requires s.Valid() && ValidEdit(s.activities, operation, plan)
    requires Describes(s, t, operation, plan) && t.activities == Edited(s, operation).activities
    ensures Normalized(Edited(s, operation).(plan := plan)).Core().Valid()
  {
    var u := Normalized(Edited(s, operation).(plan := plan)).Core();
    EditIs(s, operation);
    EditKeepsTheRest(s, operation);
    EditIsNormalized(s, Edited(s, operation), operation, plan);
    SameProgress(s, t, u, operation, plan);
    EditKeeps(s, operation, plan);
  }

  lemma {:induction false} EditVerdict(s: TripState, e: TripEvent, maxAdvisoryBytes: nat)
    requires s.Valid() && e.payload.TripEdited? && ValidEdit(s.activities, e.payload.operation, e.payload.plan)
    requires Normalized(Edited(s, e.payload.operation).(plan := e.payload.plan)).Core().Valid()
    ensures Verdict(s, e, maxAdvisoryBytes).Applied?
  {
  }

  lemma {:induction false} DescribedApplies(s: TripState, t: TripState, e: TripEvent, maxAdvisoryBytes: nat)
    requires s.Valid() && e.payload.TripEdited? && e.payload.plan.origin.UserAuthored?
    requires Describes(s, t, e.payload.operation, e.payload.plan)
    ensures Verdict(s, e, maxAdvisoryBytes).Applied?
  {
    DescribedIsValid(s, t, e.payload.operation, e.payload.plan);
    DescribedFits(s, t, e.payload.operation, e.payload.plan);
    EditVerdict(s, e, maxAdvisoryBytes);
  }

  lemma {:induction false} AppliedIsDescribed(s: TripState, e: TripEvent, maxAdvisoryBytes: nat)
    requires e.payload.TripEdited? && Verdict(s, e, maxAdvisoryBytes).Applied?
    ensures e.payload.plan.origin.UserAuthored? && Describes(s, Candidate(s, e), e.payload.operation, e.payload.plan)
  {
    TripIsEdited(s, e);
    EditedIdsAreTheIds(s, e.payload.operation);
  }

  /** An edit applies exactly when the trip it describes is a valid one, with a
      plan of the user's own that lists the activities in their order. */
  lemma {:induction false} EditApplies(s: TripState, e: TripEvent, maxAdvisoryBytes: nat)
    requires s.Valid() && e.payload.TripEdited?
    ensures Verdict(s, e, maxAdvisoryBytes).Applied?
      <==> e.payload.plan.origin.UserAuthored? && exists t :: Describes(s, t, e.payload.operation, e.payload.plan)
  {
    if Verdict(s, e, maxAdvisoryBytes).Applied? {
      AppliedIsDescribed(s, e, maxAdvisoryBytes);
    }
    if e.payload.plan.origin.UserAuthored? && exists t :: Describes(s, t, e.payload.operation, e.payload.plan) {
      var t :| Describes(s, t, e.payload.operation, e.payload.plan);
      DescribedApplies(s, t, e, maxAdvisoryBytes);
    }
  }

  // ----- all events -----

  ghost predicate Owns(s: TripState, id: Id) { exists a | a in s.activities :: a.id == id }

  ghost predicate OnEarth(l: Location) { -90.0 <= l.latitude <= 90.0 && -180.0 <= l.longitude <= 180.0 }

  ghost predicate InTimeOrder(windows: seq<Window>) {
    && (forall i | 0 <= i < |windows| :: windows[i].opens < windows[i].closes)
    && (forall i, j | 0 <= i < j < |windows| :: windows[i].closes <= windows[j].opens)
  }

  /** The decision is about the very proposal on offer. */
  ghost predicate DecidesOffer(s: TripState, p: Payload)
    requires p.PlanDecision?
  {
    && s.proposal.Some?
    && s.proposal.value.proposal.proposalId == p.proposalId && s.proposal.value.proposal.sourceEpoch == p.sourceEpoch
    && s.proposal.value.proposal.sourcePlannerVersion == p.sourcePlannerVersion
    && s.proposal.value.proposal.basePlanId == p.basePlanId
  }

  /** An accepted proposal becomes the plan, a rejected one brings none. */
  ghost predicate DecidesWell(s: TripState, p: Payload)
    requires p.PlanDecision?
  {
    && p.sourceEpoch != 0
    && if p.accept then
         && p.resulting.Some? && p.resulting.value.origin.AcceptedEngineProposal?
         && p.resulting.value.sourceProposalId == Some(p.proposalId) && p.resulting.value.ValidFor(ActivityIds(s.activities))
       else p.resulting.None?
  }

  ghost predicate MayApply(s: TripState, e: TripEvent, maxAdvisoryBytes: nat) {
    match e.payload
    case NoPayload => false
    case LocationUpdated(location) => OnEarth(location)
    case RouteDeviation(location, _) => OnEarth(location)
    case VelocityUpdated(speed) => speed >= 0.0
    case HeadingUpdated(degrees) => 0.0 <= degrees <= 360.0
    case StatusChanged(id, newState) => InTurn(s, id, newState)
    case ActivityDelayed(id, _) => Owns(s, id)
    case ReservationChanged(id, _, _) => Owns(s, id)
    case DeadlineChanged(id, _) => Owns(s, id)
    case HoursChanged(id, windows) => Owns(s, id) && InTimeOrder(windows)
    case FoundClosed(id, _) => Owns(s, id)
    case TravelDelay(from, to, _) => Owns(s, from) && Owns(s, to)
    case TripEdited(operation, plan) => plan.origin.UserAuthored? && exists t :: Describes(s, t, operation, plan)
    case PlanReplaced(plan) => plan.origin.UserAuthored? && plan.ValidFor(ActivityIds(s.activities)) && KeepsFront(s, plan)
    case PlanDecision(accept, _, _, _, _, resulting) =>
      DecidesOffer(s, e.payload) && DecidesWell(s, e.payload) && (accept ==> KeepsFront(s, resulting.value))
    case Advisory(_, source, payload) => source != "" && |payload| <= maxAdvisoryBytes
  }

  lemma {:induction false} OwnsIff(s: TripState, id: Id)
    ensures Owns(s, id) <==> Has(s.activities, id)
  {
    var at := ActivityIndex(s.activities, id);
    if at.Some? { assert s.activities[at.value] in s.activities; }
  }

  lemma {:induction false} WindowsIff(windows: seq<Window>)
    ensures NormalizedWindows(windows) <==> InTimeOrder(windows)
  {
    if InTimeOrder(windows) {
      forall i | 0 < i < |windows| ensures windows[i - 1].closes <= windows[i].opens {}
    }
    if NormalizedWindows(windows) {
      forall i, j | 0 <= i < j < |windows| ensures windows[i].closes <= windows[j].opens {
        LaterOpensLater(windows, i, j);
      }
    }
  }

  lemma {:induction false} LaterOpensLater(windows: seq<Window>, i: nat, j: nat)
    requires NormalizedWindows(windows) && i < j < |windows|
    ensures windows[i].closes <= windows[j].opens
  {
    if i + 1 < j {
      LaterOpensLater(windows, i, j - 1);
      assert windows[j - 1].opens < windows[j - 1].closes;
    }
  }

  lemma {:induction false} ReplacementApplies(s: TripState, e: TripEvent, maxAdvisoryBytes: nat)
    requires s.Valid() && e.payload.PlanReplaced?
    ensures Verdict(s, e, maxAdvisoryBytes).Applied? <==> MayApply(s, e, maxAdvisoryBytes)
  {
    if e.payload.ValidFor(s.activities, maxAdvisoryBytes) {
      NewPlanApplies(s, e, e.payload.plan, maxAdvisoryBytes);
    }
  }

  lemma {:induction false} DecisionIsStale(s: TripState, e: TripEvent, maxAdvisoryBytes: nat)
    requires s.Valid() && e.payload.PlanDecision?
    ensures e.payload.ValidFor(s.activities, maxAdvisoryBytes) <==> DecidesWell(s, e.payload)
    ensures DecidesStale(s, e) <==> !DecidesOffer(s, e.payload)
  {
  }

  lemma {:induction false} DecisionFits(s: TripState, e: TripEvent, maxAdvisoryBytes: nat)
    requires s.Valid() && e.payload.PlanDecision? && DecidesWell(s, e.payload) && DecidesOffer(s, e.payload)
    ensures Verdict(s, e, maxAdvisoryBytes).Applied? <==> (e.payload.accept ==> KeepsFront(s, e.payload.resulting.value))
    ensures !Verdict(s, e, maxAdvisoryBytes).StaleProposal?
  {
    DecisionIsStale(s, e, maxAdvisoryBytes);
    if e.payload.accept {
      NewPlanApplies(s, e, e.payload.resulting.value, maxAdvisoryBytes);
    } else {
      EventApplies(s, e, maxAdvisoryBytes);
    }
  }

  lemma {:induction false} DecisionApplies(s: TripState, e: TripEvent, maxAdvisoryBytes: nat)
    requires s.Valid() && e.payload.PlanDecision?
    ensures Verdict(s, e, maxAdvisoryBytes).Applied? <==> MayApply(s, e, maxAdvisoryBytes)
    ensures Verdict(s, e, maxAdvisoryBytes).StaleProposal? <==> DecidesWell(s, e.payload) && !DecidesOffer(s, e.payload)
  {
    DecisionIsStale(s, e, maxAdvisoryBytes);
    if DecidesWell(s, e.payload) && DecidesOffer(s, e.payload) {
      DecisionFits(s, e, maxAdvisoryBytes);
    }
  }

  lemma {:induction false} ChangeApplies(s: TripState, e: TripEvent, maxAdvisoryBytes: nat)
    requires s.Valid() && (IsQuiet(e.payload) || e.payload.TravelDelay?)
    ensures Verdict(s, e, maxAdvisoryBytes).Applied? <==> MayApply(s, e, maxAdvisoryBytes)
  {
    if e.payload.TravelDelay? {
      OwnsIff(s, e.payload.from);
      OwnsIff(s, e.payload.to);
    } else {
      OwnsIff(s, e.payload.id);
      if e.payload.HoursChanged? { WindowsIff(e.payload.windows); }
    }
    if e.payload.ValidFor(s.activities, maxAdvisoryBytes) {
      EventApplies(s, e, maxAdvisoryBytes);
    }
  }

  lemma {:induction false} ReportApplies(s: TripState, e: TripEvent, maxAdvisoryBytes: nat)
    requires s.Valid() && (e.payload.OrdinaryObservation() || e.payload.RouteDeviation? || e.payload.Advisory? || e.payload.NoPayload?)
    ensures Verdict(s, e, maxAdvisoryBytes).Applied? <==> MayApply(s, e, maxAdvisoryBytes)
  {
    if e.payload.ValidFor(s.activities, maxAdvisoryBytes) {
      EventApplies(s, e, maxAdvisoryBytes);
    }
  }

  /** Exactly which events apply to a valid state. */
  lemma {:induction false} AppliesIff(s: TripState, e: TripEvent, maxAdvisoryBytes: nat)
    requires s.Valid()
    ensures Verdict(s, e, maxAdvisoryBytes).Applied? <==> MayApply(s, e, maxAdvisoryBytes)
    ensures Verdict(s, e, maxAdvisoryBytes).StaleProposal? <==>
      e.payload.PlanDecision? && DecidesWell(s, e.payload) && !DecidesOffer(s, e.payload)
  {
    match e.payload {
      case StatusChanged(_, _) => StatusApplies(s, e, maxAdvisoryBytes);
      case TripEdited(_, _) => EditApplies(s, e, maxAdvisoryBytes);
      case PlanReplaced(_) => ReplacementApplies(s, e, maxAdvisoryBytes);
      case PlanDecision(_, _, _, _, _, _) => DecisionApplies(s, e, maxAdvisoryBytes);
      case LocationUpdated(_) => ReportApplies(s, e, maxAdvisoryBytes);
      case VelocityUpdated(_) => ReportApplies(s, e, maxAdvisoryBytes);
      case HeadingUpdated(_) => ReportApplies(s, e, maxAdvisoryBytes);
      case RouteDeviation(_, _) => ReportApplies(s, e, maxAdvisoryBytes);
      case Advisory(_, _, _) => ReportApplies(s, e, maxAdvisoryBytes);
      case NoPayload => ReportApplies(s, e, maxAdvisoryBytes);
      case _ => ChangeApplies(s, e, maxAdvisoryBytes);
    }
  }
}

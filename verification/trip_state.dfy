/** One trip's state and the effect of an event on it. */
module TripStates {
  import opened Domain
  import opened Proposals
  import opened TripEvents

  datatype Observation = Observation(
    location: Option<Location>, observedAt: Option<int64>, velocity: Option<real>, heading: Option<real>)
  {
    predicate Valid() {
      && (location.Some? ==> location.value.Valid())
      && (velocity.Some? ==> velocity.value >= 0.0)
      && (heading.Some? ==> 0.0 <= heading.value <= 360.0)
    }

    predicate Present() { location.Some? || observedAt.Some? || velocity.Some? || heading.Some? }
  }

  datatype Delay = Delay(from: Id, to: Id, seconds: uint32, observedAt: int64)

  datatype TripState = TripState(
    tripId: Id,
    timeZone: string,
    activities: seq<Activity>,
    prefix: nat,                // finished activities, from the front of the plan
    current: Option<Id>,
    plan: CurrentPlan,
    delays: seq<Delay>,
    observation: Observation,
    proposal: Option<StoredProposal>)
  {
    predicate Valid() {
      && timeZone != "" && OwnActivities(activities)
      && plan.ValidFor(ActivityIds(activities))
      && InProgress(activities, plan, prefix, current)
      && observation.Valid()
      && ValidDelays(activities, delays)
      && (proposal.Some? ==>
            proposal.value.ValidFor(activities) && proposal.value.proposal.basePlanId == plan.planId)
    }

    /** Everything the planner reads: the proposal on offer is not part of it. */
    function Core(): TripState { this.(proposal := None) }
  }

  function StateOf(activities: seq<Activity>, id: Id): Option<ActivityState> {
    var index := ActivityIndex(activities, id);
    if index.Some? then Some(activities[index.value].state) else None
  }

  /** Exactly the first `prefix` segments are finished, only the next one may
      be under way, and the current activity is the one under way. */
  predicate InProgress(activities: seq<Activity>, plan: CurrentPlan, prefix: nat, current: Option<Id>) {
    && prefix <= |activities|
    && (forall i | 0 <= i < |plan.segments| :: SegmentFits(activities, plan.segments[i].id, i, prefix))
    && current == UnderWay(activities, plan, prefix)
  }

  predicate SegmentFits(activities: seq<Activity>, id: Id, i: nat, prefix: nat) {
    var state := StateOf(activities, id);
    state.Some? && (Terminal(state.value) <==> i < prefix) && (state.value.Started? ==> i == prefix)
  }

  function UnderWay(activities: seq<Activity>, plan: CurrentPlan, prefix: nat): Option<Id> {
    if prefix < |plan.segments| && StateOf(activities, plan.segments[prefix].id) == Some(Started)
    then Some(plan.segments[prefix].id) else None
  }

  predicate ValidDelays(activities: seq<Activity>, delays: seq<Delay>) {
    (forall d | d in delays :: BetweenOwn(activities, d)) && DistinctKeys(delays)
  }

  predicate BetweenOwn(activities: seq<Activity>, d: Delay) { Has(activities, d.from) && Has(activities, d.to) }

  predicate DistinctKeys(delays: seq<Delay>) {
    forall i, j | 0 <= i < j < |delays| :: !SameKey(delays[i], delays[j])
  }

  predicate SameKey(a: Delay, b: Delay) { a.from == b.from && a.to == b.to }

  function SegmentIndex(segments: seq<Segment>, id: Id): (r: Option<nat>)
    ensures r.Some? ==> r.value < |segments| && segments[r.value].id == id
    ensures r.None? ==> forall k | 0 <= k < |segments| :: segments[k].id != id
  {
    if segments == [] then None
    else if segments[|segments| - 1].id == id && SegmentIndex(segments[..|segments| - 1], id).None? then Some(|segments| - 1)
    else SegmentIndex(segments[..|segments| - 1], id)
  }

  // ----- the effect of each event -----

  function WithActivity(s: TripState, id: Id, change: Activity -> Activity): TripState {
    var index := ActivityIndex(s.activities, id);
    if index.None? then s
    else s.(activities := s.activities[index.value := change(s.activities[index.value])])
  }

  /** Whether the activity may enter the state now. */
  predicate MayEnter(s: TripState, id: Id, newState: ActivityState) {
    var position := SegmentIndex(s.plan.segments, id);
    && Has(s.activities, id) && position.Some?
    && if newState.Planned? then position.value >= s.prefix
       else position.value == s.prefix && (s.current.Some? ==> s.current.value == id)
  }

  function StatusEntered(s: TripState, id: Id, newState: ActivityState): TripState {
    var t := WithActivity(s, id, (a: Activity) => a.(state := newState));
    match newState
    case Planned => if s.current == Some(id) then t.(current := None) else t
    case Started => t.(current := Some(id))
    case Completed => t.(prefix := s.prefix + 1, current := None)
    case Skipped => t.(prefix := s.prefix + 1, current := None)
  }

  function DelaysWithout(delays: seq<Delay>, id: Id): seq<Delay> {
    if delays == [] then []
    else
      var last := delays[|delays| - 1];
      var rest := DelaysWithout(delays[..|delays| - 1], id);
      if last.from == id || last.to == id then rest else rest + [last]
  }

  function DelayPut(delays: seq<Delay>, delay: Delay): seq<Delay> {
    if delays == [] then [delay]
    else if SameKey(delays[0], delay) then [delay] + delays[1..]
    else [delays[0]] + DelayPut(delays[1..], delay)
  }

  function Picked(activities: seq<Activity>, ids: seq<Id>): (r: seq<Activity>)
    requires forall k | 0 <= k < |ids| :: Has(activities, ids[k])
    ensures |r| == |ids| && ActivityIds(r) == ids
  {
    var r := seq(|ids|, k requires 0 <= k < |ids| && Has(activities, ids[k]) =>
                          activities[ActivityIndex(activities, ids[k]).value]);
    assert forall k | 0 <= k < |ids| :: Has(activities, ids[k]) ==> r[k].id == ids[k];
    r
  }

  function Edited(s: TripState, operation: EditOperation): TripState {
    match operation
    case AddActivity(activity, ordinal) =>
      if ordinal > |s.activities| then s
      else s.(activities := s.activities[..ordinal] + [activity] + s.activities[ordinal..])
    case ReplaceActivity(activity) => WithActivity(s, activity.id, (_: Activity) => activity)
    case RemoveActivity(id) =>
      var index := ActivityIndex(s.activities, id);
      if index.None? then s
      else s.(activities := s.activities[..index.value] + s.activities[index.value + 1..],
              delays := DelaysWithout(s.delays, id))
    case ReorderActivities(ids) =>
      if forall k | 0 <= k < |ids| :: Has(s.activities, ids[k])
      then s.(activities := Picked(s.activities, ids)) else s
  }

  function Normalized(s: TripState): TripState {
    s.(prefix := Min(s.prefix, |s.activities|),
       current := if s.current.Some? && !Has(s.activities, s.current.value) then None else s.current)
  }

  function Observed(s: TripState, e: TripEvent, observation: Observation): TripState {
    s.(observation := observation.(observedAt := Some(e.occurredAt)))
  }

  /** The state an event asks for, before it is checked. */
  function Changed(s: TripState, e: TripEvent): TripState {
    match e.payload
    case NoPayload => s
    case LocationUpdated(location) => Observed(s, e, s.observation.(location := Some(location)))
    case VelocityUpdated(speed) => Observed(s, e, s.observation.(velocity := Some(speed)))
    case HeadingUpdated(degrees) => Observed(s, e, s.observation.(heading := Some(degrees)))
    case RouteDeviation(location, _) => Observed(s, e, s.observation.(location := Some(location)))
    case StatusChanged(id, newState) => StatusEntered(s, id, newState)
    case ActivityDelayed(id, seconds) => WithActivity(s, id, (a: Activity) => a.(delaySeconds := seconds))
    case TripEdited(operation, plan) => Normalized(Edited(s, operation).(plan := plan))
    case ReservationChanged(id, reservation, grace) =>
      WithActivity(s, id, (a: Activity) => a.(timing := a.timing.(reservation := reservation, graceSeconds := grace)))
    case DeadlineChanged(id, latest) =>
      WithActivity(s, id, (a: Activity) => a.(timing := a.timing.(deadline := Some(latest))))
    case HoursChanged(id, windows) => WithActivity(s, id, (a: Activity) => a.(timing := a.timing.(windows := windows)))
    case FoundClosed(id, at) => WithActivity(s, id, (a: Activity) => a.(foundClosedAt := Some(at)))
    case TravelDelay(from, to, seconds) => s.(delays := DelayPut(s.delays, Delay(from, to, seconds, e.occurredAt)))
    case PlanDecision(accept, _, _, _, _, resulting) =>
      if accept && resulting.Some? then s.(plan := resulting.value) else s
    case Advisory(_, _, _) => s
    case PlanReplaced(plan) => s.(plan := plan)
  }

  predicate MatchesProposal(p: StoredProposal, d: Payload)
    requires d.PlanDecision?
  {
    && p.proposal.proposalId == d.proposalId && p.proposal.sourceEpoch == d.sourceEpoch
    && p.proposal.sourcePlannerVersion == d.sourcePlannerVersion && p.proposal.basePlanId == d.basePlanId
  }

  datatype Outcome = Applied | Invalid | StaleProposal

  /** A decision about a proposal that is not the one on offer. */
  predicate DecidesStale(s: TripState, e: TripEvent) {
    e.payload.PlanDecision? && (s.proposal.None? || !MatchesProposal(s.proposal.value, e.payload))
  }

  /** A status change that does not fit the trip's progress. */
  predicate Refuses(s: TripState, e: TripEvent) {
    e.payload.StatusChanged? && !MayEnter(s, e.payload.id, e.payload.newState)
  }

  /** What the event leaves: a planning input withdraws the proposal on offer. */
  function Candidate(s: TripState, e: TripEvent): TripState {
    if e.payload.PlanningInput() then Changed(s, e).Core() else Changed(s, e)
  }

  function Verdict(s: TripState, e: TripEvent, maxAdvisoryBytes: nat): Outcome {
    if !s.Valid() || !e.payload.ValidFor(s.activities, maxAdvisoryBytes) then Invalid
    else if DecidesStale(s, e) then StaleProposal
    else if Refuses(s, e) then Invalid
    else if !Candidate(s, e).Valid() then Invalid
    else Applied
  }

  function After(s: TripState, e: TripEvent, maxAdvisoryBytes: nat): TripState {
    if Verdict(s, e, maxAdvisoryBytes).Applied? then Candidate(s, e) else s
  }

  // ----- the checks and changes as loops -----

  /** One pass over the plan's segments and one over the delays. */
  method CheckTripState(s: TripState) returns (ok: bool)
    ensures ok <==> s.Valid()
  {
    if s.timeZone == "" || !OwnActivities(s.activities) || !s.plan.ValidFor(ActivityIds(s.activities)) {
      return false;
    }
    ok := CheckProgress(s);
    if !ok || !s.observation.Valid() {
      return false;
    }
    ok := CheckDelays(s.activities, s.delays);
    if ok && s.proposal.Some? {
      ok := s.proposal.value.ValidFor(s.activities) && s.proposal.value.proposal.basePlanId == s.plan.planId;
    }
  }

  method CheckProgress(s: TripState) returns (ok: bool)
    requires Distinct(SegmentIds(s.plan.segments)) && |s.plan.segments| == |s.activities|
    ensures ok <==> InProgress(s.activities, s.plan, s.prefix, s.current)
  {
    if s.prefix > |s.activities| {
      return false;
    }
    var segments := s.plan.segments;
    var foundStarted := false;
    for index := 0 to |segments|
      invariant forall i | 0 <= i < index :: SegmentFits(s.activities, segments[i].id, i, s.prefix)
      invariant foundStarted <==> s.prefix < index && StateOf(s.activities, segments[s.prefix].id) == Some(Started)
    {
      var state := StateOf(s.activities, segments[index].id);
      if state.None? {
        assert !SegmentFits(s.activities, segments[index].id, index, s.prefix);
        return false;
      }
      if index < s.prefix {
        if !Terminal(state.value) {
          assert !SegmentFits(s.activities, segments[index].id, index, s.prefix);
          return false;
        }
      } else if Terminal(state.value) {
        assert !SegmentFits(s.activities, segments[index].id, index, s.prefix);
        return false;
      }
      if state.value.Started? {
        if foundStarted || index != s.prefix {
          assert !SegmentFits(s.activities, segments[index].id, index, s.prefix);
          return false;
        }
        foundStarted := true;
      }
    }
    if s.current.Some? {
      var at := SegmentIndex(segments, s.current.value);
      DistinctPositions(segments);
      ok := at == Some(s.prefix) && StateOf(s.activities, s.current.value) == Some(Started) && foundStarted;
    } else {
      ok := !foundStarted;
    }
  }

  lemma {:induction false} DistinctPositions(segments: seq<Segment>)
    requires Distinct(SegmentIds(segments))
    ensures forall k | 0 <= k < |segments| :: SegmentIndex(segments, segments[k].id) == Some(k)
  {
    var ids := SegmentIds(segments);
    forall k | 0 <= k < |segments| ensures SegmentIndex(segments, segments[k].id) == Some(k) {
      var at := SegmentIndex(segments, segments[k].id);
      assert ids[k] == segments[k].id && ids[at.value] == segments[at.value].id;
    }
  }

  method CheckDelays(activities: seq<Activity>, delays: seq<Delay>) returns (ok: bool)
    ensures ok <==> ValidDelays(activities, delays)
  {
    for k := 0 to |delays|
      invariant ValidDelays(activities, delays[..k])
    {
      if !BetweenOwn(activities, delays[k]) {
        assert delays[k] in delays;
        return false;
      }
      for j := 0 to k
        invariant forall i | 0 <= i < j :: !SameKey(delays[i], delays[k])
      {
        if SameKey(delays[j], delays[k]) {
          return false;
        }
      }
    }
    assert delays[..|delays|] == delays;
    ok := true;
  }

  method RemoveDelays(delays: seq<Delay>, id: Id) returns (kept: seq<Delay>)
    ensures kept == DelaysWithout(delays, id)
  {
    kept := [];
    for k := 0 to |delays|
      invariant kept == DelaysWithout(delays[..k], id)
    {
      assert delays[..k + 1][..k] == delays[..k];
      if delays[k].from != id && delays[k].to != id {
        kept := kept + [delays[k]];
      }
    }
    assert delays[..|delays|] == delays;
  }

  method PutDelay(delays: seq<Delay>, delay: Delay) returns (r: seq<Delay>)
    ensures r == DelayPut(delays, delay)
  {
    for k := 0 to |delays|
      invariant forall i | 0 <= i < k :: !SameKey(delays[i], delay)
    {
      if SameKey(delays[k], delay) {
        FirstSameKey(delays, delay, k);
        return delays[k := delay];
      }
    }
    FirstSameKey(delays, delay, |delays|);
    r := delays + [delay];
  }

  /** A delay replaces the first with its key, or goes to the end. */
  lemma {:induction false} FirstSameKey(delays: seq<Delay>, delay: Delay, k: nat)
    requires k <= |delays| && forall i | 0 <= i < k :: !SameKey(delays[i], delay)
    requires k < |delays| ==> SameKey(delays[k], delay)
    ensures DelayPut(delays, delay) == if k < |delays| then delays[k := delay] else delays + [delay]
  {
    if k > 0 {
      FirstSameKey(delays[1..], delay, k - 1);
    }
  }

  method Reorder(activities: seq<Activity>, ids: seq<Id>) returns (r: seq<Activity>)
    requires forall k | 0 <= k < |ids| :: Has(activities, ids[k])
    ensures r == Picked(activities, ids)
  {
    r := [];
    for k := 0 to |ids|
      invariant r == Picked(activities, ids[..k])
    {
      assert Has(activities, ids[k]);
      r := r + [activities[ActivityIndex(activities, ids[k]).value]];
    }
    assert ids[..|ids|] == ids;
  }

  method ApplyEdit(s: TripState, operation: EditOperation, plan: CurrentPlan) returns (t: TripState)
    requires ValidEdit(s.activities, operation, plan)
    ensures t == Normalized(Edited(s, operation).(plan := plan))
  {
    t := s;
    match operation {
      case AddActivity(activity, ordinal) =>
        t := t.(activities := t.activities[..ordinal] + [activity] + t.activities[ordinal..]);
      case ReplaceActivity(activity) =>
        var index := ActivityIndex(t.activities, activity.id);
        t := t.(activities := t.activities[index.value := activity]);
      case RemoveActivity(id) =>
        var index := ActivityIndex(t.activities, id);
        t := t.(activities := t.activities[..index.value] + t.activities[index.value + 1..]);
        var kept := RemoveDelays(t.delays, id);
        t := t.(delays := kept);
      case ReorderActivities(ids) =>
        ReorderedAreKnown(s.activities, ids);
        var reordered := Reorder(t.activities, ids);
        t := t.(activities := reordered);
    }
    t := t.(plan := plan);
    if t.prefix > |t.activities| {
      t := t.(prefix := |t.activities|);
    }
    if t.current.Some? && !Has(t.activities, t.current.value) {
      t := t.(current := None);
    }
  }

  lemma {:induction false} ReorderedAreKnown(activities: seq<Activity>, ids: seq<Id>)
    requires multiset(ids) == multiset(ActivityIds(activities))
    ensures forall k | 0 <= k < |ids| :: Has(activities, ids[k])
  {
    forall k | 0 <= k < |ids| ensures Has(activities, ids[k]) {
      assert ids[k] in multiset(ids);
      assert ids[k] in ActivityIds(activities);
      var j :| 0 <= j < |activities| && ActivityIds(activities)[j] == ids[k];
      assert activities[j].id == ids[k];
    }
  }

  /** Makes the change an event asks for, in place, before it is checked. */
  method MakeChange(state: TripState, event: TripEvent) returns (after: TripState, ok: bool)
    requires event.payload.TripEdited? ==> ValidEdit(state.activities, event.payload.operation, event.payload.plan)
    ensures ok <==> !Refuses(state, event)
    ensures ok ==> after == Changed(state, event)
  {
    after, ok := state, true;
    match event.payload {
      case StatusChanged(id, newState) =>
        ok := MayEnter(state, id, newState);
        if ok {
          after := StatusEntered(after, id, newState);
        }
      case TripEdited(operation, plan) =>
        after := ApplyEdit(after, operation, plan);
      case TravelDelay(from, to, seconds) =>
        var delays := PutDelay(after.delays, Delay(from, to, seconds, event.occurredAt));
        after := after.(delays := delays);
      case _ =>
        after := Changed(after, event);
    }
  }

  /** The same, and withdraws the proposal on offer if planning is affected. */
  method ChangeState(state: TripState, event: TripEvent) returns (after: TripState, ok: bool)
    requires event.payload.TripEdited? ==> ValidEdit(state.activities, event.payload.operation, event.payload.plan)
    ensures ok <==> !Refuses(state, event)
    ensures ok ==> after == Candidate(state, event)
  {
    after, ok := MakeChange(state, event);
    if event.payload.PlanningInput() {
      after := after.(proposal := None);
    }
  }

  /** Applies an event to a copy of the state and gives the copy back only if
      it is still valid. */
  method ApplyTripEvent(state: TripState, event: TripEvent, maxAdvisoryBytes: nat) returns (after: TripState, r: Outcome)
    ensures r == Verdict(state, event, maxAdvisoryBytes)
    ensures after == After(state, event, maxAdvisoryBytes)
  {
    var valid := CheckTripState(state);
    if !valid || !event.payload.ValidFor(state.activities, maxAdvisoryBytes) {
      return state, Invalid;
    }
    if DecidesStale(state, event) {
      return state, StaleProposal;
    }
    var mutationValid;
    after, mutationValid := ChangeState(state, event);
    valid := CheckTripState(after);
    if !mutationValid || !valid {
      return state, Invalid;
    }
    r := Applied;
  }
}

/** Events, their delivery class and priority, and the checks made against the
    activities they refer to. */
module TripEvents {
  import opened Domain

  datatype EditOperation =
    | AddActivity(activity: Activity, ordinal: uint32)
    | ReplaceActivity(activity: Activity)
    | RemoveActivity(id: Id)
    | ReorderActivities(ids: seq<Id>)

  datatype AdvisoryKind = RecommendationRefresh | WeatherChanged | CrowdChanged | SocialUpdate

  datatype Payload =
    | NoPayload
    | LocationUpdated(location: Location)
    | VelocityUpdated(metersPerSecond: real)
    | HeadingUpdated(degrees: real)
    | StatusChanged(id: Id, newState: ActivityState)
    | ActivityDelayed(id: Id, delaySeconds: uint32)
    | TripEdited(operation: EditOperation, plan: CurrentPlan)
    | ReservationChanged(id: Id, reservation: Option<int64>, graceSeconds: uint32)
    | DeadlineChanged(id: Id, latestFinish: int64)
    | RouteDeviation(location: Location, distanceMeters: uint32)
    | HoursChanged(id: Id, windows: seq<Window>)
    | FoundClosed(id: Id, observedAt: int64)
    | TravelDelay(from: Id, to: Id, additionalSeconds: uint32)
    | PlanDecision(accept: bool, proposalId: Id, sourceEpoch: uint64, sourcePlannerVersion: uint64, basePlanId: Id,
                   resulting: Option<CurrentPlan>)
    | Advisory(kind: AdvisoryKind, source: string, payload: seq<bv8>)
    | PlanReplaced(plan: CurrentPlan)
  {
    /** Everything but an advisory feeds the planner. */
    predicate PlanningInput() { !NoPayload? && !Advisory? }

    predicate ChangesPlan() { TripEdited? || PlanReplaced? || (PlanDecision? && accept) }

    predicate OrdinaryObservation() { LocationUpdated? || VelocityUpdated? || HeadingUpdated? }

    predicate Refresh() { Advisory? && kind == RecommendationRefresh }

    function Class(): Option<EventClass> {
      match this
      case NoPayload => None
      case LocationUpdated(_) => Some(Telemetry)
      case VelocityUpdated(_) => Some(Telemetry)
      case HeadingUpdated(_) => Some(Telemetry)
      case RouteDeviation(_, _) => Some(HighObservation)
      case TripEdited(_, _) => Some(CanonicalMirror)
      case PlanReplaced(_) => Some(CanonicalMirror)
      case PlanDecision(_, _, _, _, _, _) => Some(CompareAndSwap)
      case Advisory(_, _, _) => Some(AdvisoryClass)
      case _ => Some(Durable)
    }

    function PriorityFor(activities: seq<Activity>): Priority {
      match this
      case LocationUpdated(_) => Normal
      case VelocityUpdated(_) => Normal
      case HeadingUpdated(_) => Normal
      case RouteDeviation(_, _) => High
      case Advisory(_, _, _) => Low
      case HoursChanged(id, _) =>
        var index := ActivityIndex(activities, id);
        if index.Some? && !Terminal(activities[index.value].state) then High else Critical
      case _ => Critical
    }

    predicate ValidFor(activities: seq<Activity>, maxAdvisoryBytes: nat) {
      OwnActivities(activities) &&
      match this
      case NoPayload => false
      case LocationUpdated(location) => location.Valid()
      case VelocityUpdated(speed) => speed >= 0.0
      case HeadingUpdated(degrees) => 0.0 <= degrees <= 360.0
      case StatusChanged(id, _) => Has(activities, id)
      case ActivityDelayed(id, _) => Has(activities, id)
      case TripEdited(operation, plan) => ValidEdit(activities, operation, plan)
      case ReservationChanged(id, _, _) => Has(activities, id)
      case DeadlineChanged(id, _) => Has(activities, id)
      case RouteDeviation(location, _) => location.Valid()
      case HoursChanged(id, windows) => Has(activities, id) && NormalizedWindows(windows)
      case FoundClosed(id, _) => Has(activities, id)
      case TravelDelay(from, to, _) => Has(activities, from) && Has(activities, to)
      case PlanDecision(_, _, _, _, _, _) => ValidDecision(activities)
      case Advisory(_, source, payload) => source != "" && |payload| <= maxAdvisoryBytes
      case PlanReplaced(plan) => plan.origin.UserAuthored? && plan.ValidFor(ActivityIds(activities))
    }

    predicate ValidDecision(activities: seq<Activity>)
      requires PlanDecision?
    {
      && sourceEpoch != 0
      && if accept then
           && resulting.Some? && resulting.value.origin.AcceptedEngineProposal?
           && resulting.value.sourceProposalId == Some(proposalId)
           && resulting.value.ValidFor(ActivityIds(activities))
         else resulting.None?
    }
  }

  datatype EventClass = Telemetry | Durable | CanonicalMirror | HighObservation | CompareAndSwap | AdvisoryClass

  datatype Priority = Critical | High | Normal | Low {
    function Rank(): nat {
      match this case Critical => 0 case High => 1 case Normal => 2 case Low => 3
    }
  }

  datatype TripEvent = TripEvent(eventId: Id, occurredAt: int64, expiresAt: Option<int64>, payload: Payload)

  predicate Terminal(state: ActivityState) { state.Completed? || state.Skipped? }

  predicate Has(activities: seq<Activity>, id: Id) { ActivityIndex(activities, id).Some? }

  predicate OwnActivities(activities: seq<Activity>) {
    && |activities| <= 64
    && (forall k | 0 <= k < |activities| :: activities[k].Valid())
    && Distinct(ActivityIds(activities))
  }

  /** The ids after an edit, or None if the edit does not apply. */
  function EditedIds(activities: seq<Activity>, operation: EditOperation): Option<seq<Id>> {
    var ids := ActivityIds(activities);
    match operation
    case AddActivity(activity, ordinal) =>
      if activity.Valid() && |ids| < 64 && ordinal <= |ids| && !Has(activities, activity.id)
      then Some(ids[..ordinal] + [activity.id] + ids[ordinal..]) else None
    case ReplaceActivity(activity) =>
      if activity.Valid() && Has(activities, activity.id) then Some(ids) else None
    case RemoveActivity(id) =>
      var index := ActivityIndex(activities, id);
      if index.Some? then Some(ids[..index.value] + ids[index.value + 1..]) else None
    case ReorderActivities(reordered) =>
      if |reordered| == |ids| && Distinct(reordered) && multiset(reordered) == multiset(ids) then Some(reordered) else None
  }

  predicate ValidEdit(activities: seq<Activity>, operation: EditOperation, plan: CurrentPlan) {
    var ids := EditedIds(activities, operation);
    ids.Some? && plan.origin.UserAuthored? && plan.ValidFor(ids.value) && SegmentIds(plan.segments) == ids.value
  }
}

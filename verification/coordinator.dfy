/** Admission of one delivered event: sequence numbers first, then the state. */
module EventCoordinator {
  import opened Domain
  import opened TripEvents
  import opened TripStates
  import opened RuntimeVersions

  datatype Request = Request(
    epoch: uint64,
    mutation: uint64,
    observation: uint64,
    revision: uint64,
    plannerVersion: Option<uint64>,
    event: TripEvent)

  datatype Admission = Admitted | Repeated | OutOfDate(reason: StaleReason) | BadRequest | Expired | NotActive | Internal

  /** The immutable input of a planning attempt. */
  datatype Seed = Seed(state: TripState, trigger: Payload, source: Snapshot, token: Token)

  datatype CoordinatorResult = CoordinatorResult(
    status: Admission,
    retryable: bool,
    planningInputChanged: bool,
    currentPlanChanged: bool,
    snapshot: Snapshot,
    seed: Option<Seed>,
    resultingPlanId: Option<Id>)

  predicate IsDurable(c: EventClass) { c.Durable? || c.CanonicalMirror? || c.CompareAndSwap? }

  /** Durable commands carry a mutation sequence and a revision, observations an
      observation sequence, and neither carries the other's numbers. */
  predicate WellNumbered(r: Request) {
    var c := r.event.payload.Class();
    && c.Some?
    && if IsDurable(c.value) then r.mutation != 0 && r.observation == 0 && r.revision != 0
       else r.observation != 0 && r.mutation == 0 && r.revision == 0
  }

  function Refusal(status: Admission, v: Versions): CoordinatorResult {
    CoordinatorResult(status, status.NotActive?, false, false, v.snapshot, None, None)
  }

  function FromStatus(s: Status): Admission {
    match s
    case Accepted => Admitted
    case Duplicate => Repeated
    case Stale(reason) => OutOfDate(reason)
    case InvalidArgument => BadRequest
    case Inactive => NotActive
  }

  function Preview(v: Versions, r: Request): Status
    requires r.event.payload.Class().Some?
  {
    var c := r.event.payload.Class().value;
    if IsDurable(c) then v.PreviewDurable(r.epoch, r.mutation, r.revision, true, r.plannerVersion, true)
    else if c.AdvisoryClass? then v.PreviewAdvisory(r.epoch, r.observation, r.plannerVersion)
    else v.PreviewObservation(r.epoch, r.observation, r.plannerVersion, true)
  }

  /** The numbers after an applied event. */
  function Advanced(v: Versions, r: Request): Versions
    requires r.event.payload.Class().Some? && Preview(v, r) == Accepted
  {
    var c := r.event.payload.Class().value;
    v.(snapshot :=
         if IsDurable(c) then Bumped(v.snapshot, true).(accepted := r.mutation, revision := r.revision + 1)
         else if c.AdvisoryClass? then v.snapshot.(observed := r.observation)
         else Bumped(v.snapshot, true).(observed := r.observation))
  }

  /** The numbers after a command that is refused for good: only its sequence is used up. */
  function UsedUp(v: Versions, r: Request): Versions
    requires r.event.payload.Class().Some?
  {
    var c := r.event.payload.Class().value;
    if IsDurable(c) && !c.CanonicalMirror? then v.(snapshot := v.snapshot.(accepted := r.mutation)) else v
  }

  predicate IsExpired(r: Request, now: int64)
    requires r.event.payload.Class().Some?
  {
    var c := r.event.payload.Class().value;
    IsDurable(c) && !c.CanonicalMirror? && r.event.expiresAt.Some? && r.event.expiresAt.value <= now
  }

  function AdmittedResult(s: TripState, v: Versions, r: Request): CoordinatorResult {
    var p := r.event.payload;
    CoordinatorResult(
      Admitted, false, p.PlanningInput(), p.ChangesPlan(), v.snapshot,
      if p.PlanningInput() && v.Capture().Some? then Some(Seed(s, p, v.snapshot, v.Capture().value)) else None,
      if p.Class() == Some(CanonicalMirror) then Some(s.plan.planId) else None)
  }

  /** What admission does with the verdict on an event and the state it would leave. */
  function Settle(s: TripState, v: Versions, r: Request, now: int64, verdict: Outcome, after: TripState)
    : (TripState, Versions, CoordinatorResult)
  {
    if !WellNumbered(r) then (s, v, Refusal(BadRequest, v))
    else if Preview(v, r) != Accepted then
      var refusal := Refusal(FromStatus(Preview(v, r)), v);
      (s, v, if refusal.status.Repeated? && r.event.payload.Class() == Some(CanonicalMirror)
             then refusal.(resultingPlanId := Some(s.plan.planId)) else refusal)
    else if IsExpired(r, now) then (s, UsedUp(v, r), Refusal(Expired, UsedUp(v, r)))
    else match verdict
      case Invalid => (s, UsedUp(v, r), Refusal(BadRequest, UsedUp(v, r)))
      case StaleProposal => (s, UsedUp(v, r), Refusal(OutOfDate(Proposal), UsedUp(v, r)))
      case Applied => (after, Advanced(v, r), AdmittedResult(after, Advanced(v, r), r))
  }

  /** What admission does to the trip and answers. */
  function Coordinate(s: TripState, v: Versions, r: Request, now: int64, maxAdvisoryBytes: nat)
    : (TripState, Versions, CoordinatorResult)
  {
    Settle(s, v, r, now, Verdict(s, r.event, maxAdvisoryBytes), After(s, r.event, maxAdvisoryBytes))
  }

  /** Refuses for good: a durable command that no canonical store has accepted
      uses up its sequence number. */
  method Resolve(versions: TripRuntimeVersions, r: Request, status: Admission) returns (result: CoordinatorResult)
    requires versions.Value().Valid() && r.event.payload.Class().Some? && Preview(versions.Value(), r) == Accepted
    modifies versions
    ensures versions.Value().Valid() && versions.Value() == UsedUp(old(versions.Value()), r)
    ensures result == Refusal(status, versions.Value())
  {
    var c := r.event.payload.Class().value;
    if IsDurable(c) && !c.CanonicalMirror? {
      var resolved := versions.ResolveTerminal(r.epoch, r.mutation, r.revision, r.plannerVersion);
      result := Refusal(Internal, versions.Value());
      if resolved != Accepted {
        return;
      }
    }
    result := Refusal(status, versions.Value());
  }

  method CommitVersions(versions: TripRuntimeVersions, r: Request) returns (committed: Status)
    requires versions.Value().Valid() && r.event.payload.Class().Some? && Preview(versions.Value(), r) == Accepted
    modifies versions
    ensures committed == Accepted
    ensures versions.Value().Valid() && versions.Value() == Advanced(old(versions.Value()), r)
  {
    var c := r.event.payload.Class().value;
    var planningInput := r.event.payload.PlanningInput();
    if IsDurable(c) {
      committed := versions.AcceptDurable(r.epoch, r.mutation, r.revision, true, r.plannerVersion, planningInput);
    } else if c.AdvisoryClass? {
      committed := versions.AcceptAdvisory(r.epoch, r.observation, r.plannerVersion);
    } else {
      committed := versions.AcceptObservation(r.epoch, r.observation, r.plannerVersion, planningInput);
    }
  }

  /** `coordinate_event_admission`: the versions are updated in place, the state
      is replaced only once they have been.  A preview that accepts is always
      followed by a commit that accepts, so none of the internal errors is ever
      returned, even at the limits of the counters. */
  method CoordinateEventAdmission(state: TripState, versions: TripRuntimeVersions, r: Request, now: int64, maxAdvisoryBytes: nat)
    returns (after: TripState, result: CoordinatorResult)
    requires versions.Value().Valid()
    modifies versions
    ensures versions.Value().Valid()
    ensures (after, versions.Value(), result) == Coordinate(state, old(versions.Value()), r, now, maxAdvisoryBytes)
    ensures !result.status.Internal?
  {
    after := state;
    if !WellNumbered(r) {
      return after, Refusal(BadRequest, versions.Value());
    }
    var c := r.event.payload.Class().value;
    var preview := Preview(versions.Value(), r);
    if preview != Accepted {
      result := Refusal(FromStatus(preview), versions.Value());
      if result.status.Repeated? && c.CanonicalMirror? {
        result := result.(resultingPlanId := Some(state.plan.planId));
      }
      return;
    }
    if IsExpired(r, now) {
      result := Resolve(versions, r, Expired);
      return;
    }
    var candidate, applied := ApplyTripEvent(state, r.event, maxAdvisoryBytes);
    if applied != Applied {
      result := Resolve(versions, r, if applied.StaleProposal? then OutOfDate(Proposal) else BadRequest);
      return;
    }
    var committed := CommitVersions(versions, r);
    result := Refusal(Internal, versions.Value());
    if committed != Accepted {
      return;
    }
    after := candidate;
    if r.event.payload.PlanningInput() && versions.Value().Capture().None? {
      return;
    }
    result := AdmittedResult(after, versions.Value(), r);
  }
}

/** One trip on its owner shard, as a function of the steps it takes.  Every
    task the shard runs for the trip is one step; planning attempts run
    elsewhere and report back at any later time. */
module TripRuntime {
  import opened Domain
  import opened Proposals
  import opened TripEvents
  import opened TripStates
  import opened RuntimeVersions
  import opened EventCoordinator

  datatype PlanningContext = PlanningContext(
    currentTime: int64,
    horizonStart: int64,
    horizonEnd: int64,
    proposalId: Id,
    createdAt: int64,
    maxCandidates: nat,
    beamWidth: nat,
    maxExpansions: nat)
  {
    predicate Valid() {
      horizonStart <= currentTime < horizonEnd && maxCandidates != 0 && beamWidth != 0 && maxExpansions != 0
    }
  }

  /** A planning request: waiting, or handed to the executors. */
  datatype Attempt = Attempt(seed: Seed, context: PlanningContext, priority: Priority, ordinary: bool)

  datatype Trip = Trip(
    state: TripState,
    owner: string,
    versions: Versions,
    binding: Option<uint64>,
    deactivating: bool,
    running: bool,
    runningPriority: Priority,
    runningTrigger: Payload,
    pending: Option<Attempt>)

  datatype World = World(trip: Option<Trip>, outstanding: seq<Attempt>, accepting: bool)

  const EMPTY := World(None, [], true)

  /** What the executors and queues answer while a step runs. */
  datatype Load = Load(completionReserved: bool, providerAccepts: bool, normalQueueEmpty: bool)

  datatype EventRequest = EventRequest(admission: Request, planning: PlanningContext)

  datatype BootRequest = BootRequest(
    state: TripState, owner: string, epoch: uint64, revision: uint64, finalized: uint64, observed: uint64,
    binding: Option<uint64>)

  datatype Label =
    | Boot(boot: BootRequest, roomForTrip: bool)
    | Event(request: EventRequest, load: Load)
    | Confirm(epoch: uint64, sequence: uint64)
    | Deactivate(epoch: uint64, finalSnapshot: bool)
    | AbortDeactivation(epoch: uint64)
    | Unbind(epoch: uint64, stream: uint64)
    | Finish(k: nat, proposal: Option<StoredProposal>, load: Load)
    | Fail(k: nat, load: Load)
    | Lose(k: nat)        // an attempt that never reports back
    | Close               // the runtime stops accepting work

  // ----- planning attempts -----

  /** Hands an attempt to the executors; the second part is the attempt if they took it. */
  function DispatchPlanning(t: Trip, a: Attempt, load: Load): (Trip, seq<Attempt>) {
    if !load.completionReserved then (t, [])
    else (t.(running := load.providerAccepts, runningPriority := a.priority, runningTrigger := a.seed.trigger),
          if load.providerAccepts then [a] else [])
  }

  function DispatchPending(t: Trip, accepting: bool, load: Load): (Trip, seq<Attempt>) {
    if !accepting || t.pending.None? || (t.pending.value.ordinary && !load.normalQueueEmpty) then (t, [])
    else DispatchPlanning(t.(pending := None), t.pending.value, load)
  }

  /** The higher priority and its trigger win. */
  function Preserve(a: Attempt, priority: Priority, trigger: Payload): Attempt {
    if priority.Rank() < a.priority.Rank() then a.(priority := priority, seed := a.seed.(trigger := trigger)) else a
  }

  // ----- events -----

  /** The seed an admitted event plans with, if it plans at all. */
  function SeedFor(t: Trip, result: CoordinatorResult, p: Payload): Option<Seed> {
    var seed :=
      if p.Refresh() && result.status.Admitted? && result.seed.None? && t.versions.Capture().Some?
      then Some(Seed(t.state, p, t.versions.snapshot, t.versions.Capture().value)) else result.seed;
    if p.OrdinaryObservation() && !t.running && t.pending.None? then None
    else if p.Refresh() && (t.running || t.pending.Some?) then None
    else seed
  }

  /** Starts, queues or merges the attempt an event asks for. */
  function Enqueue(t: Trip, a: Attempt, accepting: bool, load: Load): (Trip, seq<Attempt>) {
    if !a.context.Valid() then (t, [])
    else if t.running then
      var merged := Preserve(a, t.runningPriority, t.runningTrigger);
      (t.(pending := Some(if t.pending.Some? then Preserve(merged, t.pending.value.priority, t.pending.value.seed.trigger)
                          else merged)), [])
    else if t.pending.Some? then
      DispatchPending(t.(pending := Some(Preserve(a, t.pending.value.priority, t.pending.value.seed.trigger))), accepting, load)
    else DispatchPlanning(t, a, load)
  }

  /** What follows admission; `t` already holds the admitted state and versions. */
  function AfterAdmission(t: Trip, result: CoordinatorResult, r: EventRequest, priority: Priority, accepting: bool, load: Load)
    : (Trip, seq<Attempt>)
  {
    var p := r.admission.event.payload;
    var seed := SeedFor(t, result, p);
    if seed.None? then (t, []) else Enqueue(t, Attempt(seed.value, r.planning, priority, p.OrdinaryObservation()), accepting, load)
  }

  function HandleEvent(t: Trip, r: EventRequest, accepting: bool, load: Load, maxAdvisoryBytes: nat): (Trip, seq<Attempt>) {
    if t.deactivating then (t, [])
    else
      var c := Coordinate(t.state, t.versions, r.admission, r.planning.currentTime, maxAdvisoryBytes);
      AfterAdmission(t.(state := c.0, versions := c.1), c.2, r,
                     r.admission.event.payload.PriorityFor(t.state.activities), accepting, load)
  }

  // ----- bootstrap and control -----

  /** A trip starts without observations of its own. */
  predicate Bootable(trip: Option<Trip>, b: BootRequest) {
    && b.state.Valid() && b.state.proposal.None?
    && (trip.None? || b.epoch > trip.value.versions.snapshot.epoch ==> b.observed == 0 && !b.state.observation.Present())
  }

  function HandleBoot(trip: Option<Trip>, b: BootRequest, roomForTrip: bool): Option<Trip> {
    if !Bootable(trip, b) then trip
    else if trip.None? then
      if !roomForTrip || CheckBootstrap(DORMANT, b.epoch, b.revision, b.finalized, b.observed) != Accepted then None
      else Some(Trip(b.state, b.owner, NewlyActive(b.epoch, b.revision, b.finalized, b.observed), b.binding,
                     false, false, Normal, NoPayload, None))
    else
      var t := trip.value;
      match CheckBootstrap(t.versions, b.epoch, b.revision, b.finalized, b.observed)
      case Accepted =>
        Some(t.(state := b.state, owner := b.owner, versions := NewlyActive(b.epoch, b.revision, b.finalized, b.observed),
                binding := b.binding, deactivating := false, pending := None))
      case Duplicate => if b.binding.Some? then Some(t.(binding := b.binding)) else trip
      case _ => trip
  }

  function HandleDeactivate(t: Trip, epoch: uint64, finalSnapshot: bool): Option<Trip> {
    if epoch != t.versions.snapshot.epoch || (finalSnapshot && !t.versions.SnapshotReady()) then Some(t)
    else if finalSnapshot then Some(t.(deactivating := true, pending := None))
    else None
  }

  predicate IsControl(l: Label) { l.Confirm? || l.Deactivate? || l.AbortDeactivation? || l.Unbind? }

  function HandleControl(t: Trip, l: Label): Option<Trip>
    requires IsControl(l)
  {
    match l
    case Confirm(epoch, sequence) => Some(t.(versions := Confirmed(t.versions, epoch, sequence).0))
    case Deactivate(epoch, final) => HandleDeactivate(t, epoch, final)
    case AbortDeactivation(epoch) => Some(if epoch == t.versions.snapshot.epoch then t.(deactivating := false) else t)
    case Unbind(epoch, stream) =>
      Some(if t.versions.snapshot.epoch == epoch && t.binding == Some(stream)
           then t.(binding := None, pending := None) else t)
  }

  // ----- completions -----

  predicate Commits(t: Trip, a: Attempt, p: StoredProposal) {
    && t.versions.CanCommit(a.seed.token)
    && p.proposal.sourceEpoch == a.seed.token.epoch
    && p.proposal.sourcePlannerVersion == a.seed.token.plannerVersion
    && p.proposal.basePlanId == t.state.plan.planId
    && t.state.Valid() && p.ValidFor(t.state.activities)
  }

  function HandleFinish(t: Trip, a: Attempt, proposal: Option<StoredProposal>, accepting: bool, load: Load)
    : (Trip, seq<Attempt>)
  {
    var idle := t.(running := false);
    DispatchPending(
      if proposal.Some? && Commits(t, a, proposal.value) then idle.(state := t.state.(proposal := proposal)) else idle,
      accepting, load)
  }

  function WithoutAttempt(s: seq<Attempt>, k: nat): seq<Attempt>
    requires k < |s|
  {
    s[..k] + s[k + 1..]
  }

  /** One step of the trip's runtime. */
  function Next(w: World, l: Label, maxAdvisoryBytes: nat): World {
    match l
    case Boot(b, room) => w.(trip := HandleBoot(w.trip, b, room))
    case Event(r, load) =>
      if w.trip.None? then w
      else
        var n := HandleEvent(w.trip.value, r, w.accepting, load, maxAdvisoryBytes);
        w.(trip := Some(n.0), outstanding := w.outstanding + n.1)
    case Finish(k, proposal, load) =>
      if k >= |w.outstanding| then w
      else if w.trip.None? then w.(outstanding := WithoutAttempt(w.outstanding, k))
      else
        var n := HandleFinish(w.trip.value, w.outstanding[k], proposal, w.accepting, load);
        w.(trip := Some(n.0), outstanding := WithoutAttempt(w.outstanding, k) + n.1)
    case Fail(k, load) =>
      if k >= |w.outstanding| then w
      else if w.trip.None? then w.(outstanding := WithoutAttempt(w.outstanding, k))
      else
        var n := HandleFinish(w.trip.value, w.outstanding[k], None, w.accepting, load);
        w.(trip := Some(n.0), outstanding := WithoutAttempt(w.outstanding, k) + n.1)
    case Lose(k) =>
      if k >= |w.outstanding| then w else w.(outstanding := WithoutAttempt(w.outstanding, k))
    case Close => w.(accepting := false)
    case _ => if w.trip.None? then w else w.(trip := HandleControl(w.trip.value, l))
  }

  /** The world after a run of steps from the start. */
  function Reach(labels: seq<Label>, maxAdvisoryBytes: nat): World {
    if labels == [] then EMPTY
    else Next(Reach(labels[..|labels| - 1], maxAdvisoryBytes), labels[|labels| - 1], maxAdvisoryBytes)
  }
}

/** The tasks a shard runs for a trip, updating it in place, and the steps of
    the runtime they carry out. */
module RuntimeTasks {
  import opened Domain
  import opened Proposals
  import opened TripEvents
  import opened TripStates
  import opened RuntimeVersions
  import opened EventCoordinator
  import opened TripRuntime

  class ActiveTrip {
    var state: TripState
    var owner: string
    const versions: TripRuntimeVersions
    var binding: Option<uint64>
    var deactivating: bool
    var running: bool
    var runningPriority: Priority
    var runningTrigger: Payload
    var pending: Option<Attempt>

    constructor (b: BootRequest, versions: TripRuntimeVersions)
      ensures this.versions == versions
      ensures Value() == Trip(b.state, b.owner, versions.Value(), b.binding, false, false, Normal, NoPayload, None)
    {
      this.versions := versions;
      state, owner, binding := b.state, b.owner, b.binding;
      deactivating, running, runningPriority, runningTrigger, pending := false, false, Normal, NoPayload, None;
    }

    function Value(): Trip
      reads this, versions
    {
      Trip(state, owner, versions.Value(), binding, deactivating, running, runningPriority, runningTrigger, pending)
    }

    predicate Valid()
      reads this, versions
    {
      versions.active && versions.Value().Valid()
    }

    /** Hands the attempt to the executors, if they take it. */
    method Dispatch(a: Attempt, load: Load) returns (started: seq<Attempt>)
      modifies this
      ensures (Value(), started) == DispatchPlanning(old(Value()), a, load)
    {
      if !load.completionReserved {
        return [];
      }
      running := true;
      runningPriority := a.priority;
      runningTrigger := a.seed.trigger;
      if !load.providerAccepts {
        running := false;
        return [];
      }
      started := [a];
    }

    method DispatchWaiting(accepting: bool, load: Load) returns (started: seq<Attempt>)
      modifies this
      ensures (Value(), started) == DispatchPending(old(Value()), accepting, load)
    {
      if !accepting || pending.None? {
        return [];
      }
      if pending.value.ordinary && !load.normalQueueEmpty {
        return [];
      }
      var a := pending.value;
      pending := None;
      started := Dispatch(a, load);
    }

    /** Starts the attempt, or leaves it as the one waiting request. */
    method Plan(a: Attempt, accepting: bool, load: Load) returns (started: seq<Attempt>)
      modifies this
      ensures (Value(), started) == Enqueue(old(Value()), a, accepting, load)
    {
      if !a.context.Valid() {
        return [];
      }
      var merged := a;
      if running {
        merged := Preserve(merged, runningPriority, runningTrigger);
        if pending.Some? {
          merged := Preserve(merged, pending.value.priority, pending.value.seed.trigger);
        }
        pending := Some(merged);
        return [];
      }
      if pending.Some? {
        merged := Preserve(merged, pending.value.priority, pending.value.seed.trigger);
        pending := Some(merged);
        started := DispatchWaiting(accepting, load);
        return;
      }
      started := Dispatch(merged, load);
    }

    method ApplyEvent(r: EventRequest, accepting: bool, load: Load, maxAdvisoryBytes: nat) returns (started: seq<Attempt>)
      requires Valid()
      modifies this, versions
      ensures Valid() && (Value(), started) == HandleEvent(old(Value()), r, accepting, load, maxAdvisoryBytes)
    {
      if deactivating {
        return [];
      }
      var p := r.admission.event.payload;
      var priority := p.PriorityFor(state.activities);
      var result;
      state, result := CoordinateEventAdmission(state, versions, r.admission, r.planning.currentTime, maxAdvisoryBytes);
      var seed := result.seed;
      if p.Refresh() && result.status.Admitted? && seed.None? {
        var token := versions.Value().Capture();
        if token.Some? {
          seed := Some(Seed(state, p, versions.snapshot, token.value));
        }
      }
      if p.OrdinaryObservation() && seed.Some? && !running && pending.None? {
        seed := None;
      }
      if p.Refresh() && seed.Some? && (running || pending.Some?) {
        seed := None;
      }
      if seed.None? {
        return [];
      }
      started := Plan(Attempt(seed.value, r.planning, priority, p.OrdinaryObservation()), accepting, load);
    }

    /** Bootstraps a trip that is already active. */
    method Rebootstrap(b: BootRequest)
      requires Valid() && Bootable(Some(Value()), b)
      modifies this, versions
      ensures Valid() && Some(Value()) == HandleBoot(Some(old(Value())), b, true)
    {
      var status := versions.Bootstrap(b.epoch, b.revision, b.finalized, b.observed);
      if status == Accepted {
        state, owner, binding := b.state, b.owner, b.binding;
        deactivating, pending := false, None;
      } else if status == Duplicate && b.binding.Some? {
        binding := b.binding;
      }
    }

    /** Marks the trip for deactivation; true if it may be erased now. */
    method Deactivate(epoch: uint64, finalSnapshot: bool) returns (erase: bool)
      requires Valid()
      modifies this
      ensures (if erase then None else Some(Value())) == HandleDeactivate(old(Value()), epoch, finalSnapshot)
    {
      if epoch != versions.snapshot.epoch {
        return false;
      }
      if finalSnapshot && !versions.Value().SnapshotReady() {
        return false;
      }
      if finalSnapshot {
        deactivating, pending := true, None;
        return false;
      }
      erase := true;
    }

    /** Puts a finished proposal on offer if the trip is still where it was computed. */
    method FinishPlanning(a: Attempt, proposal: Option<StoredProposal>, accepting: bool, load: Load) returns (started: seq<Attempt>)
      requires Valid()
      modifies this
      ensures Valid() && (Value(), started) == HandleFinish(old(Value()), a, proposal, accepting, load)
    {
      running := false;
      if versions.Value().CanCommit(a.seed.token) && proposal.Some? {
        var p := proposal.value.proposal;
        if p.sourceEpoch == a.seed.token.epoch && p.sourcePlannerVersion == a.seed.token.plannerVersion
           && p.basePlanId == state.plan.planId {
          var valid := CheckTripState(state);
          if valid && proposal.value.ValidFor(state.activities) {
            state := state.(proposal := proposal);
          }
        }
      }
      started := DispatchWaiting(accepting, load);
    }
  }

  /** The trip's place in its shard, and the attempts handed out for it. */
  class TripHost {
    var trip: ActiveTrip?
    var outstanding: seq<Attempt>
    var accepting: bool

    constructor ()
      ensures Valid() && Value() == EMPTY
    {
      trip, outstanding, accepting := null, [], true;
    }

    ghost function Repr(): set<object>
      reads this
    {
      {this} + if trip == null then {} else {trip, trip.versions}
    }

    ghost predicate Valid()
      reads this, Repr()
    {
      trip != null ==> trip.Valid()
    }

    ghost function Value(): World
      reads this, Repr()
    {
      World(if trip == null then None else Some(trip.Value()), outstanding, accepting)
    }

    method TryBootstrap(b: BootRequest, roomForTrip: bool, ghost maxAdvisoryBytes: nat)
      requires Valid()
      modifies Repr()
      ensures Valid() && fresh(Repr() - old(Repr())) && Value() == Next(old(Value()), Boot(b, roomForTrip), maxAdvisoryBytes)
    {
      if !b.state.Valid() || b.state.proposal.Some? {
        return;
      }
      var newer := trip == null || b.epoch > trip.versions.snapshot.epoch;
      if newer && (b.observed != 0 || b.state.observation.Present()) {
        return;
      }
      if trip != null {
        trip.Rebootstrap(b);
        return;
      }
      if !roomForTrip {
        return;
      }
      var versions := new TripRuntimeVersions();
      var status := versions.Bootstrap(b.epoch, b.revision, b.finalized, b.observed);
      if status == Accepted {
        trip := new ActiveTrip(b, versions);
      }
    }

    method TryApplyEvent(r: EventRequest, load: Load, maxAdvisoryBytes: nat)
      requires Valid()
      modifies Repr()
      ensures Valid() && Repr() == old(Repr()) && Value() == Next(old(Value()), Event(r, load), maxAdvisoryBytes)
    {
      if trip != null {
        var started := trip.ApplyEvent(r, accepting, load, maxAdvisoryBytes);
        outstanding := outstanding + started;
      }
    }

    method TryConfirmFinalized(epoch: uint64, sequence: uint64, ghost maxAdvisoryBytes: nat)
      requires Valid()
      modifies Repr()
      ensures Valid() && Repr() == old(Repr()) && Value() == Next(old(Value()), Confirm(epoch, sequence), maxAdvisoryBytes)
    {
      if trip != null {
        var status := trip.versions.ConfirmFinalized(epoch, sequence);
      }
    }

    method TryDeactivate(epoch: uint64, finalSnapshot: bool, ghost maxAdvisoryBytes: nat)
      requires Valid()
      modifies Repr()
      ensures Valid() && Repr() <= old(Repr())
      ensures Value() == Next(old(Value()), Label.Deactivate(epoch, finalSnapshot), maxAdvisoryBytes)
    {
      if trip != null {
        var erase := trip.Deactivate(epoch, finalSnapshot);
        if erase {
          trip := null;
        }
      }
    }

    method TryAbortDeactivation(epoch: uint64, ghost maxAdvisoryBytes: nat)
      requires Valid()
      modifies Repr()
      ensures Valid() && Repr() == old(Repr()) && Value() == Next(old(Value()), AbortDeactivation(epoch), maxAdvisoryBytes)
    {
      if trip != null && epoch == trip.versions.snapshot.epoch && trip.deactivating {
        trip.deactivating := false;
      }
    }

    method TryUnbind(epoch: uint64, stream: uint64, ghost maxAdvisoryBytes: nat)
      requires Valid()
      modifies Repr()
      ensures Valid() && Repr() == old(Repr()) && Value() == Next(old(Value()), Unbind(epoch, stream), maxAdvisoryBytes)
    {
      if trip != null && trip.versions.snapshot.epoch == epoch && trip.binding == Some(stream) {
        trip.binding := None;
        trip.pending := None;
      }
    }

    /** A completion reaches whatever trip now has the place, if any. */
    method Complete(k: nat, proposal: Option<StoredProposal>, load: Load, ghost maxAdvisoryBytes: nat)
      requires Valid() && k < |outstanding|
      modifies Repr()
      ensures Valid() && Repr() == old(Repr()) && Value() == Next(old(Value()), Finish(k, proposal, load), maxAdvisoryBytes)
      ensures proposal.None? ==> Value() == Next(old(Value()), Fail(k, load), maxAdvisoryBytes)
    {
      var a := outstanding[k];
      outstanding := outstanding[..k] + outstanding[k + 1..];
      if trip != null {
        var started := trip.FinishPlanning(a, proposal, accepting, load);
        outstanding := outstanding + started;
      }
    }
  }
}

/** The sequence numbers that order one active trip's work. */
module RuntimeVersions {
  import opened Domain

  datatype StaleReason = Epoch | MutationSequence | ObservationSequence | Revision | PlannerVersion | Proposal

  datatype Status = Accepted | Duplicate | Stale(reason: StaleReason) | InvalidArgument | Inactive

  datatype Snapshot = Snapshot(
    epoch: uint64,
    revision: uint64,
    plannerVersion: uint64,
    generation: uint64,
    accepted: uint64,      // mutation sequence
    finalized: uint64,     // mutation sequence
    observed: uint64)      // observation sequence

  /** What a planning attempt was started for. */
  datatype Token = Token(epoch: uint64, plannerVersion: uint64, generation: uint64)

  predicate CanIncrement(value: uint64) { value != UINT64_MAX }

  datatype Versions = Versions(active: bool, snapshot: Snapshot) {
    /** What every operation keeps. */
    predicate Valid() {
      active ==>
        && snapshot.epoch != 0 && snapshot.revision != 0
        && snapshot.finalized <= snapshot.accepted
        && snapshot.generation <= snapshot.plannerVersion
    }

    function CheckEpoch(epoch: uint64): Status {
      if !active then Inactive else if epoch != snapshot.epoch then Stale(Epoch) else Accepted
    }

    predicate Expected(plannerVersion: Option<uint64>) {
      plannerVersion.Some? ==> plannerVersion.value == snapshot.plannerVersion
    }

    /** Whether a durable command is the next one and was issued against what is current. */
    function CheckNext(epoch: uint64, sequence: uint64, revision: uint64, plannerVersion: Option<uint64>): Status {
      if CheckEpoch(epoch) != Accepted then CheckEpoch(epoch)
      else if sequence <= snapshot.accepted then Duplicate
      else if !CanIncrement(snapshot.accepted) || sequence != snapshot.accepted + 1 then Stale(MutationSequence)
      else if revision != snapshot.revision then Stale(Revision)
      else if !Expected(plannerVersion) then Stale(PlannerVersion)
      else Accepted
    }

    function PreviewDurable(epoch: uint64, sequence: uint64, revision: uint64, advancesRevision: bool,
                            plannerVersion: Option<uint64>, advancesGeneration: bool): Status
    {
      var next := CheckNext(epoch, sequence, revision, plannerVersion);
      if next != Accepted then next
      else if !CanIncrement(snapshot.plannerVersion)
              || (advancesGeneration && !CanIncrement(snapshot.generation))
              || (advancesRevision && !CanIncrement(snapshot.revision)) then InvalidArgument
      else Accepted
    }

    function PreviewAdvisory(epoch: uint64, sequence: uint64, plannerVersion: Option<uint64>): Status {
      if CheckEpoch(epoch) != Accepted then CheckEpoch(epoch)
      else if sequence <= snapshot.observed then Stale(ObservationSequence)
      else if !Expected(plannerVersion) then Stale(PlannerVersion)
      else Accepted
    }

    function PreviewObservation(epoch: uint64, sequence: uint64, plannerVersion: Option<uint64>, advancesGeneration: bool)
      : Status
    {
      var advisory := PreviewAdvisory(epoch, sequence, plannerVersion);
      if advisory != Accepted then advisory
      else if !CanIncrement(snapshot.plannerVersion) || (advancesGeneration && !CanIncrement(snapshot.generation))
      then InvalidArgument
      else Accepted
    }

    function Capture(): Option<Token> {
      if active then Some(Token(snapshot.epoch, snapshot.plannerVersion, snapshot.generation)) else None
    }

    predicate CanCommit(token: Token) {
      token.epoch != 0 && Capture() == Some(token)
    }

    predicate SnapshotReady() { active && snapshot.accepted == snapshot.finalized }
  }

  const DORMANT := Versions(false, Snapshot(0, 0, 0, 0, 0, 0, 0))

  function NewlyActive(epoch: uint64, revision: uint64, finalized: uint64, observed: uint64): Versions {
    Versions(true, Snapshot(epoch, revision, 0, 0, finalized, finalized, observed))
  }

  function CheckBootstrap(v: Versions, epoch: uint64, revision: uint64, finalized: uint64, observed: uint64): Status {
    if epoch == 0 || revision == 0 then InvalidArgument
    else if v.active && epoch < v.snapshot.epoch then Stale(Epoch)
    else if v.active && epoch == v.snapshot.epoch then
      if revision == v.snapshot.revision && finalized == v.snapshot.finalized && finalized == v.snapshot.accepted
         && observed == v.snapshot.observed
      then Duplicate else InvalidArgument
    else Accepted
  }

  function Bumped(s: Snapshot, advancesGeneration: bool): Snapshot
    requires CanIncrement(s.plannerVersion) && (advancesGeneration ==> CanIncrement(s.generation))
  {
    s.(plannerVersion := s.plannerVersion + 1, generation := if advancesGeneration then s.generation + 1 else s.generation)
  }

  class TripRuntimeVersions {
    var active: bool
    var snapshot: Snapshot

    constructor ()
      ensures Value() == DORMANT
    {
      active, snapshot := false, DORMANT.snapshot;
    }

    function Value(): Versions
      reads this
    {
      Versions(active, snapshot)
    }

    method Bootstrap(epoch: uint64, revision: uint64, finalized: uint64, observed: uint64) returns (r: Status)
      requires Value().Valid()
      modifies this
      ensures Value().Valid() && r == CheckBootstrap(old(Value()), epoch, revision, finalized, observed)
      ensures Value() == if r == Accepted then NewlyActive(epoch, revision, finalized, observed) else old(Value())
    {
      if epoch == 0 || revision == 0 {
        return InvalidArgument;
      }
      if active && epoch < snapshot.epoch {
        return Stale(Epoch);
      }
      if active && epoch == snapshot.epoch {
        if revision != snapshot.revision || finalized != snapshot.finalized || finalized != snapshot.accepted
           || observed < snapshot.observed {
          return InvalidArgument;
        }
        if observed != snapshot.observed {
          return InvalidArgument;
        }
        return Duplicate;
      }
      active := true;
      snapshot := Snapshot(epoch, revision, 0, 0, finalized, finalized, observed);
      r := Accepted;
    }

    method AcceptDurable(epoch: uint64, sequence: uint64, revision: uint64, advancesRevision: bool,
                         plannerVersion: Option<uint64>, advancesGeneration: bool) returns (r: Status)
      requires Value().Valid()
      modifies this
      ensures Value().Valid()
      ensures r == old(Value()).PreviewDurable(epoch, sequence, revision, advancesRevision, plannerVersion, advancesGeneration)
      ensures active == old(active)
      ensures snapshot == if r != Accepted then old(snapshot)
                          else Bumped(old(snapshot), advancesGeneration)
                               .(accepted := sequence, revision := if advancesRevision then revision + 1 else revision)
    {
      r := Value().PreviewDurable(epoch, sequence, revision, advancesRevision, plannerVersion, advancesGeneration);
      if r != Accepted {
        return;
      }
      snapshot := snapshot.(accepted := sequence);
      snapshot := snapshot.(plannerVersion := snapshot.plannerVersion + 1);
      if advancesGeneration {
        snapshot := snapshot.(generation := snapshot.generation + 1);
      }
      if advancesRevision {
        snapshot := snapshot.(revision := snapshot.revision + 1);
      }
    }

    /** A rejection that uses up its sequence number and nothing else. */
    method ResolveTerminal(epoch: uint64, sequence: uint64, revision: uint64, plannerVersion: Option<uint64>)
      returns (r: Status)
      requires Value().Valid()
      modifies this
      ensures Value().Valid() && r == old(Value()).CheckNext(epoch, sequence, revision, plannerVersion)
      ensures active == old(active)
      ensures snapshot == if r == Accepted then old(snapshot).(accepted := sequence) else old(snapshot)
    {
      r := Value().CheckEpoch(epoch);
      if r != Accepted {
        return;
      }
      if sequence <= snapshot.accepted {
        return Duplicate;
      }
      if !CanIncrement(snapshot.accepted) || sequence != snapshot.accepted + 1 {
        return Stale(MutationSequence);
      }
      if revision != snapshot.revision {
        return Stale(Revision);
      }
      if plannerVersion.Some? && plannerVersion.value != snapshot.plannerVersion {
        return Stale(PlannerVersion);
      }
      snapshot := snapshot.(accepted := sequence);
    }

    method AcceptObservation(epoch: uint64, sequence: uint64, plannerVersion: Option<uint64>, advancesGeneration: bool)
      returns (r: Status)
      requires Value().Valid()
      modifies this
      ensures Value().Valid() && r == old(Value()).PreviewObservation(epoch, sequence, plannerVersion, advancesGeneration)
      ensures active == old(active)
      ensures snapshot == if r == Accepted then Bumped(old(snapshot), advancesGeneration).(observed := sequence)
                          else old(snapshot)
    {
      r := Value().PreviewObservation(epoch, sequence, plannerVersion, advancesGeneration);
      if r != Accepted {
        return;
      }
      snapshot := snapshot.(observed := sequence);
      snapshot := snapshot.(plannerVersion := snapshot.plannerVersion + 1);
      if advancesGeneration {
        snapshot := snapshot.(generation := snapshot.generation + 1);
      }
    }

    method AcceptAdvisory(epoch: uint64, sequence: uint64, plannerVersion: Option<uint64>) returns (r: Status)
      requires Value().Valid()
      modifies this
      ensures Value().Valid() && r == old(Value()).PreviewAdvisory(epoch, sequence, plannerVersion)
      ensures active == old(active)
      ensures snapshot == if r == Accepted then old(snapshot).(observed := sequence) else old(snapshot)
    {
      r := Value().PreviewAdvisory(epoch, sequence, plannerVersion);
      if r == Accepted {
        snapshot := snapshot.(observed := sequence);
      }
    }

    method ConfirmFinalized(epoch: uint64, sequence: uint64) returns (r: Status)
      requires Value().Valid()
      modifies this
      ensures Value().Valid() && Value() == Confirmed(old(Value()), epoch, sequence).0
      ensures r == Confirmed(old(Value()), epoch, sequence).1
      ensures old(snapshot).finalized <= snapshot.finalized <= snapshot.accepted || !active
    {
      r := Value().CheckEpoch(epoch);
      if r != Accepted {
        return;
      }
      if sequence <= snapshot.finalized {
        return Duplicate;
      }
      if sequence > snapshot.accepted {
        return InvalidArgument;
      }
      snapshot := snapshot.(finalized := sequence);
    }
  }

  function Confirmed(v: Versions, epoch: uint64, sequence: uint64): (Versions, Status) {
    if v.CheckEpoch(epoch) != Accepted then (v, v.CheckEpoch(epoch))
    else if sequence <= v.snapshot.finalized then (v, Duplicate)
    else if sequence > v.snapshot.accepted then (v, InvalidArgument)
    else (v.(snapshot := v.snapshot.(finalized := sequence)), Accepted)
  }

  /** At the limits of the counters the generation never decides: it is out of
      numbers only when the planner version is. */
  lemma {:induction false} GenerationNeverRunsOutFirst(v: Versions)
    requires v.Valid() && v.active && CanIncrement(v.snapshot.plannerVersion)
    ensures CanIncrement(v.snapshot.generation)
  {
  }
}

/** How a trip comes to the shard and leaves it, and what its final snapshot may
    rely on. */
module Lifecycle {
  import opened Domain
  import opened Proposals
  import opened TripStates
  import opened RuntimeVersions
  import opened TripRuntime
  import opened RuntimeSteps
  import opened RuntimeOffers

  /** Once the final snapshot is asked for, every accepted command has been
      stored and no planning waits. */
  ghost predicate Settled(t: Trip) {
    t.deactivating ==> t.versions.snapshot.accepted == t.versions.snapshot.finalized && t.pending.None?
  }

  ghost predicate WorldSettled(w: World) { w.trip.Some? ==> Settled(w.trip.value) }

  // ----- coming and going -----

  lemma {:induction false} EventKeepsFlag(t: Trip, r: EventRequest, accepting: bool, load: Load, maxAdvisoryBytes: nat)
    ensures HandleEvent(t, r, accepting, load, maxAdvisoryBytes).0.deactivating == t.deactivating
    ensures t.deactivating ==> HandleEvent(t, r, accepting, load, maxAdvisoryBytes) == (t, [])
  {
  }

  lemma {:induction false} FinishKeepsFlag(t: Trip, a: Attempt, p: Option<StoredProposal>, accepting: bool, load: Load)
    ensures HandleFinish(t, a, p, accepting, load).0.deactivating == t.deactivating
    ensures t.pending.None? ==> HandleFinish(t, a, p, accepting, load).0.pending.None?
  {
  }

  /** A trip is erased only when that is asked for in its epoch. */
  lemma {:induction false} ErasedIff(w: World, l: Label, maxAdvisoryBytes: nat)
    requires w.trip.Some?
    ensures Next(w, l, maxAdvisoryBytes).trip.None? <==>
      l.Deactivate? && !l.finalSnapshot && l.epoch == w.trip.value.versions.snapshot.epoch
  {
  }

  /** It starts to wait for its end only when a final snapshot is asked for in its
      epoch with everything stored, and stops waiting only when that is called
      off in its epoch or a new epoch starts. */
  lemma {:induction false} WaitsIff(w: World, l: Label, maxAdvisoryBytes: nat)
    requires w.trip.Some? && Next(w, l, maxAdvisoryBytes).trip.Some?
    ensures var t, t' := w.trip.value, Next(w, l, maxAdvisoryBytes).trip.value; var v := t.versions;
      && (!t.deactivating ==> (t'.deactivating <==>
            l.Deactivate? && l.finalSnapshot && l.epoch == v.snapshot.epoch && v.active && v.snapshot.accepted == v.snapshot.finalized))
      && (t.deactivating ==> (!t'.deactivating <==>
            (l.AbortDeactivation? && l.epoch == v.snapshot.epoch) || StartsEpoch(w, l)))
  {
    match l {
      case Event(r, load) => EventKeepsFlag(w.trip.value, r, w.accepting, load, maxAdvisoryBytes);
      case Finish(k, p, load) =>
        if k < |w.outstanding| { FinishKeepsFlag(w.trip.value, w.outstanding[k], p, w.accepting, load); }
      case Fail(k, load) =>
        if k < |w.outstanding| { FinishKeepsFlag(w.trip.value, w.outstanding[k], None, w.accepting, load); }
      case _ =>
    }
  }

  // ----- nothing moves while it waits -----

  /** Neither what the planner reads nor the counters have moved. */
  ghost predicate StandsStill(t: Trip, t': Trip) { t'.state.Core() == t.state.Core() && t'.versions == t.versions }

  lemma {:induction false} SettledFinish(t: Trip, a: Attempt, p: Option<StoredProposal>, accepting: bool, load: Load)
    requires Settled(t)
    ensures var n := HandleFinish(t, a, p, accepting, load);
      Settled(n.0) && StandsStill(t, n.0) && (t.deactivating ==> n.1 == [])
  {
    FinishKeepsFlag(t, a, p, accepting, load);
    FinishLeaves(t, a, p, accepting, load);
  }

  lemma {:induction false} SettledControl(t: Trip, l: Label)
    requires Settled(t) && Sane(t) && IsControl(l) && HandleControl(t, l).Some?
    ensures var t' := HandleControl(t, l).value; Settled(t') && (t.deactivating ==> StandsStill(t, t'))
  {
  }

  lemma {:induction false} SettledStep(w: World, l: Label, maxAdvisoryBytes: nat)
    requires WorldSettled(w) && SaneWorld(w)
    ensures WorldSettled(Next(w, l, maxAdvisoryBytes))
    ensures var w' := Next(w, l, maxAdvisoryBytes);
      w.trip.Some? && w.trip.value.deactivating && w'.trip.Some? && w'.trip.value.deactivating ==>
        StandsStill(w.trip.value, w'.trip.value) && |w'.outstanding| <= |w.outstanding|
  {
    if w.trip.Some? {
      match l {
        case Event(r, load) => EventKeepsFlag(w.trip.value, r, w.accepting, load, maxAdvisoryBytes);
        case Finish(k, p, load) =>
          if k < |w.outstanding| { SettledFinish(w.trip.value, w.outstanding[k], p, w.accepting, load); }
        case Fail(k, load) =>
          if k < |w.outstanding| { SettledFinish(w.trip.value, w.outstanding[k], None, w.accepting, load); }
        case Boot(_, _) =>
        case Lose(_) =>
        case Close =>
        case _ => if HandleControl(w.trip.value, l).Some? { SettledControl(w.trip.value, l); }
      }
    }
  }

  /** After every run: a trip that waits for its end has everything stored, and
      the next step, whatever it is, changes neither what the planner reads nor
      the counters unless it ends the wait; nor does it hand out planning. */
  lemma {:induction false} FinalSnapshotHolds(labels: seq<Label>, next: Label, maxAdvisoryBytes: nat)
    ensures var w := Reach(labels, maxAdvisoryBytes); var w' := Next(w, next, maxAdvisoryBytes);
      && WorldSettled(w)
      && (w.trip.Some? && w.trip.value.deactivating && w'.trip.Some? && w'.trip.value.deactivating ==>
            StandsStill(w.trip.value, w'.trip.value) && |w'.outstanding| <= |w.outstanding|)
  {
    RunIsSettled(labels, maxAdvisoryBytes);
    OffersAreCurrent(labels, maxAdvisoryBytes);
    SettledStep(Reach(labels, maxAdvisoryBytes), next, maxAdvisoryBytes);
  }

  lemma {:induction false} RunIsSettled(labels: seq<Label>, maxAdvisoryBytes: nat)
    ensures WorldSettled(Reach(labels, maxAdvisoryBytes))
  {
    if labels != [] {
      var front := labels[..|labels| - 1];
      RunIsSettled(front, maxAdvisoryBytes);
      OffersAreCurrent(front, maxAdvisoryBytes);
      SettledStep(Reach(front, maxAdvisoryBytes), labels[|labels| - 1], maxAdvisoryBytes);
    }
  }

  // ----- starting -----

  /** A valid trip without proposal or observation, in an epoch of its own. */
  ghost predicate MayStart(w: World, b: BootRequest, room: bool) {
    && b.state.Valid() && b.state.proposal.None? && b.epoch != 0 && b.revision != 0 && b.observed == 0
    && b.state.observation == Observation(None, None, None, None)
    && (if w.trip.None? then room else b.epoch > w.trip.value.versions.snapshot.epoch)
  }

  lemma {:induction false} StartsIff(w: World, b: BootRequest, room: bool)
    requires SaneWorld(w)
    ensures Starts(w, b, room) <==> MayStart(w, b, room)
  {
  }

  /** The bootstrap says again what the trip was started with and has stored since. */
  ghost predicate SaysAgain(t: Trip, b: BootRequest) {
    var v := t.versions.snapshot;
    && b.state.Valid() && b.state.proposal.None?
    && b.epoch == v.epoch && b.revision == v.revision && b.observed == v.observed && b.finalized == v.finalized == v.accepted
  }

  /** The trip as it starts: counters at zero, all that is stored accepted. */
  ghost predicate IsNewTrip(t: Trip, b: BootRequest) {
    && t.state == b.state && t.owner == b.owner && t.binding == b.binding && t.versions.active
    && t.versions.snapshot == Snapshot(b.epoch, b.revision, 0, 0, b.finalized, b.finalized, 0)
    && t.pending.None? && !t.deactivating
  }

  /** What a bootstrap does: start an epoch, or bind the trip it repeats, or nothing. */
  lemma {:induction false} BootTells(w: World, l: Label, maxAdvisoryBytes: nat)
    requires l.Boot? && SaneWorld(w)
    ensures var w', b := Next(w, l, maxAdvisoryBytes), l.boot;
      && w'.outstanding == w.outstanding && w'.accepting == w.accepting
      && if MayStart(w, b, l.roomForTrip) then
           w'.trip.Some? && IsNewTrip(w'.trip.value, b) && (w'.trip.value.running <==> w.trip.Some? && w.trip.value.running)
         else if w.trip.Some? && SaysAgain(w.trip.value, b) && b.binding.Some? then
           w'.trip == Some(w.trip.value.(binding := b.binding))
         else w'.trip == w.trip
  {
    StartsIff(w, l.boot, l.roomForTrip);
  }

  // ----- storing and unbinding -----

  /** A confirmation counts if it is of the epoch, new, and of an accepted command. */
  lemma {:induction false} ConfirmTells(w: World, l: Label, maxAdvisoryBytes: nat)
    requires l.Confirm? && w.trip.Some? && SaneWorld(w)
    ensures var t := w.trip.value; var v := t.versions.snapshot;
      Next(w, l, maxAdvisoryBytes) ==
        if l.epoch == v.epoch && v.finalized < l.sequence <= v.accepted
        then w.(trip := Some(t.(versions := Versions(true, v.(finalized := l.sequence))))) else w
  {
  }

  /** Unbinding the trip's own stream also lets no planning wait. */
  lemma {:induction false} UnbindTells(w: World, l: Label, maxAdvisoryBytes: nat)
    requires l.Unbind? && w.trip.Some?
    ensures Next(w, l, maxAdvisoryBytes) ==
      if l.epoch == w.trip.value.versions.snapshot.epoch && w.trip.value.binding == Some(l.stream)
      then w.(trip := Some(w.trip.value.(binding := None, pending := None))) else w
  {
  }
}

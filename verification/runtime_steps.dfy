/** What the steps of a trip's runtime do to its state and its versions. */
module RuntimeSteps {
  import opened Domain
  import opened Proposals
  import opened TripEvents
  import opened TripStates
  import opened TripStateTheorems
  import opened RuntimeVersions
  import opened EventCoordinator
  import opened TripRuntime

  // ----- what one admission does -----

  /** Nothing the planner reads changed. */
  predicate Still(s: TripState, v: Versions, s': TripState, v': Versions, result: CoordinatorResult) {
    s' == s && v'.Capture() == v.Capture() && result.seed.None?
  }

  /** The planner version moved on by one and the proposal on offer is gone. */
  predicate Moves(v: Versions, s': TripState, v': Versions, result: CoordinatorResult, p: Payload) {
    && p.PlanningInput() && v'.snapshot.plannerVersion == v.snapshot.plannerVersion + 1 && s'.proposal.None?
    && v'.Capture().Some? && result.seed == Some(Seed(s', p, v'.snapshot, v'.Capture().value))
  }

  /** Every planning input starts a generation, so the two numbers are one. */
  predicate InStep(v: Versions) { v.snapshot.generation == v.snapshot.plannerVersion }

  predicate Effect(s: TripState, v: Versions, s': TripState, v': Versions, result: CoordinatorResult, p: Payload) {
    && s'.Valid() && v'.Valid() && v'.active && v'.snapshot.epoch == v.snapshot.epoch && (InStep(v) ==> InStep(v'))
    && (Still(s, v, s', v', result) || Moves(v, s', v', result, p))
  }

  lemma {:induction false} AdvancedIsValid(v: Versions, r: Request)
    requires v.Valid() && v.active && r.event.payload.Class().Some? && Preview(v, r) == Accepted
    ensures Advanced(v, r).Valid() && Advanced(v, r).active && Advanced(v, r).snapshot.epoch == v.snapshot.epoch
    ensures r.event.payload.PlanningInput() ==> Advanced(v, r).snapshot.plannerVersion == v.snapshot.plannerVersion + 1
    ensures !r.event.payload.PlanningInput() ==> Advanced(v, r).Capture() == v.Capture()
    ensures InStep(v) ==> InStep(Advanced(v, r))
  {
  }

  lemma {:induction false} UsedUpIsValid(v: Versions, r: Request)
    requires v.Valid() && v.active && r.event.payload.Class().Some? && Preview(v, r) == Accepted
    ensures UsedUp(v, r).Valid() && UsedUp(v, r).active && UsedUp(v, r).Capture() == v.Capture()
    ensures UsedUp(v, r).snapshot.epoch == v.snapshot.epoch
  {
  }

  lemma {:induction false} AdmittedEffect(s: TripState, v: Versions, r: Request, after: TripState)
    requires v.Valid() && v.active && WellNumbered(r) && Preview(v, r) == Accepted
    requires after.Valid() && if r.event.payload.PlanningInput() then after.proposal.None? else after == s
    ensures Effect(s, v, after, Advanced(v, r), AdmittedResult(after, Advanced(v, r), r), r.event.payload)
  {
    AdvancedIsValid(v, r);
  }

  lemma {:induction false} RefusedEffect(s: TripState, v: Versions, r: Request, status: Admission)
    requires v.Valid() && v.active && WellNumbered(r) && Preview(v, r) == Accepted && s.Valid()
    ensures Effect(s, v, s, UsedUp(v, r), Refusal(status, UsedUp(v, r)), r.event.payload)
  {
    UsedUpIsValid(v, r);
  }

  lemma {:induction false} SettledEffect(s: TripState, v: Versions, r: Request, now: int64, verdict: Outcome, after: TripState)
    requires s.Valid() && v.Valid() && v.active
    requires verdict.Applied? ==> after.Valid() && if r.event.payload.PlanningInput() then after.proposal.None? else after == s
    ensures var c := Settle(s, v, r, now, verdict, after); Effect(s, v, c.0, c.1, c.2, r.event.payload)
  {
    if WellNumbered(r) && Preview(v, r) == Accepted {
      if IsExpired(r, now) {
        RefusedEffect(s, v, r, Expired);
      } else {
        match verdict {
          case Invalid => RefusedEffect(s, v, r, BadRequest);
          case StaleProposal => RefusedEffect(s, v, r, OutOfDate(Proposal));
          case Applied => AdmittedEffect(s, v, r, after);
        }
      }
    }
  }

  lemma {:induction false} AdmissionEffect(s: TripState, v: Versions, r: Request, now: int64, maxAdvisoryBytes: nat)
    requires s.Valid() && v.Valid() && v.active
    ensures var c := Coordinate(s, v, r, now, maxAdvisoryBytes); Effect(s, v, c.0, c.1, c.2, r.event.payload)
  {
    AppliedEventLeaves(s, r.event, maxAdvisoryBytes);
    SettledEffect(s, v, r, now, Verdict(s, r.event, maxAdvisoryBytes), After(s, r.event, maxAdvisoryBytes));
  }

  // ----- what holds of a trip -----

  /** The proposal on offer was computed from the current epoch and planner
      version, and for the current plan. */
  predicate OfferCurrent(t: Trip) {
    t.state.proposal.Some? ==>
      var p := t.state.proposal.value.proposal;
      && p.sourceEpoch == t.versions.snapshot.epoch && p.sourcePlannerVersion == t.versions.snapshot.plannerVersion
      && p.basePlanId == t.state.plan.planId
  }

  predicate Sane(t: Trip) {
    t.state.Valid() && t.versions.Valid() && t.versions.active && InStep(t.versions) && OfferCurrent(t)
  }

  /** Same planner version and same core, or the next planner version. */
  predicate StepsTo(t: Trip, t': Trip) {
    var v, v' := t.versions.snapshot, t'.versions.snapshot;
    && v'.epoch == v.epoch
    && ((v'.plannerVersion == v.plannerVersion && t'.state.Core() == t.state.Core())
        || v'.plannerVersion == v.plannerVersion + 1)
  }

  predicate SeededBy(seed: Seed, s: TripState, v: Versions) {
    seed.state == s && Some(seed.token) == v.Capture() && seed.source == v.snapshot
  }

  lemma {:induction false} AdmittedTripIsSane(t: Trip, s': TripState, v': Versions, result: CoordinatorResult, p: Payload)
    requires Sane(t) && Effect(t.state, t.versions, s', v', result, p)
    ensures Sane(t.(state := s', versions := v')) && StepsTo(t, t.(state := s', versions := v'))
    ensures result.seed.Some? ==> SeededBy(result.seed.value, s', v')
  {
  }

  lemma {:induction false} CommittedTripIsSane(t: Trip, a: Attempt, p: StoredProposal)
    requires Sane(t) && Commits(t, a, p)
    ensures Sane(t.(state := t.state.(proposal := Some(p))))
  {
  }

  /** A control request changes neither the state nor the planner version. */
  lemma {:induction false} ControlLeaves(t: Trip, l: Label)
    requires IsControl(l) && t.versions.Valid() && HandleControl(t, l).Some?
    ensures var t' := HandleControl(t, l).value;
      && t'.state == t.state && t'.versions.Capture() == t.versions.Capture() && t'.versions.Valid()
      && (t'.pending.None? || t'.pending == t.pending)
  {
  }

  // ----- bootstraps -----

  /** The bootstrap starts an epoch. */
  predicate Starts(w: World, b: BootRequest, room: bool) {
    && Bootable(w.trip, b)
    && if w.trip.None? then room && CheckBootstrap(DORMANT, b.epoch, b.revision, b.finalized, b.observed) == Accepted
       else CheckBootstrap(w.trip.value.versions, b.epoch, b.revision, b.finalized, b.observed) == Accepted
  }

  lemma {:induction false} BootMeans(w: World, b: BootRequest, room: bool)
    ensures var t := HandleBoot(w.trip, b, room);
      if Starts(w, b, room) then
        && t.Some? && t.value.state == b.state && t.value.versions == NewlyActive(b.epoch, b.revision, b.finalized, b.observed)
        && t.value.pending.None? && !t.value.deactivating && b.state.Valid() && b.state.proposal.None? && b.epoch != 0
        && (w.trip.Some? && w.trip.value.versions.active ==> b.epoch > w.trip.value.versions.snapshot.epoch)
        && (w.trip.None? || w.trip.value.versions.active ==> b.observed == 0)
      else t == w.trip || (w.trip.Some? && t == Some(w.trip.value.(binding := b.binding)))
  {
  }

  // ----- more steps -----

  /** The world after some more steps. */
  function Follow(w: World, labels: seq<Label>, maxAdvisoryBytes: nat): World {
    if labels == [] then w
    else Next(Follow(w, labels[..|labels| - 1], maxAdvisoryBytes), labels[|labels| - 1], maxAdvisoryBytes)
  }

  lemma {:induction false} FollowReach(run: seq<Label>, labels: seq<Label>, maxAdvisoryBytes: nat)
    ensures Reach(run + labels, maxAdvisoryBytes) == Follow(Reach(run, maxAdvisoryBytes), labels, maxAdvisoryBytes)
  {
    var all := run + labels;
    if labels == [] {
      assert all == run;
    } else {
      assert all[..|all| - 1] == run + labels[..|labels| - 1];
      FollowReach(run, labels[..|labels| - 1], maxAdvisoryBytes);
    }
  }

  predicate StartsEpoch(w: World, l: Label) { l.Boot? && Starts(w, l.boot, l.roomForTrip) }

  /** None of the steps starts an epoch. */
  predicate Quiet(w: World, labels: seq<Label>, maxAdvisoryBytes: nat) {
    labels != [] ==>
      var front := labels[..|labels| - 1];
      Quiet(w, front, maxAdvisoryBytes) && !StartsEpoch(Follow(w, front, maxAdvisoryBytes), labels[|labels| - 1])
  }
}

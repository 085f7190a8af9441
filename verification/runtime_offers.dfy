/** What is on offer and what the traveller is following, in every run. */
module RuntimeOffers {
  import opened Domain
  import opened Proposals
  import opened TripEvents
  import opened TripStates
  import opened TripStateTheorems
  import opened RuntimeVersions
  import opened EventCoordinator
  import opened TripRuntime
  import opened RuntimeSteps

  predicate SaneWorld(w: World) { w.trip.Some? ==> Sane(w.trip.value) }

  lemma {:induction false} DispatchLeaves(t: Trip, accepting: bool, load: Load)
    ensures var n := DispatchPending(t, accepting, load); n.0.state == t.state && n.0.versions == t.versions
  {
  }

  lemma {:induction false} EnqueueLeaves(t: Trip, a: Attempt, accepting: bool, load: Load)
    ensures var n := Enqueue(t, a, accepting, load); n.0.state == t.state && n.0.versions == t.versions
  {
    if t.pending.Some? {
      DispatchLeaves(t.(pending := Some(Preserve(a, t.pending.value.priority, t.pending.value.seed.trigger))), accepting, load);
    }
  }

  /** A completion changes at most the proposal on offer. */
  lemma {:induction false} FinishLeaves(t: Trip, a: Attempt, proposal: Option<StoredProposal>, accepting: bool, load: Load)
    ensures var n := HandleFinish(t, a, proposal, accepting, load).0;
      && n.versions == t.versions
      && n.state == if proposal.Some? && Commits(t, a, proposal.value) then t.state.(proposal := proposal) else t.state
  {
    DispatchLeaves(t.(running := false), accepting, load);
    DispatchLeaves(t.(running := false, state := t.state.(proposal := proposal)), accepting, load);
  }

  /** What a completion leaves of the trip. */
  lemma {:induction false} FinishOutcome(w: World, k: nat, p: Option<StoredProposal>, load: Load, maxAdvisoryBytes: nat)
    requires w.trip.Some? && k < |w.outstanding|
    ensures var after := Next(w, Finish(k, p, load), maxAdvisoryBytes);
      && after.trip.Some?
      && after.trip.value.state == if p.Some? && Commits(w.trip.value, w.outstanding[k], p.value)
                                   then w.trip.value.state.(proposal := p) else w.trip.value.state
  {
    FinishLeaves(w.trip.value, w.outstanding[k], p, w.accepting, load);
  }

  /** Planning for an event never touches the state the event left. */
  lemma {:induction false} EventLeaves(t: Trip, r: EventRequest, accepting: bool, load: Load, maxAdvisoryBytes: nat)
    ensures var n := HandleEvent(t, r, accepting, load, maxAdvisoryBytes).0;
      var c := Coordinate(t.state, t.versions, r.admission, r.planning.currentTime, maxAdvisoryBytes);
      if t.deactivating then n == t else n.state == c.0 && n.versions == c.1
  {
    if !t.deactivating {
      var c := Coordinate(t.state, t.versions, r.admission, r.planning.currentTime, maxAdvisoryBytes);
      AdmissionLeaves(t.(state := c.0, versions := c.1), c.2, r, r.admission.event.payload.PriorityFor(t.state.activities),
                      accepting, load);
    }
  }

  lemma {:induction false} AdmissionLeaves(t: Trip, result: CoordinatorResult, r: EventRequest, priority: Priority,
                                           accepting: bool, load: Load)
    ensures var n := AfterAdmission(t, result, r, priority, accepting, load).0; n.state == t.state && n.versions == t.versions
  {
    var p := r.admission.event.payload;
    var seed := SeedFor(t, result, p);
    if seed.Some? {
      EnqueueLeaves(t, Attempt(seed.value, r.planning, priority, p.OrdinaryObservation()), accepting, load);
    }
  }

  lemma {:induction false} SaneEvent(t: Trip, r: EventRequest, accepting: bool, load: Load, maxAdvisoryBytes: nat)
    requires Sane(t)
    ensures Sane(HandleEvent(t, r, accepting, load, maxAdvisoryBytes).0)
  {
    EventLeaves(t, r, accepting, load, maxAdvisoryBytes);
    if !t.deactivating {
      var c := Coordinate(t.state, t.versions, r.admission, r.planning.currentTime, maxAdvisoryBytes);
      AdmissionEffect(t.state, t.versions, r.admission, r.planning.currentTime, maxAdvisoryBytes);
      AdmittedTripIsSane(t, c.0, c.1, c.2, r.admission.event.payload);
    }
  }

  lemma {:induction false} SaneFinish(t: Trip, a: Attempt, proposal: Option<StoredProposal>, accepting: bool, load: Load)
    requires Sane(t)
    ensures Sane(HandleFinish(t, a, proposal, accepting, load).0)
  {
    if proposal.Some? && Commits(t, a, proposal.value) {
      CommittedTripIsSane(t, a, proposal.value);
      DispatchLeaves(t.(running := false, state := t.state.(proposal := proposal)), accepting, load);
    } else {
      DispatchLeaves(t.(running := false), accepting, load);
    }
  }

  lemma {:induction false} SaneBoot(trip: Option<Trip>, b: BootRequest, room: bool)
    requires trip.Some? ==> Sane(trip.value)
    ensures HandleBoot(trip, b, room).Some? ==> Sane(HandleBoot(trip, b, room).value)
  {
  }

  lemma {:induction false} SaneControl(t: Trip, l: Label)
    requires Sane(t) && IsControl(l)
    ensures HandleControl(t, l).Some? ==> Sane(HandleControl(t, l).value)
  {
    if HandleControl(t, l).Some? {
      ControlLeaves(t, l);
    }
  }

  lemma {:induction false} SaneStep(w: World, l: Label, maxAdvisoryBytes: nat)
    requires SaneWorld(w)
    ensures SaneWorld(Next(w, l, maxAdvisoryBytes))
  {
    match l {
      case Boot(b, room) => SaneBoot(w.trip, b, room);
      case Event(r, load) => if w.trip.Some? { SaneEvent(w.trip.value, r, w.accepting, load, maxAdvisoryBytes); }
      case Finish(k, proposal, load) =>
        if w.trip.Some? && k < |w.outstanding| { SaneFinish(w.trip.value, w.outstanding[k], proposal, w.accepting, load); }
      case Fail(k, load) =>
        if w.trip.Some? && k < |w.outstanding| { SaneFinish(w.trip.value, w.outstanding[k], None, w.accepting, load); }
      case Lose(_) =>
      case Close =>
      case _ => if w.trip.Some? { SaneControl(w.trip.value, l); }
    }
  }

  /** In every reachable state the trip is valid, and a proposal on offer has
      the current epoch, planner version and plan. */
  lemma {:induction false} OffersAreCurrent(labels: seq<Label>, maxAdvisoryBytes: nat)
    ensures SaneWorld(Reach(labels, maxAdvisoryBytes))
  {
    if labels != [] {
      OffersAreCurrent(labels[..|labels| - 1], maxAdvisoryBytes);
      SaneStep(Reach(labels[..|labels| - 1], maxAdvisoryBytes), labels[|labels| - 1], maxAdvisoryBytes);
    }
  }

  // ----- who may change the plan -----

  /** An admitted edit or replacement by the traveller, or their acceptance of
      the very proposal on offer. */
  ghost predicate UserChangedPlan(t: Trip, r: EventRequest, maxAdvisoryBytes: nat) {
    var p := r.admission.event.payload;
    && !t.deactivating && p.ChangesPlan()
    && Coordinate(t.state, t.versions, r.admission, r.planning.currentTime, maxAdvisoryBytes).2.status.Admitted?
    && (p.PlanDecision? ==> p.accept && t.state.proposal.Some? && MatchesProposal(t.state.proposal.value, p))
  }

  lemma {:induction false} AdmissionChangesPlan(s: TripState, v: Versions, r: Request, now: int64, maxAdvisoryBytes: nat)
    requires Coordinate(s, v, r, now, maxAdvisoryBytes).0.plan != s.plan
    ensures Coordinate(s, v, r, now, maxAdvisoryBytes).2.status.Admitted? && r.event.payload.ChangesPlan()
    ensures r.event.payload.PlanDecision? ==>
      r.event.payload.accept && s.proposal.Some? && MatchesProposal(s.proposal.value, r.event.payload)
  {
    AppliedEventLeaves(s, r.event, maxAdvisoryBytes);
  }

  lemma {:induction false} FinishKeepsPlan(t: Trip, a: Attempt, proposal: Option<StoredProposal>, accepting: bool, load: Load)
    ensures HandleFinish(t, a, proposal, accepting, load).0.state.plan == t.state.plan
  {
    FinishLeaves(t, a, proposal, accepting, load);
  }

  /** The current plan changes only by the traveller's own admitted command or
      by a bootstrap in a newer epoch; a planning completion never changes it. */
  lemma {:induction false} PlanChangesOnlyBy(w: World, l: Label, maxAdvisoryBytes: nat)
    requires SaneWorld(w) && w.trip.Some? && Next(w, l, maxAdvisoryBytes).trip.Some?
    requires Next(w, l, maxAdvisoryBytes).trip.value.state.plan != w.trip.value.state.plan
    ensures (l.Event? && UserChangedPlan(w.trip.value, l.request, maxAdvisoryBytes))
            || (l.Boot? && l.boot.epoch > w.trip.value.versions.snapshot.epoch)
  {
    var t := w.trip.value;
    match l {
      case Boot(b, room) =>
      case Event(r, load) =>
        EventLeaves(t, r, w.accepting, load, maxAdvisoryBytes);
        AdmissionChangesPlan(t.state, t.versions, r.admission, r.planning.currentTime, maxAdvisoryBytes);
      case Finish(k, proposal, load) =>
        if k < |w.outstanding| { FinishKeepsPlan(t, w.outstanding[k], proposal, w.accepting, load); }
      case Fail(k, load) =>
        if k < |w.outstanding| { FinishKeepsPlan(t, w.outstanding[k], None, w.accepting, load); }
      case Lose(_) =>
      case Close =>
      case _ => ControlLeaves(t, l);
    }
  }
}

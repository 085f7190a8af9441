/** At most one planning attempt runs per trip, and what waits behind it is
    current and keeps the highest priority it was asked for with. */
module RuntimeCoalescing {
  import opened Domain
  import opened Proposals
  import opened TripEvents
  import opened TripStates
  import opened RuntimeVersions
  import opened EventCoordinator
  import opened TripRuntime
  import opened RuntimeSteps
  import opened RuntimeOffers

  /** A reason to plan: the running attempt's, or a coalesced event's. */
  datatype Claim = Claim(priority: Priority, trigger: Payload)

  /** The request carries one of the claims, and none of them outranks it. */
  predicate Leads(a: Attempt, claims: seq<Claim>) {
    && Claim(a.priority, a.seed.trigger) in claims
    && forall c | c in claims :: a.priority.Rank() <= c.priority.Rank()
  }

  /** The waiting request was seeded with the trip's current token and state. */
  predicate Current(a: Attempt, t: Trip) {
    Some(a.seed.token) == t.versions.Capture() && a.seed.state.Core() == t.state.Core()
  }

  /** At most one attempt is out, and the trip knows which. */
  predicate OneAttempt(w: World) {
    && |w.outstanding| <= 1
    && (w.outstanding != [] ==>
          && w.trip.Some? && w.trip.value.running
          && w.trip.value.runningPriority == w.outstanding[0].priority
          && w.trip.value.runningTrigger == w.outstanding[0].seed.trigger)
  }

  predicate Waiting(t: Trip, claims: seq<Claim>) {
    t.pending.Some? ==> Current(t.pending.value, t) && Leads(t.pending.value, claims)
  }

  predicate Orderly(w: World, claims: seq<Claim>) {
    OneAttempt(w) && (w.trip.Some? ==> Waiting(w.trip.value, claims))
  }

  /** Events come with valid planning contexts, and the trip is not erased
      while an attempt is out. */
  predicate Calm(w: World, l: Label, maxAdvisoryBytes: nat) {
    && (l.Event? ==> l.request.planning.Valid())
    && (w.trip.Some? && Next(w, l, maxAdvisoryBytes).trip.None? ==> w.outstanding == [])
  }

  // ----- merging -----

  lemma {:induction false} PreserveLeads(a: Attempt, claims: seq<Claim>, priority: Priority, trigger: Payload, more: seq<Claim>)
    requires Leads(a, claims)
    requires Claim(priority, trigger) in more && forall c | c in more :: priority.Rank() <= c.priority.Rank()
    ensures Leads(Preserve(a, priority, trigger), more + claims)
  {
    var b := Preserve(a, priority, trigger);
    assert Claim(b.priority, b.seed.trigger) in more + claims;
    forall c | c in more + claims ensures b.priority.Rank() <= c.priority.Rank() {
      assert c in more || c in claims;
    }
  }

  /** The claims behind a request merged by an event with this claim. */
  function Merged(claims: seq<Claim>, t: Trip, own: Claim): seq<Claim> {
    (if t.pending.Some? then claims else [])
    + ((if t.running then [Claim(t.runningPriority, t.runningTrigger)] else []) + [own])
  }

  function OwnClaim(a: Attempt): Claim { Claim(a.priority, a.seed.trigger) }

  /** What the request becomes once merged with the running attempt and the waiting request. */
  function MergedAttempt(t: Trip, a: Attempt): Attempt {
    var b := if t.running then Preserve(a, t.runningPriority, t.runningTrigger) else a;
    if t.pending.Some? then Preserve(b, t.pending.value.priority, t.pending.value.seed.trigger) else b
  }

  /** What runs or waits claims no higher priority. */
  predicate NotOutranked(t: Trip, a: Attempt) {
    && (t.running ==> a.priority.Rank() <= t.runningPriority.Rank())
    && (t.pending.Some? ==> a.priority.Rank() <= t.pending.value.priority.Rank())
  }

  lemma {:induction false} MergedLeads(t: Trip, a: Attempt, claims: seq<Claim>)
    requires t.pending.Some? ==> Leads(t.pending.value, claims)
    ensures Leads(MergedAttempt(t, a), Merged(claims, t, OwnClaim(a)))
    ensures MergedAttempt(t, a).seed.token == a.seed.token && MergedAttempt(t, a).seed.state == a.seed.state
    ensures NotOutranked(t, a) ==> MergedAttempt(t, a) == a
  {
    var own := [OwnClaim(a)];
    assert Leads(a, own);
    var b := if t.running then Preserve(a, t.runningPriority, t.runningTrigger) else a;
    var recent := (if t.running then [Claim(t.runningPriority, t.runningTrigger)] else []) + own;
    assert Leads(b, recent) by {
      if t.running {
        PreserveLeads(a, own, t.runningPriority, t.runningTrigger, [Claim(t.runningPriority, t.runningTrigger)]);
      } else {
        assert recent == own;
      }
    }
    if t.pending.Some? {
      PreserveLeads(b, recent, t.pending.value.priority, t.pending.value.seed.trigger, claims);
    } else {
      assert Merged(claims, t, OwnClaim(a)) == recent;
    }
  }

  // ----- dispatching -----

  /** A dispatch from an idle trip leaves at most one attempt out and keeps what waits. */
  lemma {:induction false} DispatchIsOrderly(t: Trip, accepting: bool, load: Load, claims: seq<Claim>)
    requires Waiting(t, claims)
    ensures var n := DispatchPending(t, accepting, load);
      Waiting(n.0, claims) && (!t.running ==> OneAttempt(World(Some(n.0), n.1, accepting)))
  {
  }

  lemma {:induction false} EnqueueIsOrderly(w: World, t: Trip, a: Attempt, load: Load, claims: seq<Claim>)
    requires OneAttempt(w.(trip := Some(t))) && a.context.Valid() && Current(a, t)
    requires t.pending.Some? ==> Leads(t.pending.value, claims)
    ensures var n := Enqueue(t, a, w.accepting, load);
      Orderly(w.(trip := Some(n.0), outstanding := w.outstanding + n.1), Merged(claims, t, OwnClaim(a)))
  {
    MergedLeads(t, a, claims);
    var merged := t.(pending := Some(MergedAttempt(t, a)));
    if !t.running {
      assert w.outstanding == [];
      DispatchIsOrderly(merged, w.accepting, load, Merged(claims, t, OwnClaim(a)));
    }
  }

  // ----- steps -----

  lemma {:induction false} AdmissionIsOrderly(w: World, s': TripState, v': Versions, result: CoordinatorResult, r: EventRequest,
                                              priority: Priority, load: Load, claims: seq<Claim>)
    requires w.trip.Some? && Orderly(w, claims) && r.planning.Valid() && w.trip.value.versions.active
    requires Effect(w.trip.value.state, w.trip.value.versions, s', v', result, r.admission.event.payload)
    ensures var u := w.trip.value.(state := s', versions := v');
      var n := AfterAdmission(u, result, r, priority, w.accepting, load);
      var p := r.admission.event.payload;
      Orderly(w.(trip := Some(n.0), outstanding := w.outstanding + n.1),
              if SeedFor(u, result, p).Some? then Merged(claims, u, Claim(priority, p)) else claims)
  {
    var t := w.trip.value;
    var u := t.(state := s', versions := v');
    var p := r.admission.event.payload;
    var seed := SeedFor(u, result, p);
    SeedIsCurrent(t, s', v', result, p, claims);
    if seed.Some? {
      EnqueueIsOrderly(w, u, Attempt(seed.value, r.planning, priority, p.OrdinaryObservation()), load, claims);
    } else {
      assert w.outstanding + [] == w.outstanding;
    }
  }

  /** What an admission plans with is current; if it plans nothing, what waits still is. */
  lemma {:induction false} SeedIsCurrent(t: Trip, s': TripState, v': Versions, result: CoordinatorResult, p: Payload, claims: seq<Claim>)
    requires Waiting(t, claims) && Effect(t.state, t.versions, s', v', result, p)
    ensures var u := t.(state := s', versions := v');
      var seed := SeedFor(u, result, p);
      if seed.Some? then SeededBy(seed.value, s', v') && seed.value.trigger == p else Waiting(u, claims)
  {
  }

  /** The claims behind what waits, after a step. */
  function Claims(claims: seq<Claim>, w: World, l: Label, maxAdvisoryBytes: nat): seq<Claim> {
    if !l.Event? || w.trip.None? || w.trip.value.deactivating then claims
    else
      var t, r, p := w.trip.value, l.request.admission, l.request.admission.event.payload;
      var c := Coordinate(t.state, t.versions, r, l.request.planning.currentTime, maxAdvisoryBytes);
      var u := t.(state := c.0, versions := c.1);
      if SeedFor(u, c.2, p).Some? then Merged(claims, u, Claim(p.PriorityFor(t.state.activities), p)) else claims
  }

  lemma {:induction false} EventIsOrderly(w: World, l: Label, claims: seq<Claim>, maxAdvisoryBytes: nat)
    requires l.Event? && SaneWorld(w) && w.trip.Some? && Orderly(w, claims) && l.request.planning.Valid()
    ensures Orderly(Next(w, l, maxAdvisoryBytes), Claims(claims, w, l, maxAdvisoryBytes))
  {
    var t, r := w.trip.value, l.request.admission;
    if t.deactivating {
      assert w.outstanding + [] == w.outstanding;
    } else {
      var c := Coordinate(t.state, t.versions, r, l.request.planning.currentTime, maxAdvisoryBytes);
      AdmissionEffect(t.state, t.versions, r, l.request.planning.currentTime, maxAdvisoryBytes);
      AdmissionIsOrderly(w, c.0, c.1, c.2, l.request, r.event.payload.PriorityFor(t.state.activities), l.load, claims);
    }
  }

  lemma {:induction false} FinishIsOrderly(w: World, k: nat, proposal: Option<StoredProposal>, load: Load, claims: seq<Claim>)
    requires w.trip.Some? && k < |w.outstanding| && Orderly(w, claims)
    ensures var n := HandleFinish(w.trip.value, w.outstanding[k], proposal, w.accepting, load);
      Orderly(w.(trip := Some(n.0), outstanding := WithoutAttempt(w.outstanding, k) + n.1), claims)
  {
    var t, a := w.trip.value, w.outstanding[k];
    var idle := t.(running := false);
    var u := if proposal.Some? && Commits(t, a, proposal.value) then idle.(state := t.state.(proposal := proposal)) else idle;
    assert Waiting(u, claims);
    DispatchIsOrderly(u, w.accepting, load, claims);
    var n := DispatchPending(u, w.accepting, load);
    assert WithoutAttempt(w.outstanding, k) + n.1 == n.1;
  }

  lemma {:induction false} BootIsOrderly(w: World, b: BootRequest, room: bool, claims: seq<Claim>)
    requires Orderly(w, claims)
    ensures Orderly(w.(trip := HandleBoot(w.trip, b, room)), claims)
  {
  }

  lemma {:induction false} ControlIsOrderly(w: World, l: Label, claims: seq<Claim>)
    requires IsControl(l) && w.trip.Some? && w.trip.value.versions.Valid() && Orderly(w, claims)
    requires HandleControl(w.trip.value, l).None? ==> w.outstanding == []
    ensures Orderly(w.(trip := HandleControl(w.trip.value, l)), claims)
  {
    var t := w.trip.value;
    if HandleControl(t, l).Some? {
      ControlLeaves(t, l);
      var t' := HandleControl(t, l).value;
      assert t'.running == t.running && t'.runningPriority == t.runningPriority && t'.runningTrigger == t.runningTrigger;
    }
  }

  lemma {:induction false} CompletionIsOrderly(w: World, l: Label, claims: seq<Claim>, maxAdvisoryBytes: nat)
    requires Orderly(w, claims) && (l.Finish? || l.Fail? || l.Lose?) && l.k < |w.outstanding|
    ensures Orderly(Next(w, l, maxAdvisoryBytes), claims)
  {
    assert WithoutAttempt(w.outstanding, l.k) == [];
    if w.trip.Some? && !l.Lose? {
      FinishIsOrderly(w, l.k, if l.Finish? then l.proposal else None, l.load, claims);
    }
  }

  lemma {:induction false} OtherStepIsOrderly(w: World, l: Label, claims: seq<Claim>, maxAdvisoryBytes: nat)
    requires SaneWorld(w) && Orderly(w, claims) && Calm(w, l, maxAdvisoryBytes)
    requires l.Boot? || l.Close? || IsControl(l)
    ensures Orderly(Next(w, l, maxAdvisoryBytes), claims)
  {
    if l.Boot? {
      BootIsOrderly(w, l.boot, l.roomForTrip, claims);
    } else if IsControl(l) && w.trip.Some? {
      ControlIsOrderly(w, l, claims);
    }
  }

  lemma {:induction false} StepIsOrderly(w: World, l: Label, claims: seq<Claim>, maxAdvisoryBytes: nat)
    requires SaneWorld(w) && Orderly(w, claims) && Calm(w, l, maxAdvisoryBytes)
    ensures Orderly(Next(w, l, maxAdvisoryBytes), Claims(claims, w, l, maxAdvisoryBytes))
  {
    if l.Event? {
      if w.trip.Some? { EventIsOrderly(w, l, claims, maxAdvisoryBytes); }
    } else if l.Finish? || l.Fail? || l.Lose? {
      if l.k < |w.outstanding| { CompletionIsOrderly(w, l, claims, maxAdvisoryBytes); }
    } else {
      OtherStepIsOrderly(w, l, claims, maxAdvisoryBytes);
    }
  }

  // ----- whole runs -----

  ghost predicate AllCalm(labels: seq<Label>, maxAdvisoryBytes: nat) {
    labels != [] ==>
      var front := labels[..|labels| - 1];
      AllCalm(front, maxAdvisoryBytes) && Calm(Reach(front, maxAdvisoryBytes), labels[|labels| - 1], maxAdvisoryBytes)
  }

  function ClaimsOf(labels: seq<Label>, maxAdvisoryBytes: nat): seq<Claim> {
    if labels == [] then []
    else
      var front := labels[..|labels| - 1];
      Claims(ClaimsOf(front, maxAdvisoryBytes), Reach(front, maxAdvisoryBytes), labels[|labels| - 1], maxAdvisoryBytes)
  }

  /** In every calm run at most one attempt is out; what waits behind it has the
      current token and state, and the highest priority among the attempt that
      was running and everything coalesced since. */
  lemma {:induction false} RunIsOrderly(labels: seq<Label>, maxAdvisoryBytes: nat)
    requires AllCalm(labels, maxAdvisoryBytes)
    ensures Orderly(Reach(labels, maxAdvisoryBytes), ClaimsOf(labels, maxAdvisoryBytes))
  {
    if labels != [] {
      var front := labels[..|labels| - 1];
      RunIsOrderly(front, maxAdvisoryBytes);
      OffersAreCurrent(front, maxAdvisoryBytes);
      StepIsOrderly(Reach(front, maxAdvisoryBytes), labels[|labels| - 1], ClaimsOf(front, maxAdvisoryBytes), maxAdvisoryBytes);
    }
  }
}

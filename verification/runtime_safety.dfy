/** Which runs never put a planning result on a state it was not computed from,
    and what every attempt carries in every run. */
module RuntimeSafety {
  import opened Domain
  import opened Proposals
  import opened TripEvents
  import opened TripStates
  import opened RuntimeVersions
  import opened EventCoordinator
  import opened TripRuntime
  import opened RuntimeSteps
  import opened RuntimeOffers

  // ----- attempts -----

  /** The attempt has what planning asks for, and its token names the versions
      it was seeded at. */
  predicate Ready(a: Attempt) {
    var v := a.seed.source;
    && a.context.Valid() && a.seed.state.Valid() && v.epoch != 0 && v.revision != 0
    && a.seed.token == Token(v.epoch, v.plannerVersion, v.plannerVersion)
  }

  /** The attempt is out of date for the rest of the epoch, or was computed from
      the present state. */
  predicate Answers(a: Attempt, s: TripState, v: Snapshot) {
    a.seed.token.epoch == v.epoch ==>
      && a.seed.token.plannerVersion <= v.plannerVersion
      && (a.seed.token.plannerVersion == v.plannerVersion ==> a.seed.state.Core() == s.Core())
  }

  ghost const EVERY := iset a: Attempt | true
  ghost const NONE: iset<Attempt> := iset{}

  /** What is kept of an attempt: it is ready and from an epoch there has been,
      and unless it is excused it answers for the trip. */
  ghost predicate Good(a: Attempt, trip: Option<Trip>, excused: iset<Attempt>, top: nat) {
    && Ready(a) && a.seed.token.epoch <= top
    && (a !in excused && trip.Some? ==> Answers(a, trip.value.state, trip.value.versions.snapshot))
  }

  ghost predicate AllGood(attempts: seq<Attempt>, trip: Option<Trip>, excused: iset<Attempt>, top: nat) {
    forall k | 0 <= k < |attempts| :: Good(attempts[k], trip, excused, top)
  }

  ghost predicate PendingGood(t: Trip, excused: iset<Attempt>, top: nat) {
    t.pending.Some? ==> Good(t.pending.value, Some(t), excused, top)
  }

  lemma {:induction false} DispatchKeeps(t: Trip, accepting: bool, load: Load, excused: iset<Attempt>, top: nat)
    requires PendingGood(t, excused, top)
    ensures var n := DispatchPending(t, accepting, load);
      PendingGood(n.0, excused, top) && AllGood(n.1, Some(n.0), excused, top)
  {
  }

  lemma {:induction false} EnqueueKeeps(t: Trip, a: Attempt, accepting: bool, load: Load, excused: iset<Attempt>, top: nat)
    requires PendingGood(t, excused, top) && (a.context.Valid() ==> Good(a, Some(t), NONE, top))
    ensures var n := Enqueue(t, a, accepting, load);
      PendingGood(n.0, excused, top) && AllGood(n.1, Some(n.0), excused, top)
  {
    if a.context.Valid() && !t.running && t.pending.Some? {
      DispatchKeeps(t.(pending := Some(Preserve(a, t.pending.value.priority, t.pending.value.seed.trigger))), accepting, load,
                    excused, top);
    }
  }

  /** What the admitted state plans with is the admitted state. */
  lemma {:induction false} AdmissionKeeps(t: Trip, result: CoordinatorResult, r: EventRequest, priority: Priority, accepting: bool,
                                          load: Load, excused: iset<Attempt>, top: nat)
    requires Sane(t) && t.versions.snapshot.epoch <= top && PendingGood(t, excused, top)
    requires result.seed.Some? ==> SeededBy(result.seed.value, t.state, t.versions)
    ensures var n := AfterAdmission(t, result, r, priority, accepting, load);
      PendingGood(n.0, excused, top) && AllGood(n.1, Some(n.0), excused, top)
  {
    var seed := SeedFor(t, result, r.admission.event.payload);
    if seed.Some? {
      assert SeededBy(seed.value, t.state, t.versions);
      EnqueueKeeps(t, Attempt(seed.value, r.planning, priority, r.admission.event.payload.OrdinaryObservation()),
                   accepting, load, excused, top);
    }
  }

  lemma {:induction false} MoveKeeps(attempts: seq<Attempt>, t: Trip, t': Trip, excused: iset<Attempt>, top: nat)
    requires StepsTo(t, t') && AllGood(attempts, Some(t), excused, top)
    ensures AllGood(attempts, Some(t'), excused, top)
  {
    forall k | 0 <= k < |attempts| ensures Good(attempts[k], Some(t'), excused, top) {
      assert Good(attempts[k], Some(t), excused, top);
    }
  }

  lemma {:induction false} RestGood(attempts: seq<Attempt>, k: nat, more: seq<Attempt>, trip: Option<Trip>, excused: iset<Attempt>, top: nat)
    requires k < |attempts| && AllGood(attempts, trip, excused, top) && AllGood(more, trip, excused, top)
    ensures AllGood(WithoutAttempt(attempts, k) + more, trip, excused, top)
  {
  }

  // ----- what every step keeps -----

  function Top(top: nat, w: World): nat {
    if w.trip.None? then top else Max(top, w.trip.value.versions.snapshot.epoch)
  }

  ghost predicate Safe(w: World, excused: iset<Attempt>, top: nat) {
    && (w.trip.Some? ==> w.trip.value.versions.snapshot.epoch <= top && PendingGood(w.trip.value, excused, top))
    && AllGood(w.outstanding, w.trip, excused, top)
  }

  /** The attempt is of the epoch to be started, and was not computed from the
      very state it starts in, at planner version zero. */
  predicate Unfit(a: Attempt, b: BootRequest) {
    a.seed.token.epoch == b.epoch && !(a.seed.token.plannerVersion == 0 && a.seed.state.Core() == b.state.Core())
  }

  /** If the step starts an epoch, no attempt still out is unfit for it. */
  predicate FitStart(w: World, l: Label) {
    StartsEpoch(w, l) ==>
      forall k | 0 <= k < |w.outstanding| :: !Unfit(w.outstanding[k], l.boot)
  }

  /** If the step starts an epoch, every attempt still out that is unfit for it is excused. */
  ghost predicate FitExcept(w: World, l: Label, excused: iset<Attempt>) {
    StartsEpoch(w, l) ==> forall k | 0 <= k < |w.outstanding| && Unfit(w.outstanding[k], l.boot) :: w.outstanding[k] in excused
  }

  lemma {:induction false} BootStep(w: World, b: BootRequest, room: bool, excused: iset<Attempt>, top: nat)
    requires SaneWorld(w) && Safe(w, excused, top) && FitExcept(w, Boot(b, room), excused)
    ensures var w' := w.(trip := HandleBoot(w.trip, b, room)); Safe(w', excused, Top(top, w'))
  {
    BootMeans(w, b, room);
    var t' := HandleBoot(w.trip, b, room);
    var w' := w.(trip := t');
    forall k | 0 <= k < |w.outstanding| ensures Good(w.outstanding[k], t', excused, Top(top, w')) {
      assert Good(w.outstanding[k], w.trip, excused, top);
    }
  }

  lemma {:induction false} EventStep(w: World, r: EventRequest, load: Load, maxAdvisoryBytes: nat, excused: iset<Attempt>, top: nat)
    requires w.trip.Some? && Sane(w.trip.value) && Safe(w, excused, top)
    ensures Safe(Next(w, Event(r, load), maxAdvisoryBytes), excused, top)
  {
    var t := w.trip.value;
    if t.deactivating {
      assert w.outstanding + [] == w.outstanding;
    } else {
      var c := Coordinate(t.state, t.versions, r.admission, r.planning.currentTime, maxAdvisoryBytes);
      AdmissionEffect(t.state, t.versions, r.admission, r.planning.currentTime, maxAdvisoryBytes);
      AdmissionStep(w, c.0, c.1, c.2, r, r.admission.event.payload.PriorityFor(t.state.activities), load, excused, top);
    }
  }

  lemma {:induction false} AdmissionStep(w: World, s': TripState, v': Versions, result: CoordinatorResult, r: EventRequest,
                                         priority: Priority, load: Load, excused: iset<Attempt>, top: nat)
    requires w.trip.Some? && Sane(w.trip.value) && Safe(w, excused, top)
    requires Effect(w.trip.value.state, w.trip.value.versions, s', v', result, r.admission.event.payload)
    ensures var n := AfterAdmission(w.trip.value.(state := s', versions := v'), result, r, priority, w.accepting, load);
      Safe(w.(trip := Some(n.0), outstanding := w.outstanding + n.1), excused, top)
  {
    var t := w.trip.value;
    var u := t.(state := s', versions := v');
    AdmittedTripIsSane(t, s', v', result, r.admission.event.payload);
    AdmissionKeeps(u, result, r, priority, w.accepting, load, excused, top);
    AdmissionLeaves(u, result, r, priority, w.accepting, load);
    MoveKeeps(w.outstanding, t, AfterAdmission(u, result, r, priority, w.accepting, load).0, excused, top);
  }

  lemma {:induction false} FinishStep(w: World, k: nat, proposal: Option<StoredProposal>, load: Load, excused: iset<Attempt>, top: nat)
    requires w.trip.Some? && k < |w.outstanding| && Safe(w, excused, top)
    ensures var n := HandleFinish(w.trip.value, w.outstanding[k], proposal, w.accepting, load);
      Safe(w.(trip := Some(n.0), outstanding := WithoutAttempt(w.outstanding, k) + n.1), excused, top)
  {
    var t := w.trip.value;
    var n := HandleFinish(t, w.outstanding[k], proposal, w.accepting, load);
    var idle := t.(running := false);
    DispatchKeeps(idle, w.accepting, load, excused, top);
    DispatchKeeps(idle.(state := t.state.(proposal := proposal)), w.accepting, load, excused, top);
    FinishLeaves(t, w.outstanding[k], proposal, w.accepting, load);
    MoveKeeps(w.outstanding, t, n.0, excused, top);
    RestGood(w.outstanding, k, n.1, Some(n.0), excused, top);
  }

  lemma {:induction false} CompletionStep(w: World, l: Label, maxAdvisoryBytes: nat, excused: iset<Attempt>, top: nat)
    requires (l.Finish? || l.Fail? || l.Lose?) && l.k < |w.outstanding| && Safe(w, excused, top)
    ensures Safe(Next(w, l, maxAdvisoryBytes), excused, top)
  {
    RestGood(w.outstanding, l.k, [], w.trip, excused, top);
    assert WithoutAttempt(w.outstanding, l.k) + [] == WithoutAttempt(w.outstanding, l.k);
    if w.trip.Some? && !l.Lose? {
      FinishStep(w, l.k, if l.Finish? then l.proposal else None, l.load, excused, top);
    }
  }

  lemma {:induction false} ControlStep(w: World, l: Label, excused: iset<Attempt>, top: nat)
    requires w.trip.Some? && Sane(w.trip.value) && Safe(w, excused, top) && IsControl(l)
    ensures Safe(w.(trip := HandleControl(w.trip.value, l)), excused, top)
  {
    var t := w.trip.value;
    if HandleControl(t, l).Some? {
      ControlLeaves(t, l);
      MoveKeeps(w.outstanding, t, HandleControl(t, l).value, excused, top);
    }
  }

  lemma {:induction false} SafeAbove(w: World, excused: iset<Attempt>, top: nat, higher: nat)
    requires Safe(w, excused, top) && top <= higher
    ensures Safe(w, excused, higher)
  {
  }

  /** Every step keeps the invariant. */
  lemma {:induction false} SafeStep(w: World, l: Label, maxAdvisoryBytes: nat, excused: iset<Attempt>, top: nat)
    requires SaneWorld(w) && Safe(w, excused, top) && FitExcept(w, l, excused)
    ensures Safe(Next(w, l, maxAdvisoryBytes), excused, Top(top, Next(w, l, maxAdvisoryBytes)))
  {
    if l.Boot? {
      BootStep(w, l.boot, l.roomForTrip, excused, top);
    } else {
      if l.Event? && w.trip.Some? {
        EventStep(w, l.request, l.load, maxAdvisoryBytes, excused, top);
      } else if (l.Finish? || l.Fail? || l.Lose?) && l.k < |w.outstanding| {
        CompletionStep(w, l, maxAdvisoryBytes, excused, top);
      } else if IsControl(l) && w.trip.Some? {
        ControlStep(w, l, excused, top);
      }
      SafeAbove(Next(w, l, maxAdvisoryBytes), excused, top, Top(top, Next(w, l, maxAdvisoryBytes)));
    }
  }

  // ----- whole runs -----

  /** The greatest epoch the trip has ever been in. */
  function TopEpoch(labels: seq<Label>, maxAdvisoryBytes: nat): nat {
    if labels == [] then 0
    else Top(TopEpoch(labels[..|labels| - 1], maxAdvisoryBytes), Reach(labels, maxAdvisoryBytes))
  }

  /** Every start of an epoch in the run is fit. */
  ghost predicate StartsFit(labels: seq<Label>, maxAdvisoryBytes: nat) {
    labels != [] ==>
      var front := labels[..|labels| - 1];
      StartsFit(front, maxAdvisoryBytes) && FitStart(Reach(front, maxAdvisoryBytes), labels[|labels| - 1])
  }

  lemma {:induction false} RunIsSafe(labels: seq<Label>, maxAdvisoryBytes: nat, excused: iset<Attempt>)
    requires excused == EVERY || StartsFit(labels, maxAdvisoryBytes)
    ensures Safe(Reach(labels, maxAdvisoryBytes), excused, TopEpoch(labels, maxAdvisoryBytes))
  {
    if labels != [] {
      var front, last := labels[..|labels| - 1], labels[|labels| - 1];
      RunIsSafe(front, maxAdvisoryBytes, excused);
      OffersAreCurrent(front, maxAdvisoryBytes);
      SafeStep(Reach(front, maxAdvisoryBytes), last, maxAdvisoryBytes, excused, TopEpoch(front, maxAdvisoryBytes));
    }
  }

  /** In every run, every attempt that is out is ready to be planned. */
  lemma {:induction false} AttemptsAreReady(labels: seq<Label>, k: nat, maxAdvisoryBytes: nat)
    requires k < |Reach(labels, maxAdvisoryBytes).outstanding|
    ensures Ready(Reach(labels, maxAdvisoryBytes).outstanding[k])
  {
    RunIsSafe(labels, maxAdvisoryBytes, EVERY);
    var w := Reach(labels, maxAdvisoryBytes);
    assert Good(w.outstanding[k], w.trip, EVERY, TopEpoch(labels, maxAdvisoryBytes));
  }

  /** No stale commit: in every run whose starts are fit, a completion that
      changes the trip puts its proposal on exactly the state it was computed
      from. */
  lemma {:induction false} NoStaleCommit(labels: seq<Label>, l: Label, maxAdvisoryBytes: nat)
    requires StartsFit(labels, maxAdvisoryBytes)
    requires var w := Reach(labels, maxAdvisoryBytes);
      && l.Finish? && w.trip.Some? && l.k < |w.outstanding|
      && Next(w, l, maxAdvisoryBytes).trip.Some?
      && Next(w, l, maxAdvisoryBytes).trip.value.state != w.trip.value.state
    ensures var w := Reach(labels, maxAdvisoryBytes);
      && w.outstanding[l.k].seed.state.Core() == w.trip.value.state.Core()
      && Next(w, l, maxAdvisoryBytes).trip.value.state == w.trip.value.state.(proposal := l.proposal)
  {
    var w := Reach(labels, maxAdvisoryBytes);
    RunIsSafe(labels, maxAdvisoryBytes, NONE);
    FinishLeaves(w.trip.value, w.outstanding[l.k], l.proposal, w.accepting, l.load);
    assert Good(w.outstanding[l.k], w.trip, NONE, TopEpoch(labels, maxAdvisoryBytes));
  }

  // ----- runs whose epochs grow -----

  /** A trip that was erased is started again only in a newer epoch. */
  predicate EpochGrows(w: World, l: Label, top: nat) {
    l.Boot? && w.trip.None? ==> l.boot.epoch > top
  }

  ghost predicate EpochsGrow(labels: seq<Label>, maxAdvisoryBytes: nat) {
    labels != [] ==>
      var front := labels[..|labels| - 1];
      && EpochsGrow(front, maxAdvisoryBytes)
      && EpochGrows(Reach(front, maxAdvisoryBytes), labels[|labels| - 1], TopEpoch(front, maxAdvisoryBytes))
  }

  /** Every state the trip has been in, by epoch and planner version. */
  type Ledger = map<(uint64, uint64), TripState>

  function Key(t: Trip): (uint64, uint64) { (t.versions.snapshot.epoch, t.versions.snapshot.plannerVersion) }

  function Record(seen: Ledger, w: World): Ledger {
    if w.trip.None? then seen else seen[Key(w.trip.value) := w.trip.value.state.Core()]
  }

  predicate Extends(seen: Ledger, more: Ledger) {
    forall k | k in seen :: k in more && more[k] == seen[k]
  }

  /** The trip is at the newest key of the ledger. */
  predicate AtTop(seen: Ledger, t: Trip, top: nat) {
    && t.versions.snapshot.epoch == top && Key(t) in seen && seen[Key(t)] == t.state.Core()
    && forall k | k in seen && k.0 == top :: k.1 <= t.versions.snapshot.plannerVersion
  }

  predicate LedgerOk(seen: Ledger, trip: Option<Trip>, top: nat) {
    (forall k | k in seen :: k.0 <= top) && (trip.Some? ==> AtTop(seen, trip.value, top))
  }

  lemma {:induction false} RecordMove(seen: Ledger, top: nat, w: World, w': World)
    requires w.trip.Some? && w'.trip.Some? && LedgerOk(seen, w.trip, top) && StepsTo(w.trip.value, w'.trip.value)
    ensures LedgerOk(Record(seen, w'), w'.trip, Top(top, w')) && Extends(seen, Record(seen, w'))
  {
  }

  lemma {:induction false} RecordStart(seen: Ledger, top: nat, w: World, w': World)
    requires w'.trip.Some? && LedgerOk(seen, w.trip, top) && w'.trip.value.versions.snapshot.epoch > top
    ensures LedgerOk(Record(seen, w'), w'.trip, Top(top, w')) && Extends(seen, Record(seen, w'))
  {
  }

  /** How a step moves the trip. */
  lemma {:induction false} StepMoves(w: World, l: Label, maxAdvisoryBytes: nat)
    requires SaneWorld(w) && Next(w, l, maxAdvisoryBytes).trip.Some?
    ensures var t' := Next(w, l, maxAdvisoryBytes).trip.value;
      if l.Boot? && Starts(w, l.boot, l.roomForTrip) then
        && t'.versions.snapshot.epoch == l.boot.epoch
        && (w.trip.Some? ==> l.boot.epoch > w.trip.value.versions.snapshot.epoch)
      else w.trip.Some? && StepsTo(w.trip.value, t')
  {
    match l {
      case Boot(b, room) => BootMeans(w, b, room);
      case Event(r, load) => EventMoves(w.trip.value, r, w.accepting, load, maxAdvisoryBytes);
      case Finish(k, proposal, load) =>
        if k < |w.outstanding| { FinishLeaves(w.trip.value, w.outstanding[k], proposal, w.accepting, load); }
      case Fail(k, load) =>
        if k < |w.outstanding| { FinishLeaves(w.trip.value, w.outstanding[k], None, w.accepting, load); }
      case Lose(_) =>
      case Close =>
      case _ => ControlLeaves(w.trip.value, l);
    }
  }

  lemma {:induction false} EventMoves(t: Trip, r: EventRequest, accepting: bool, load: Load, maxAdvisoryBytes: nat)
    requires Sane(t)
    ensures StepsTo(t, HandleEvent(t, r, accepting, load, maxAdvisoryBytes).0)
  {
    EventLeaves(t, r, accepting, load, maxAdvisoryBytes);
    AdmissionEffect(t.state, t.versions, r.admission, r.planning.currentTime, maxAdvisoryBytes);
  }

  ghost function Seen(labels: seq<Label>, maxAdvisoryBytes: nat): Ledger {
    if labels == [] then map[]
    else Record(Seen(labels[..|labels| - 1], maxAdvisoryBytes), Reach(labels, maxAdvisoryBytes))
  }

  lemma {:induction false} LedgerStep(seen: Ledger, top: nat, w: World, l: Label, maxAdvisoryBytes: nat)
    requires SaneWorld(w) && LedgerOk(seen, w.trip, top) && EpochGrows(w, l, top)
    ensures var w' := Next(w, l, maxAdvisoryBytes);
      LedgerOk(Record(seen, w'), w'.trip, Top(top, w')) && Extends(seen, Record(seen, w'))
  {
    var w' := Next(w, l, maxAdvisoryBytes);
    if w'.trip.Some? {
      StepMoves(w, l, maxAdvisoryBytes);
      if l.Boot? && Starts(w, l.boot, l.roomForTrip) {
        RecordStart(seen, top, w, w');
      } else {
        RecordMove(seen, top, w, w');
      }
    }
  }

  lemma {:induction false} LedgerOfRun(labels: seq<Label>, maxAdvisoryBytes: nat)
    requires EpochsGrow(labels, maxAdvisoryBytes)
    ensures LedgerOk(Seen(labels, maxAdvisoryBytes), Reach(labels, maxAdvisoryBytes).trip, TopEpoch(labels, maxAdvisoryBytes))
    ensures labels != [] ==> Extends(Seen(labels[..|labels| - 1], maxAdvisoryBytes), Seen(labels, maxAdvisoryBytes))
  {
    if labels != [] {
      var front, last := labels[..|labels| - 1], labels[|labels| - 1];
      LedgerOfRun(front, maxAdvisoryBytes);
      OffersAreCurrent(front, maxAdvisoryBytes);
      LedgerStep(Seen(front, maxAdvisoryBytes), TopEpoch(front, maxAdvisoryBytes), Reach(front, maxAdvisoryBytes), last, maxAdvisoryBytes);
    }
  }

  lemma {:induction false} SeenOnlyGrows(labels: seq<Label>, i: nat, maxAdvisoryBytes: nat)
    requires EpochsGrow(labels, maxAdvisoryBytes) && i <= |labels|
    ensures EpochsGrow(labels[..i], maxAdvisoryBytes)
    ensures Extends(Seen(labels[..i], maxAdvisoryBytes), Seen(labels, maxAdvisoryBytes))
  {
    if i == |labels| {
      assert labels[..i] == labels;
    } else {
      var front := labels[..|labels| - 1];
      assert front[..i] == labels[..i];
      SeenOnlyGrows(front, i, maxAdvisoryBytes);
      LedgerOfRun(labels, maxAdvisoryBytes);
    }
  }

  /** Equal epoch and planner version mean equal state, however far apart in a
      run the two moments are: what planning reads cannot have changed. */
  lemma {:induction false} SameVersionSameState(labels: seq<Label>, i: nat, maxAdvisoryBytes: nat)
    requires EpochsGrow(labels, maxAdvisoryBytes) && i <= |labels|
    requires Reach(labels[..i], maxAdvisoryBytes).trip.Some? && Reach(labels, maxAdvisoryBytes).trip.Some?
    requires Key(Reach(labels[..i], maxAdvisoryBytes).trip.value) == Key(Reach(labels, maxAdvisoryBytes).trip.value)
    ensures Reach(labels[..i], maxAdvisoryBytes).trip.value.state.Core() == Reach(labels, maxAdvisoryBytes).trip.value.state.Core()
  {
    SeenOnlyGrows(labels, i, maxAdvisoryBytes);
    LedgerOfRun(labels[..i], maxAdvisoryBytes);
    LedgerOfRun(labels, maxAdvisoryBytes);
  }

  /** A run whose epochs grow starts nothing unfit. */
  lemma {:induction false} GrowingEpochsFit(labels: seq<Label>, maxAdvisoryBytes: nat)
    requires EpochsGrow(labels, maxAdvisoryBytes)
    ensures StartsFit(labels, maxAdvisoryBytes)
  {
    if labels != [] {
      var front, last := labels[..|labels| - 1], labels[|labels| - 1];
      GrowingEpochsFit(front, maxAdvisoryBytes);
      OffersAreCurrent(front, maxAdvisoryBytes);
      RunIsSafe(front, maxAdvisoryBytes, EVERY);
      LedgerOfRun(front, maxAdvisoryBytes);
      GrowingEpochFits(Reach(front, maxAdvisoryBytes), last, TopEpoch(front, maxAdvisoryBytes), Seen(front, maxAdvisoryBytes));
    }
  }

  lemma {:induction false} GrowingEpochFits(w: World, l: Label, top: nat, seen: Ledger)
    requires SaneWorld(w) && Safe(w, EVERY, top) && LedgerOk(seen, w.trip, top) && EpochGrows(w, l, top)
    ensures FitStart(w, l)
  {
    if l.Boot? && Starts(w, l.boot, l.roomForTrip) {
      BootMeans(w, l.boot, l.roomForTrip);
      forall k | 0 <= k < |w.outstanding| ensures w.outstanding[k].seed.token.epoch < l.boot.epoch {
        assert Good(w.outstanding[k], w.trip, EVERY, top);
      }
    }
  }
}

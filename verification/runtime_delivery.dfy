/** Events take effect exactly once within an epoch, whatever is delivered
    twice, late or out of order. */
module RuntimeDelivery {
  import opened Domain
  import opened Proposals
  import opened TripStates
  import opened RuntimeVersions
  import opened EventCoordinator
  import opened TripRuntime
  import opened RuntimeSteps
  import opened RuntimeOffers

  // ----- one admission -----

  ghost predicate DurableRequest(r: Request) { r.event.payload.Class().Some? && IsDurable(r.event.payload.Class().value) }

  /** A command or observation whose number has been used is answered and ignored. */
  lemma {:induction false} RedeliveryIsIgnored(s: TripState, v: Versions, r: Request, now: int64, maxAdvisoryBytes: nat)
    requires WellNumbered(r) && v.active && r.epoch == v.snapshot.epoch
    requires if DurableRequest(r) then r.mutation <= v.snapshot.accepted else r.observation <= v.snapshot.observed
    ensures var c := Coordinate(s, v, r, now, maxAdvisoryBytes);
      c.0 == s && c.1 == v && c.2.status == if DurableRequest(r) then Repeated else OutOfDate(ObservationSequence)
  {
  }

  /** What an admission did to the counters: an admitted event used the next
      mutation number or a later observation number; a refusal used at most the
      next mutation number, and changed nothing else. */
  ghost predicate Counted(s: TripState, v: Versions, r: Request, s': TripState, v': Versions, status: Admission) {
    if status.Admitted? then
      if DurableRequest(r)
      then r.mutation == v'.snapshot.accepted == v.snapshot.accepted + 1 && v'.snapshot.observed == v.snapshot.observed
      else r.observation == v'.snapshot.observed > v.snapshot.observed && v'.snapshot.accepted == v.snapshot.accepted
    else
      && s' == s
      && (v' == v || (DurableRequest(r) && r.mutation == v.snapshot.accepted + 1
                      && v' == v.(snapshot := v.snapshot.(accepted := r.mutation))))
  }

  lemma {:induction false} SettledIsCounted(s: TripState, v: Versions, r: Request, now: int64, verdict: Outcome, after: TripState)
    requires v.active
    ensures var c := Settle(s, v, r, now, verdict, after); Counted(s, v, r, c.0, c.1, c.2.status)
    ensures var c := Settle(s, v, r, now, verdict, after); c.2.status.Admitted? ==> verdict.Applied? && c.0 == after
  {
  }

  lemma {:induction false} AdmissionIsCounted(s: TripState, v: Versions, r: Request, now: int64, maxAdvisoryBytes: nat)
    requires v.active
    ensures var c := Coordinate(s, v, r, now, maxAdvisoryBytes); Counted(s, v, r, c.0, c.1, c.2.status)
    ensures var c := Coordinate(s, v, r, now, maxAdvisoryBytes);
      c.2.status.Admitted? ==> Verdict(s, r.event, maxAdvisoryBytes).Applied? && c.0 == After(s, r.event, maxAdvisoryBytes)
  {
    SettledIsCounted(s, v, r, now, Verdict(s, r.event, maxAdvisoryBytes), After(s, r.event, maxAdvisoryBytes));
  }

  // ----- the diary of an epoch -----

  datatype Entry = Happened(request: Request) | Offered(proposal: StoredProposal)

  /** Where the epoch began, what took effect since, and which mutation numbers were settled. */
  datatype Diary = Diary(base: TripState, log: seq<Entry>, start: nat, resolved: seq<nat>)

  function Taken(s: TripState, e: Entry, maxAdvisoryBytes: nat): TripState {
    match e
    case Happened(r) => After(s, r.event, maxAdvisoryBytes)
    case Offered(p) => s.(proposal := Some(p))
  }

  /** The base with every entry of the log applied in order. */
  function Replay(base: TripState, log: seq<Entry>, maxAdvisoryBytes: nat): TripState {
    if log == [] then base
    else Taken(Replay(base, log[..|log| - 1], maxAdvisoryBytes), log[|log| - 1], maxAdvisoryBytes)
  }

  /** Every logged event applied where it stands in the log. */
  predicate AllApplied(base: TripState, log: seq<Entry>, maxAdvisoryBytes: nat) {
    log == [] ||
    var front, last := log[..|log| - 1], log[|log| - 1];
    && AllApplied(base, front, maxAdvisoryBytes)
    && (last.Happened? ==> Verdict(Replay(base, front, maxAdvisoryBytes), last.request.event, maxAdvisoryBytes).Applied?)
  }

  /** The mutation numbers, or the observation numbers, of the logged events. */
  ghost function Numbers(log: seq<Entry>, durable: bool): seq<nat> {
    if log == [] then []
    else
      var front, last := Numbers(log[..|log| - 1], durable), log[|log| - 1];
      if last.Happened? && DurableRequest(last.request) == durable
      then front + [if durable then last.request.mutation else last.request.observation] else front
  }

  /** Strictly ascending, hence each number at most once, and none above `top`. */
  predicate AscendsTo(s: seq<nat>, top: nat) {
    (forall i, j | 0 <= i < j < |s| :: s[i] < s[j]) && (forall i | 0 <= i < |s| :: s[i] <= top)
  }

  predicate CountsFrom(s: seq<nat>, start: nat) {
    forall i | 0 <= i < |s| :: s[i] == start + 1 + i
  }

  /** The diary tells the trip's state and counters. */
  ghost predicate Tells(d: Diary, s: TripState, v: Snapshot, maxAdvisoryBytes: nat) {
    && s == Replay(d.base, d.log, maxAdvisoryBytes) && AllApplied(d.base, d.log, maxAdvisoryBytes)
    && CountsFrom(d.resolved, d.start) && v.accepted == d.start + |d.resolved|
    && AscendsTo(Numbers(d.log, true), v.accepted) && AscendsTo(Numbers(d.log, false), v.observed)
  }

  function NoteAdmission(d: Diary, r: Request, admitted: bool, settled: bool): Diary {
    d.(log := if admitted then d.log + [Happened(r)] else d.log,
       resolved := if settled then d.resolved + [r.mutation] else d.resolved)
  }

  /** What a step adds to the diary. */
  function Note(d: Diary, w: World, l: Label, maxAdvisoryBytes: nat): Diary {
    match l
    case Boot(b, room) => if Starts(w, b, room) then Diary(b.state, [], b.finalized, []) else d
    case Event(r, _) =>
      if w.trip.None? || w.trip.value.deactivating then d
      else
        var t := w.trip.value;
        var c := Coordinate(t.state, t.versions, r.admission, r.planning.currentTime, maxAdvisoryBytes);
        NoteAdmission(d, r.admission, c.2.status.Admitted?, c.1.snapshot.accepted != t.versions.snapshot.accepted)
    case Finish(k, proposal, _) =>
      if w.trip.Some? && k < |w.outstanding| && proposal.Some? && Commits(w.trip.value, w.outstanding[k], proposal.value)
      then d.(log := d.log + [Offered(proposal.value)]) else d
    case _ => d
  }

  lemma {:induction false} LogGrows(d: Diary, e: Entry, maxAdvisoryBytes: nat)
    ensures var log := d.log + [e];
      && Replay(d.base, log, maxAdvisoryBytes) == Taken(Replay(d.base, d.log, maxAdvisoryBytes), e, maxAdvisoryBytes)
      && (AllApplied(d.base, log, maxAdvisoryBytes) <==>
            AllApplied(d.base, d.log, maxAdvisoryBytes)
            && (e.Happened? ==> Verdict(Replay(d.base, d.log, maxAdvisoryBytes), e.request.event, maxAdvisoryBytes).Applied?))
  {
    assert (d.log + [e])[..|d.log|] == d.log;
  }

  lemma {:induction false} NumbersGrow(log: seq<Entry>, e: Entry, durable: bool)
    ensures Numbers(log + [e], durable)
            == if e.Happened? && DurableRequest(e.request) == durable
               then Numbers(log, durable) + [if durable then e.request.mutation else e.request.observation]
               else Numbers(log, durable)
  {
    assert (log + [e])[..|log|] == log;
  }

  lemma {:induction false} CountersMove(d: Diary, r: Request, s: TripState, v: Versions, s': TripState, v': Versions, status: Admission)
    requires CountsFrom(d.resolved, d.start) && v.snapshot.accepted == d.start + |d.resolved|
    requires AscendsTo(Numbers(d.log, true), v.snapshot.accepted) && AscendsTo(Numbers(d.log, false), v.snapshot.observed)
    requires Counted(s, v, r, s', v', status)
    ensures var d' := NoteAdmission(d, r, status.Admitted?, v'.snapshot.accepted != v.snapshot.accepted);
      && CountsFrom(d'.resolved, d'.start) && v'.snapshot.accepted == d'.start + |d'.resolved|
      && AscendsTo(Numbers(d'.log, true), v'.snapshot.accepted) && AscendsTo(Numbers(d'.log, false), v'.snapshot.observed)
  {
    NumbersGrow(d.log, Happened(r), true);
    NumbersGrow(d.log, Happened(r), false);
    if status.Admitted? {
      AscendsOn(Numbers(d.log, DurableRequest(r)), if DurableRequest(r) then v.snapshot.accepted else v.snapshot.observed,
                if DurableRequest(r) then r.mutation else r.observation);
    }
  }

  lemma {:induction false} AscendsOn(s: seq<nat>, top: nat, n: nat)
    requires AscendsTo(s, top) && top < n
    ensures AscendsTo(s + [n], n) && AscendsTo(s, n)
  {
  }

  lemma {:induction false} AdmissionIsNoted(d: Diary, s: TripState, v: Versions, r: Request, now: int64, maxAdvisoryBytes: nat)
    requires v.active && Tells(d, s, v.snapshot, maxAdvisoryBytes)
    ensures var c := Coordinate(s, v, r, now, maxAdvisoryBytes);
      Tells(NoteAdmission(d, r, c.2.status.Admitted?, c.1.snapshot.accepted != v.snapshot.accepted), c.0, c.1.snapshot, maxAdvisoryBytes)
  {
    var c := Coordinate(s, v, r, now, maxAdvisoryBytes);
    AdmissionIsCounted(s, v, r, now, maxAdvisoryBytes);
    CountersMove(d, r, s, v, c.0, c.1, c.2.status);
    if c.2.status.Admitted? {
      LogGrows(d, Happened(r), maxAdvisoryBytes);
    }
  }

  lemma {:induction false} OfferIsNoted(d: Diary, s: TripState, v: Snapshot, p: StoredProposal, maxAdvisoryBytes: nat)
    requires Tells(d, s, v, maxAdvisoryBytes)
    ensures Tells(d.(log := d.log + [Offered(p)]), s.(proposal := Some(p)), v, maxAdvisoryBytes)
  {
    LogGrows(d, Offered(p), maxAdvisoryBytes);
    NumbersGrow(d.log, Offered(p), true);
    NumbersGrow(d.log, Offered(p), false);
  }

  ghost predicate TellsWorld(d: Diary, w: World, maxAdvisoryBytes: nat) {
    w.trip.Some? ==> Tells(d, w.trip.value.state, w.trip.value.versions.snapshot, maxAdvisoryBytes)
  }

  lemma {:induction false} BootIsNoted(d: Diary, w: World, b: BootRequest, room: bool, maxAdvisoryBytes: nat)
    requires TellsWorld(d, w, maxAdvisoryBytes)
    ensures TellsWorld(Note(d, w, Boot(b, room), maxAdvisoryBytes), w.(trip := HandleBoot(w.trip, b, room)), maxAdvisoryBytes)
  {
  }

  lemma {:induction false} EventIsNoted(d: Diary, w: World, r: EventRequest, load: Load, maxAdvisoryBytes: nat)
    requires SaneWorld(w) && w.trip.Some? && TellsWorld(d, w, maxAdvisoryBytes)
    ensures TellsWorld(Note(d, w, Event(r, load), maxAdvisoryBytes), Next(w, Event(r, load), maxAdvisoryBytes), maxAdvisoryBytes)
  {
    var t := w.trip.value;
    EventLeaves(t, r, w.accepting, load, maxAdvisoryBytes);
    if !t.deactivating {
      AdmissionIsNoted(d, t.state, t.versions, r.admission, r.planning.currentTime, maxAdvisoryBytes);
    }
  }

  lemma {:induction false} FinishIsNoted(d: Diary, w: World, l: Label, maxAdvisoryBytes: nat)
    requires w.trip.Some? && (l.Finish? || l.Fail?) && l.k < |w.outstanding| && TellsWorld(d, w, maxAdvisoryBytes)
    ensures TellsWorld(Note(d, w, l, maxAdvisoryBytes), Next(w, l, maxAdvisoryBytes), maxAdvisoryBytes)
  {
    var t, a := w.trip.value, w.outstanding[l.k];
    FinishLeaves(t, a, if l.Finish? then l.proposal else None, w.accepting, l.load);
    if l.Finish? && l.proposal.Some? && Commits(t, a, l.proposal.value) {
      OfferIsNoted(d, t.state, t.versions.snapshot, l.proposal.value, maxAdvisoryBytes);
    }
  }

  lemma {:induction false} ControlIsNoted(d: Diary, t: Trip, l: Label, maxAdvisoryBytes: nat)
    requires IsControl(l) && HandleControl(t, l).Some? && Tells(d, t.state, t.versions.snapshot, maxAdvisoryBytes)
    ensures Tells(d, HandleControl(t, l).value.state, HandleControl(t, l).value.versions.snapshot, maxAdvisoryBytes)
  {
    var v, v' := t.versions.snapshot, HandleControl(t, l).value.versions.snapshot;
    assert v'.accepted == v.accepted && v'.observed == v.observed;
  }

  lemma {:induction false} OtherStepIsNoted(d: Diary, w: World, l: Label, maxAdvisoryBytes: nat)
    requires TellsWorld(d, w, maxAdvisoryBytes) && (l.Boot? || l.Lose? || l.Close? || IsControl(l))
    ensures TellsWorld(Note(d, w, l, maxAdvisoryBytes), Next(w, l, maxAdvisoryBytes), maxAdvisoryBytes)
  {
    if l.Boot? {
      BootIsNoted(d, w, l.boot, l.roomForTrip, maxAdvisoryBytes);
    } else if IsControl(l) && w.trip.Some? && HandleControl(w.trip.value, l).Some? {
      ControlIsNoted(d, w.trip.value, l, maxAdvisoryBytes);
    }
  }

  lemma {:induction false} StepIsNoted(d: Diary, w: World, l: Label, maxAdvisoryBytes: nat)
    requires SaneWorld(w) && TellsWorld(d, w, maxAdvisoryBytes)
    ensures TellsWorld(Note(d, w, l, maxAdvisoryBytes), Next(w, l, maxAdvisoryBytes), maxAdvisoryBytes)
  {
    if l.Event? {
      if w.trip.Some? { EventIsNoted(d, w, l.request, l.load, maxAdvisoryBytes); }
    } else if l.Finish? || l.Fail? {
      if w.trip.Some? && l.k < |w.outstanding| { FinishIsNoted(d, w, l, maxAdvisoryBytes); }
    } else {
      OtherStepIsNoted(d, w, l, maxAdvisoryBytes);
    }
  }

  const BLANK := Diary(TripState(0, "", [], 0, None, CurrentPlan(0, 0, UserAuthored, [], 0, None), [],
                                 Observation(None, None, None, None), None), [], 0, [])

  function DiaryOf(labels: seq<Label>, maxAdvisoryBytes: nat): Diary {
    if labels == [] then BLANK
    else
      var front := labels[..|labels| - 1];
      Note(DiaryOf(front, maxAdvisoryBytes), Reach(front, maxAdvisoryBytes), labels[|labels| - 1], maxAdvisoryBytes)
  }

  /** In every run, the trip's state is its epoch's starting state with the
      admitted events, and only those, applied in order once each; mutation
      numbers are settled one after the other without a gap or a repeat. */
  lemma {:induction false} DeliveredExactlyOnce(labels: seq<Label>, maxAdvisoryBytes: nat)
    ensures TellsWorld(DiaryOf(labels, maxAdvisoryBytes), Reach(labels, maxAdvisoryBytes), maxAdvisoryBytes)
  {
    if labels != [] {
      var front := labels[..|labels| - 1];
      DeliveredExactlyOnce(front, maxAdvisoryBytes);
      OffersAreCurrent(front, maxAdvisoryBytes);
      StepIsNoted(DiaryOf(front, maxAdvisoryBytes), Reach(front, maxAdvisoryBytes), labels[|labels| - 1], maxAdvisoryBytes);
    }
  }
}

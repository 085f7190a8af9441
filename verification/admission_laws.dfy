/** When a delivered event is admitted, and what becomes of the counters, said
    of the numbers it carries, the counters and the verdict on its payload. */
module AdmissionLaws {
  import opened Domain
  import opened TripEvents
  import opened TripStates
  import opened RuntimeVersions
  import opened EventCoordinator

  /** Events that must not be lost or repeated, numbered one by one. */
  ghost predicate IsCommand(p: Payload) {
    || p.StatusChanged? || p.ActivityDelayed? || p.ReservationChanged? || p.DeadlineChanged? || p.HoursChanged?
    || p.FoundClosed? || p.TravelDelay? || p.PlanDecision? || IsMirror(p)
  }

  /** Commands the plan's own store has already taken. */
  ghost predicate IsMirror(p: Payload) { p.TripEdited? || p.PlanReplaced? }

  /** Observations of the traveller, of which only the latest matters. */
  ghost predicate IsSighting(p: Payload) {
    p.LocationUpdated? || p.VelocityUpdated? || p.HeadingUpdated? || p.RouteDeviation?
  }

  /** The request carries its own kind's numbers and no others. */
  ghost predicate CarriesNumbers(r: Request) {
    var p := r.event.payload;
    if IsCommand(p) then r.mutation != 0 && r.revision != 0 && r.observation == 0
    else (IsSighting(p) || p.Advisory?) && r.observation != 0 && r.mutation == 0 && r.revision == 0
  }

  /** The trip is active and the request was made of its present epoch and version. */
  ghost predicate IsCurrent(v: Versions, r: Request) {
    v.active && r.epoch == v.snapshot.epoch && (r.plannerVersion.None? || r.plannerVersion == Some(v.snapshot.plannerVersion))
  }

  /** The command is the very next one, on the present revision; an observation is a later one. */
  ghost predicate IsNext(v: Versions, r: Request) {
    if IsCommand(r.event.payload) then r.mutation == v.snapshot.accepted + 1 && r.revision == v.snapshot.revision
    else r.observation > v.snapshot.observed
  }

  /** The counters that would move can. */
  ghost predicate HasRoom(v: Versions, r: Request) {
    && (!r.event.payload.Advisory? ==> v.snapshot.plannerVersion < UINT64_MAX && v.snapshot.generation < UINT64_MAX)
    && (IsCommand(r.event.payload) ==> v.snapshot.revision < UINT64_MAX)
  }

  ghost predicate TooLate(r: Request, now: int64) {
    && IsCommand(r.event.payload) && !IsMirror(r.event.payload)
    && r.event.expiresAt.Some? && r.event.expiresAt.value <= now
  }

  /** Nothing about the numbers stands in the way. */
  ghost predicate InLine(v: Versions, r: Request) {
    CarriesNumbers(r) && IsCurrent(v, r) && IsNext(v, r) && HasRoom(v, r)
  }

  /** How the counters move for an admitted event. */
  ghost predicate CountersMove(before: Snapshot, after: Snapshot, r: Request) {
    && after.epoch == before.epoch && after.finalized == before.finalized
    && after.accepted == (if IsCommand(r.event.payload) then before.accepted + 1 else before.accepted)
    && after.revision == (if IsCommand(r.event.payload) then before.revision + 1 else before.revision)
    && after.observed == (if IsCommand(r.event.payload) then before.observed else r.observation)
    && after.plannerVersion == (if r.event.payload.Advisory? then before.plannerVersion else before.plannerVersion + 1)
    && after.generation == (if r.event.payload.Advisory? then before.generation else before.generation + 1)
  }

  lemma {:induction false} ClassesAre(p: Payload)
    ensures p.Class().Some? <==> IsCommand(p) || IsSighting(p) || p.Advisory?
    ensures p.Class().Some? ==> (IsDurable(p.Class().value) <==> IsCommand(p))
    ensures p.Class() == Some(CanonicalMirror) <==> IsMirror(p)
    ensures p.Class() == Some(AdvisoryClass) <==> p.Advisory?
    ensures IsCommand(p) ==> !IsSighting(p) && !p.Advisory?
  {
  }

  lemma {:induction false} NumbersAre(r: Request)
    ensures WellNumbered(r) <==> CarriesNumbers(r)
  {
    ClassesAre(r.event.payload);
  }

  lemma {:induction false} PreviewIff(v: Versions, r: Request)
    requires WellNumbered(r)
    ensures Preview(v, r) == Accepted <==> IsCurrent(v, r) && IsNext(v, r) && HasRoom(v, r)
  {
    ClassesAre(r.event.payload);
    NumbersAre(r);
  }

  lemma {:induction false} CountersAre(v: Versions, r: Request)
    requires WellNumbered(r) && Preview(v, r) == Accepted
    ensures CountersMove(v.snapshot, Advanced(v, r).snapshot, r) && Advanced(v, r).active == v.active
  {
    ClassesAre(r.event.payload);
    PreviewIff(v, r);
  }

  /** An event is admitted exactly when its numbers are in line, it is in time and
      it applies.  Then the state is the one it leaves and the counters move;
      otherwise only the number of a command in line is used up, and that of one
      whose store has not taken it. */
  lemma {:induction false} AdmittedIff(s: TripState, v: Versions, r: Request, now: int64, maxAdvisoryBytes: nat)
    ensures var c := Coordinate(s, v, r, now, maxAdvisoryBytes);
      && (c.2.status == Admitted <==> InLine(v, r) && !TooLate(r, now) && Verdict(s, r.event, maxAdvisoryBytes) == Applied)
      && (c.2.status == Admitted ==>
            c.0 == After(s, r.event, maxAdvisoryBytes) && c.1.active == v.active && CountersMove(v.snapshot, c.1.snapshot, r))
      && (c.2.status != Admitted ==> c.0 == s)
  {
    NumbersAre(r);
    ClassesAre(r.event.payload);
    if WellNumbered(r) {
      PreviewIff(v, r);
      if Preview(v, r) == Accepted {
        CountersAre(v, r);
      }
    }
  }

  lemma {:induction false} RefusedUses(s: TripState, v: Versions, r: Request, now: int64, maxAdvisoryBytes: nat)
    ensures var c := Coordinate(s, v, r, now, maxAdvisoryBytes);
      c.2.status != Admitted ==>
        if InLine(v, r) && IsCommand(r.event.payload) && !IsMirror(r.event.payload)
        then c.1 == v.(snapshot := v.snapshot.(accepted := r.mutation)) else c.1 == v
  {
    NumbersAre(r);
    ClassesAre(r.event.payload);
    if WellNumbered(r) {
      PreviewIff(v, r);
    }
  }

  // ----- what is answered -----

  ghost predicate AnswersRefusal(v: Versions, r: Request, now: int64, verdict: Outcome, status: Admission) {
    if !CarriesNumbers(r) then status == BadRequest
    else if !v.active then status == NotActive
    else if r.epoch != v.snapshot.epoch then status == OutOfDate(Epoch)
    else if InLine(v, r) then
      status == if TooLate(r, now) then Expired else if verdict.StaleProposal? then OutOfDate(Proposal) else BadRequest
    else if IsCommand(r.event.payload) && r.mutation <= v.snapshot.accepted then status == Repeated
    else if IsNext(v, r) && IsCurrent(v, r) then status == BadRequest
    else if IsNext(v, r) then status == OutOfDate(PlannerVersion)
    else if !IsCommand(r.event.payload) then status == OutOfDate(ObservationSequence)
    else if r.mutation == v.snapshot.accepted + 1 then status == OutOfDate(Revision)
    else status == OutOfDate(MutationSequence)
  }

  /** What a refusal says, and what the answer to an admitted event carries. */
  lemma {:induction false} AnswerTells(s: TripState, v: Versions, r: Request, now: int64, maxAdvisoryBytes: nat)
    ensures var c := Coordinate(s, v, r, now, maxAdvisoryBytes);
      && c.2.snapshot == c.1.snapshot && (c.2.retryable <==> c.2.status == NotActive)
      && (c.2.status != Admitted ==> AnswersRefusal(v, r, now, Verdict(s, r.event, maxAdvisoryBytes), c.2.status))
      && (c.2.status != Admitted ==> c.2.seed.None? && !c.2.planningInputChanged && !c.2.currentPlanChanged)
      && (c.2.status == Admitted ==>
            && (c.2.planningInputChanged <==> !r.event.payload.Advisory?)
            && (c.2.currentPlanChanged <==> IsMirror(r.event.payload) || (r.event.payload.PlanDecision? && r.event.payload.accept)))
  {
    NumbersAre(r);
    ClassesAre(r.event.payload);
    if WellNumbered(r) {
      PreviewIff(v, r);
    }
  }
}

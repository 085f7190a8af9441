/** When a step of the runtime hands out a planning attempt, lets one wait, or
    does neither, said of the trip before and after. */
module PlanningStarts {
  import opened Domain
  import opened TripEvents
  import opened TripStates
  import opened RuntimeVersions
  import opened EventCoordinator
  import opened TripRuntime

  ghost predicate Busy(t: Trip) { t.running || t.pending.Some? }

  /** The frame is one to plan in. */
  ghost predicate GoodContext(c: PlanningContext) {
    c.horizonStart <= c.currentTime < c.horizonEnd && c.maxCandidates > 0 && c.beamWidth > 0 && c.maxExpansions > 0
  }

  /** A moving traveller only renews planning that is going on; a refresh only
      starts planning that is not; everything else that is not advice plans. */
  ghost predicate AsksToPlan(t: Trip, p: Payload) {
    if p.LocationUpdated? || p.VelocityUpdated? || p.HeadingUpdated? then Busy(t)
    else if p.Advisory? then p.kind == RecommendationRefresh && !Busy(t)
    else true
  }

  /** An event step on a trip that takes events. */
  ghost predicate TakesEvent(w: World, l: Label) {
    l.Event? && w.trip.Some? && !w.trip.value.deactivating && w.trip.value.versions.active
  }

  ghost function AnswerTo(w: World, l: Label, maxAdvisoryBytes: nat): Admission
    requires TakesEvent(w, l)
  {
    var t, r := w.trip.value, l.request;
    Coordinate(t.state, t.versions, r.admission, r.planning.currentTime, maxAdvisoryBytes).2.status
  }

  /** The event leads to a request for planning. */
  ghost predicate Requests(w: World, l: Label, maxAdvisoryBytes: nat)
    requires TakesEvent(w, l)
  {
    && AnswerTo(w, l, maxAdvisoryBytes) == Admitted && GoodContext(l.request.planning)
    && AsksToPlan(w.trip.value, l.request.admission.event.payload)
  }

  /** The attempt plans the trip as it is now, in the request's frame. */
  ghost predicate IsFor(a: Attempt, t: Trip, context: PlanningContext, ordinary: bool) {
    && a.seed.state == t.state && a.seed.source == t.versions.snapshot
    && a.seed.token == Token(t.versions.snapshot.epoch, t.versions.snapshot.plannerVersion, t.versions.snapshot.generation)
    && a.context == context && (a.ordinary <==> ordinary)
  }

  /** The executors have room for an attempt. */
  ghost predicate Taken(load: Load) { load.completionReserved && load.providerAccepts }

  /** A waiting attempt may go: nothing newer of its kind is queued behind it. */
  ghost predicate MayGo(w: World, a: Attempt, load: Load) { w.accepting && (!a.ordinary || load.normalQueueEmpty) }

  ghost predicate Ordinary(p: Payload) { p.LocationUpdated? || p.VelocityUpdated? || p.HeadingUpdated? }

  // ----- events -----

  lemma {:induction false} SeedIff(t: Trip, result: CoordinatorResult, r: Request, after: Trip)
    requires after.running == t.running && after.pending == t.pending
    requires after.versions.active
    requires result.status == Admitted ==> result == AdmittedResult(after.state, after.versions, r)
    requires result.status != Admitted ==> result.seed.None?
    requires result.status == Admitted ==> r.event.payload.Class().Some?
    ensures SeedFor(after, result, r.event.payload).Some? <==> result.status == Admitted && AsksToPlan(t, r.event.payload)
    ensures SeedFor(after, result, r.event.payload).Some? ==>
      SeedFor(after, result, r.event.payload).value
      == Seed(after.state, r.event.payload, after.versions.snapshot,
              Token(after.versions.snapshot.epoch, after.versions.snapshot.plannerVersion, after.versions.snapshot.generation))
  {
  }

  /** The trip right after admission. */
  ghost function AfterAnswer(w: World, l: Label, maxAdvisoryBytes: nat): Trip
    requires TakesEvent(w, l)
  {
    var t, r := w.trip.value, l.request;
    var c := Coordinate(t.state, t.versions, r.admission, r.planning.currentTime, maxAdvisoryBytes);
    t.(state := c.0, versions := c.1)
  }

  lemma {:induction false} AnswerSeeds(s: TripState, v: Versions, r: Request, now: int64, maxAdvisoryBytes: nat)
    requires v.active
    ensures var c := Coordinate(s, v, r, now, maxAdvisoryBytes);
      && c.1.active
      && (c.2.status == Admitted ==> c.2 == AdmittedResult(c.0, c.1, r) && r.event.payload.Class().Some?)
      && (c.2.status != Admitted ==> c.2.seed.None?)
  {
    SettledSeeds(s, v, r, now, Verdict(s, r.event, maxAdvisoryBytes), After(s, r.event, maxAdvisoryBytes));
  }

  lemma {:induction false} SettledSeeds(s: TripState, v: Versions, r: Request, now: int64, verdict: Outcome, after: TripState)
    requires v.active
    ensures var c := Settle(s, v, r, now, verdict, after);
      && c.1.active
      && (c.2.status == Admitted ==> c.2 == AdmittedResult(c.0, c.1, r) && r.event.payload.Class().Some?)
      && (c.2.status != Admitted ==> c.2.seed.None?)
  {
  }

  lemma {:induction false} EventSeeds(w: World, l: Label, maxAdvisoryBytes: nat)
    requires TakesEvent(w, l)
    ensures var t, r := w.trip.value, l.request; var u := AfterAnswer(w, l, maxAdvisoryBytes);
      var c := Coordinate(t.state, t.versions, r.admission, r.planning.currentTime, maxAdvisoryBytes);
      var seed := SeedFor(u, c.2, r.admission.event.payload);
      && (seed.Some? <==> AnswerTo(w, l, maxAdvisoryBytes) == Admitted && AsksToPlan(t, r.admission.event.payload))
      && (seed.Some? ==> seed.value.state == u.state && seed.value.source == u.versions.snapshot
                         && seed.value.token == Token(u.versions.snapshot.epoch, u.versions.snapshot.plannerVersion, u.versions.snapshot.generation)
                         && seed.value.trigger == r.admission.event.payload)
  {
    var t, r := w.trip.value, l.request;
    AnswerSeeds(t.state, t.versions, r.admission, r.planning.currentTime, maxAdvisoryBytes);
    var c := Coordinate(t.state, t.versions, r.admission, r.planning.currentTime, maxAdvisoryBytes);
    SeedIff(t, c.2, r.admission, AfterAnswer(w, l, maxAdvisoryBytes));
  }

  /** Telemetry is normal work and advice low; leaving the route is high, and so
      are new hours of an activity still to come; all else is critical. */
  ghost predicate HasPriority(p: Payload, activities: seq<Activity>, priority: Priority) {
    priority ==
      if Ordinary(p) then Normal
      else if p.Advisory? then Low
      else if p.RouteDeviation? then High
      else if p.HoursChanged? && (exists a | a in activities :: a.id == p.id && !a.state.Completed? && !a.state.Skipped?) then High
      else Critical
  }

  lemma {:induction false} PriorityIs(p: Payload, activities: seq<Activity>)
    requires OwnActivities(activities)
    ensures HasPriority(p, activities, p.PriorityFor(activities))
  {
    if p.HoursChanged? {
      var index, ids := ActivityIndex(activities, p.id), ActivityIds(activities);
      forall a | a in activities && a.id == p.id ensures index.Some? && a == activities[index.value] {
        var k :| 0 <= k < |activities| && activities[k] == a;
        assert ids[k] == ids[index.value];
      }
      if index.Some? { assert activities[index.value] in activities; }
    }
  }

  /** The attempt is handed out and nothing waits, or nothing was handed out. */
  ghost predicate HandsOut(w: World, w': World, a: Attempt) {
    w'.outstanding == w.outstanding + [a] && w'.trip.Some? && w'.trip.value.running && w'.trip.value.pending.None?
  }

  ghost predicate HandsOutNothing(w: World, w': World) { w'.outstanding == w.outstanding && w'.trip.Some? }

  /** No planning is asked for: what runs and waits is as before. */
  ghost predicate LeavesPlanning(w: World, w': World)
    requires w.trip.Some?
  {
    && HandsOutNothing(w, w') && w'.trip.value.running == w.trip.value.running && w'.trip.value.pending == w.trip.value.pending
  }

  /** Planning is asked for and nothing runs or waits: it starts if there is room. */
  ghost predicate StartsPlanning(w: World, w': World, l: Label)
    requires l.Event? && w.trip.Some? && w'.trip.Some?
  {
    var p := l.request.admission.event.payload;
    if Taken(l.load) then
      exists a :: HandsOut(w, w', a) && IsFor(a, w'.trip.value, l.request.planning, Ordinary(p)) && a.seed.trigger == p
                  && HasPriority(p, w.trip.value.state.activities, a.priority)
    else HandsOutNothing(w, w') && !Busy(w'.trip.value)
  }

  /** Planning runs: the request waits, for the trip as it is now. */
  ghost predicate LetsWait(w: World, w': World, l: Label)
    requires l.Event? && w'.trip.Some?
  {
    && HandsOutNothing(w, w') && w'.trip.value.running && w'.trip.value.pending.Some?
    && IsFor(w'.trip.value.pending.value, w'.trip.value, l.request.planning, Ordinary(l.request.admission.event.payload))
  }

  /** One waits and nothing runs: the new request takes its place, and goes if it may. */
  ghost predicate TakesItsPlace(w: World, w': World, l: Label)
    requires l.Event? && w'.trip.Some?
  {
    var ordinary := Ordinary(l.request.admission.event.payload);
    if !w.accepting || (ordinary && !l.load.normalQueueEmpty) then
      && HandsOutNothing(w, w') && !w'.trip.value.running && w'.trip.value.pending.Some?
      && IsFor(w'.trip.value.pending.value, w'.trip.value, l.request.planning, ordinary)
    else if Taken(l.load) then exists a :: HandsOut(w, w', a) && IsFor(a, w'.trip.value, l.request.planning, ordinary)
    else HandsOutNothing(w, w') && !Busy(w'.trip.value)
  }

  lemma {:induction false} EnqueueDoes(w: World, t: Trip, a: Attempt, p: Payload, load: Load, n: (Trip, seq<Attempt>))
    requires n == Enqueue(t, a, w.accepting, load) && a.ordinary == Ordinary(p)
    ensures n.0.state == t.state && n.0.versions == t.versions
    ensures !GoodContext(a.context) ==> n == (t, [])
    ensures GoodContext(a.context) && !Busy(t) ==>
      if Taken(load) then n.1 == [a] && n.0.running && n.0.pending.None? else n.1 == [] && !Busy(n.0)
    ensures GoodContext(a.context) && t.running ==>
      n.1 == [] && n.0.running && n.0.pending.Some? && Renews(n.0.pending.value, a)
    ensures GoodContext(a.context) && !t.running && t.pending.Some? ==>
      if !w.accepting || (Ordinary(p) && !load.normalQueueEmpty)
      then n.1 == [] && !n.0.running && n.0.pending.Some? && Renews(n.0.pending.value, a)
      else if Taken(load) then |n.1| == 1 && Renews(n.1[0], a) && n.0.running && n.0.pending.None?
      else n.1 == [] && !Busy(n.0)
  {
  }

  /** The same request, perhaps with another's priority and trigger. */
  ghost predicate Renews(b: Attempt, a: Attempt) {
    b == a.(priority := b.priority, seed := a.seed.(trigger := b.seed.trigger))
  }

  /** The event step, once the answer is given. */
  lemma {:induction false} EventStepIs(w: World, l: Label, maxAdvisoryBytes: nat, a: Attempt)
    requires TakesEvent(w, l)
    requires AnswerTo(w, l, maxAdvisoryBytes) == Admitted && AsksToPlan(w.trip.value, l.request.admission.event.payload)
    requires a.seed.state == AfterAnswer(w, l, maxAdvisoryBytes).state
    requires a.seed == SeedFor(AfterAnswer(w, l, maxAdvisoryBytes),
                               Coordinate(w.trip.value.state, w.trip.value.versions, l.request.admission,
                                          l.request.planning.currentTime, maxAdvisoryBytes).2,
                               l.request.admission.event.payload).GetOr(a.seed)
    requires a.context == l.request.planning && a.ordinary == Ordinary(l.request.admission.event.payload)
    requires a.priority == l.request.admission.event.payload.PriorityFor(w.trip.value.state.activities)
    ensures var n := Enqueue(AfterAnswer(w, l, maxAdvisoryBytes), a, w.accepting, l.load);
      Next(w, l, maxAdvisoryBytes) == w.(trip := Some(n.0), outstanding := w.outstanding + n.1)
  {
    EventSeeds(w, l, maxAdvisoryBytes);
  }

  /** What an event does about planning. */
  lemma {:induction false} EventPlans(w: World, l: Label, maxAdvisoryBytes: nat)
    requires TakesEvent(w, l) && w.trip.value.state.Valid()
    ensures var w' := Next(w, l, maxAdvisoryBytes); var t := w.trip.value;
      && w'.trip.Some?
      && if !Requests(w, l, maxAdvisoryBytes) then LeavesPlanning(w, w')
         else if t.running then LetsWait(w, w', l)
         else if t.pending.Some? then TakesItsPlace(w, w', l)
         else StartsPlanning(w, w', l)
  {
    var t, u, p := w.trip.value, AfterAnswer(w, l, maxAdvisoryBytes), l.request.admission.event.payload;
    EventSeeds(w, l, maxAdvisoryBytes);
    var c := Coordinate(t.state, t.versions, l.request.admission, l.request.planning.currentTime, maxAdvisoryBytes);
    var seed := SeedFor(u, c.2, p);
    if seed.Some? {
      var a := Attempt(seed.value, l.request.planning, p.PriorityFor(t.state.activities), Ordinary(p));
      EventStepIs(w, l, maxAdvisoryBytes, a);
      EnqueueDoes(w, u, a, p, l.load, Enqueue(u, a, w.accepting, l.load));
      PriorityIs(p, t.state.activities);
      Concludes(w, l, a, u, Enqueue(u, a, w.accepting, l.load));
    }
  }

  lemma {:induction false} Concludes(w: World, l: Label, a: Attempt, u: Trip, n: (Trip, seq<Attempt>))
    requires l.Event? && w.trip.Some? && u.running == w.trip.value.running && u.pending == w.trip.value.pending
    requires IsFor(a, u, l.request.planning, Ordinary(l.request.admission.event.payload))
    requires n.0.state == u.state && n.0.versions == u.versions
    requires HasPriority(l.request.admission.event.payload, w.trip.value.state.activities, a.priority)
    requires a.seed.trigger == l.request.admission.event.payload
    ensures var w' := w.(trip := Some(n.0), outstanding := w.outstanding + n.1); var t := w.trip.value;
      && (n == (u, []) ==> LeavesPlanning(w, w'))
      && (t.running && n.1 == [] && n.0.running && n.0.pending.Some? && Renews(n.0.pending.value, a) ==> LetsWait(w, w', l))
      && (!Busy(t) && (if Taken(l.load) then n.1 == [a] && n.0.running && n.0.pending.None? else n.1 == [] && !Busy(n.0))
          ==> StartsPlanning(w, w', l))
      && ((if !w.accepting || (Ordinary(l.request.admission.event.payload) && !l.load.normalQueueEmpty)
           then n.1 == [] && !n.0.running && n.0.pending.Some? && Renews(n.0.pending.value, a)
           else if Taken(l.load) then |n.1| == 1 && Renews(n.1[0], a) && n.0.running && n.0.pending.None?
           else n.1 == [] && !Busy(n.0)) ==> TakesItsPlace(w, w', l))
  {
    var w' := w.(trip := Some(n.0), outstanding := w.outstanding + n.1);
    if n.1 == [] {
      assert w.outstanding + n.1 == w.outstanding;
    } else if |n.1| == 1 {
      assert n.1 == [n.1[0]];
      assert HandsOut(w, w', n.1[0]) || !n.0.running || n.0.pending.Some?;
    }
  }

  // ----- completions -----

  /** A completion frees the trip; what waits then goes if it may. */
  lemma {:induction false} CompletionPlans(w: World, l: Label, maxAdvisoryBytes: nat)
    requires (l.Finish? || l.Fail?) && l.k < |w.outstanding| && w.trip.Some?
    ensures var w' := Next(w, l, maxAdvisoryBytes); var t := w.trip.value; var rest := WithoutAttempt(w.outstanding, l.k);
      && w'.trip.Some?
      && if t.pending.None? || !MayGo(w, t.pending.value, l.load) then
           w'.outstanding == rest && !w'.trip.value.running && w'.trip.value.pending == t.pending
         else if Taken(l.load) then w'.outstanding == rest + [t.pending.value] && w'.trip.value.running && w'.trip.value.pending.None?
         else w'.outstanding == rest && !w'.trip.value.running && w'.trip.value.pending.None?
  {
  }
}

/** What an applied event records, and that it changes nothing else, said of the
    state before and after and of the event alone. */
module EventEffects {
  import opened Domain
  import opened Proposals
  import opened TripEvents
  import opened TripStates

  // ----- observations -----

  /** Only what was observed changed, and when. */
  ghost predicate Observes(s: TripState, t: TripState, at: int64) {
    t == s.(observation := t.observation, proposal := None) && t.observation.observedAt == Some(at)
  }

  ghost predicate ObservesLocation(s: TripState, t: TripState, at: int64, location: Location) {
    && Observes(s, t, at) && t.observation.location == Some(location)
    && t.observation.velocity == s.observation.velocity && t.observation.heading == s.observation.heading
  }

  ghost predicate ObservesVelocity(s: TripState, t: TripState, at: int64, speed: real) {
    && Observes(s, t, at) && t.observation.velocity == Some(speed)
    && t.observation.location == s.observation.location && t.observation.heading == s.observation.heading
  }

  ghost predicate ObservesHeading(s: TripState, t: TripState, at: int64, degrees: real) {
    && Observes(s, t, at) && t.observation.heading == Some(degrees)
    && t.observation.location == s.observation.location && t.observation.velocity == s.observation.velocity
  }

  // ----- one activity -----

  /** Only the activity with this id changed, to what `becomes` says. */
  ghost predicate ChangesActivity(before: seq<Activity>, after: seq<Activity>, id: Id, becomes: Activity -> Activity) {
    && |after| == |before| && (exists i | 0 <= i < |before| :: before[i].id == id)
    && forall i | 0 <= i < |before| :: after[i] == if before[i].id == id then becomes(before[i]) else before[i]
  }

  ghost predicate ChangesOnlyActivity(s: TripState, t: TripState, id: Id, becomes: Activity -> Activity) {
    t == s.(activities := t.activities, proposal := None) && ChangesActivity(s.activities, t.activities, id, becomes)
  }

  /** The activity has the new state; finishing one moves the prefix on, and the
      current activity is the one that has been started. */
  ghost predicate EntersState(s: TripState, t: TripState, id: Id, newState: ActivityState) {
    && t == s.(activities := t.activities, prefix := t.prefix, current := t.current, proposal := None)
    && ChangesActivity(s.activities, t.activities, id, (a: Activity) => a.(state := newState))
    && t.prefix == s.prefix + (if newState.Completed? || newState.Skipped? then 1 else 0)
    && t.current == (if newState.Started? then Some(id)
                     else if newState.Planned? && s.current != Some(id) then s.current
                     else None)
  }

  // ----- delays -----

  ghost predicate Between(d: Delay, from: Id, to: Id) { d.from == from && d.to == to }

  /** There is one delay between the two, the event's, and all others are as before. */
  ghost predicate PutsDelay(before: seq<Delay>, after: seq<Delay>, delay: Delay) {
    && delay in after
    && (forall d | Between(d, delay.from, delay.to) :: d in after ==> d == delay)
    && (forall d | !Between(d, delay.from, delay.to) :: d in after <==> d in before)
  }

  // ----- edits -----

  ghost predicate Inserts(before: seq<Activity>, after: seq<Activity>, a: Activity, at: nat) {
    && |after| == |before| + 1 && at <= |before| && after[at] == a
    && (forall i | 0 <= i < at :: after[i] == before[i])
    && (forall i | at < i < |after| :: after[i] == before[i - 1])
  }

  ghost predicate RemovesAt(before: seq<Activity>, after: seq<Activity>, at: nat) {
    && at < |before| && |after| == |before| - 1
    && (forall i | 0 <= i < at :: after[i] == before[i])
    && (forall i | at <= i < |after| :: after[i] == before[i + 1])
  }

  ghost predicate Removes(before: seq<Activity>, after: seq<Activity>, id: Id) {
    exists at: nat :: RemovesAt(before, after, at) && before[at].id == id
  }

  /** The same activities, in the given order. */
  ghost predicate Reorders(before: seq<Activity>, after: seq<Activity>, ids: seq<Id>) {
    |after| == |ids| == |before| && forall k | 0 <= k < |ids| :: after[k].id == ids[k] && after[k] in before
  }

  ghost predicate Edits(s: TripState, t: TripState, operation: EditOperation) {
    match operation
    case AddActivity(a, at) => Inserts(s.activities, t.activities, a, at) && t.delays == s.delays
    case ReplaceActivity(a) => ChangesActivity(s.activities, t.activities, a.id, (_: Activity) => a) && t.delays == s.delays
    case RemoveActivity(id) =>
      && Removes(s.activities, t.activities, id)
      && (forall d :: d in t.delays <==> d in s.delays && d.from != id && d.to != id)
    case ReorderActivities(ids) => Reorders(s.activities, t.activities, ids) && t.delays == s.delays
  }

  ghost predicate EditsTrip(s: TripState, t: TripState, operation: EditOperation, plan: CurrentPlan) {
    && t == s.(activities := t.activities, delays := t.delays, plan := plan, prefix := t.prefix, current := t.current, proposal := None)
    && Edits(s, t, operation)
    && t.prefix == (if s.prefix <= |t.activities| then s.prefix else |t.activities|)
    && t.current == (if s.current.Some? && (exists i | 0 <= i < |t.activities| :: t.activities[i].id == s.current.value)
                     then s.current else None)
  }

  // ----- all events -----

  /** What the event records of itself. */
  ghost predicate Records(s: TripState, e: TripEvent, t: TripState) {
    match e.payload
    case NoPayload => false
    case LocationUpdated(location) => ObservesLocation(s, t, e.occurredAt, location)
    case RouteDeviation(location, _) => ObservesLocation(s, t, e.occurredAt, location)
    case VelocityUpdated(speed) => ObservesVelocity(s, t, e.occurredAt, speed)
    case HeadingUpdated(degrees) => ObservesHeading(s, t, e.occurredAt, degrees)
    case StatusChanged(id, newState) => EntersState(s, t, id, newState)
    case ActivityDelayed(id, seconds) => ChangesOnlyActivity(s, t, id, (a: Activity) => a.(delaySeconds := seconds))
    case ReservationChanged(id, reservation, grace) =>
      ChangesOnlyActivity(s, t, id, (a: Activity) => a.(timing := a.timing.(reservation := reservation, graceSeconds := grace)))
    case DeadlineChanged(id, latest) =>
      ChangesOnlyActivity(s, t, id, (a: Activity) => a.(timing := a.timing.(deadline := Some(latest))))
    case HoursChanged(id, windows) => ChangesOnlyActivity(s, t, id, (a: Activity) => a.(timing := a.timing.(windows := windows)))
    case FoundClosed(id, at) => ChangesOnlyActivity(s, t, id, (a: Activity) => a.(foundClosedAt := Some(at)))
    case TravelDelay(from, to, seconds) =>
      t == s.(delays := t.delays, proposal := None) && PutsDelay(s.delays, t.delays, Delay(from, to, seconds, e.occurredAt))
    case TripEdited(operation, plan) => EditsTrip(s, t, operation, plan)
    case PlanReplaced(plan) => t == s.(plan := plan, proposal := None)
    case PlanDecision(accept, _, _, _, _, resulting) =>
      if accept then resulting.Some? && t == s.(plan := resulting.value, proposal := None) else t == s.(proposal := None)
    case Advisory(_, _, _) => t == s
  }

  // ----- proofs, payload by payload -----

  lemma {:induction false} OneActivity(s: TripState, id: Id, becomes: Activity -> Activity)
    requires Distinct(ActivityIds(s.activities)) && Has(s.activities, id)
    ensures ChangesActivity(s.activities, WithActivity(s, id, becomes).activities, id, becomes)
  {
    var at, ids := ActivityIndex(s.activities, id).value, ActivityIds(s.activities);
    forall i | 0 <= i < |s.activities| && s.activities[i].id == id ensures i == at {
      assert ids[i] == ids[at];
    }
  }

  lemma {:induction false} DelayIsPut(delays: seq<Delay>, delay: Delay)
    requires DistinctKeys(delays)
    ensures PutsDelay(delays, DelayPut(delays, delay), delay)
  {
    if delays != [] {
      var first, rest := delays[0], delays[1..];
      forall i, j | 0 <= i < j < |rest| ensures !SameKey(rest[i], rest[j]) {
        assert !SameKey(delays[i + 1], delays[j + 1]);
      }
      forall d | d in rest ensures !SameKey(first, d) {
        var j :| 0 <= j < |rest| && rest[j] == d;
        assert !SameKey(delays[0], delays[j + 1]);
      }
      if !SameKey(first, delay) {
        DelayIsPut(rest, delay);
      }
      assert delays == [first] + rest;
    }
  }

  lemma {:induction false} DelaysRemoved(delays: seq<Delay>, id: Id)
    ensures forall d :: d in DelaysWithout(delays, id) <==> d in delays && d.from != id && d.to != id
  {
    if delays != [] {
      DelaysRemoved(delays[..|delays| - 1], id);
      assert delays == delays[..|delays| - 1] + [delays[|delays| - 1]];
    }
  }

  lemma {:induction false} ReorderIs(activities: seq<Activity>, ids: seq<Id>)
    requires |ids| == |activities| && forall k | 0 <= k < |ids| :: Has(activities, ids[k])
    ensures Reorders(activities, Picked(activities, ids), ids)
  {
    var r := Picked(activities, ids);
    forall k | 0 <= k < |ids| ensures r[k].id == ids[k] && r[k] in activities {
      assert Has(activities, ids[k]);
      assert ActivityIds(r)[k] == ids[k];
    }
  }

  lemma {:induction false} AddedAt(before: seq<Activity>, a: Activity, at: nat)
    requires at <= |before|
    ensures Inserts(before, before[..at] + [a] + before[at..], a, at)
  {
  }

  lemma {:induction false} RemoveIs(s: TripState, id: Id)
    requires Has(s.activities, id)
    ensures Edits(s, Edited(s, RemoveActivity(id)), RemoveActivity(id))
  {
    DelaysRemoved(s.delays, id);
    RemovedAt(s.activities, Edited(s, RemoveActivity(id)).activities, id, ActivityIndex(s.activities, id).value);
  }

  lemma {:induction false} EditIs(s: TripState, operation: EditOperation)
    requires s.Valid() && EditedIds(s.activities, operation).Some?
    ensures Edits(s, Edited(s, operation), operation)
  {
    match operation {
      case AddActivity(a, at) => AddedAt(s.activities, a, at);
      case ReplaceActivity(a) => OneActivity(s, a.id, (_: Activity) => a);
      case RemoveActivity(id) => RemoveIs(s, id);
      case ReorderActivities(ids) =>
        ReorderedAreKnown(s.activities, ids);
        ReorderIs(s.activities, ids);
    }
  }

  lemma {:induction false} RemovedAt(before: seq<Activity>, after: seq<Activity>, id: Id, at: nat)
    requires at < |before| && before[at].id == id && after == before[..at] + before[at + 1..]
    ensures Removes(before, after, id)
  {
    assert RemovesAt(before, after, at);
  }

  lemma {:induction false} CurrentIs(activities: seq<Activity>, id: Id)
    ensures Has(activities, id) <==> exists i | 0 <= i < |activities| :: activities[i].id == id
  {
  }

  lemma {:induction false} EditKeepsTheRest(s: TripState, operation: EditOperation)
    ensures var t := Edited(s, operation); t == s.(activities := t.activities, delays := t.delays)
  {
  }

  lemma {:induction false} EditsByParts(s: TripState, t: TripState, u: TripState, operation: EditOperation)
    requires Edits(s, t, operation) && u.activities == t.activities && u.delays == t.delays
    ensures Edits(s, u, operation)
  {
  }

  lemma {:induction false} EditIsNormalized(s: TripState, t: TripState, operation: EditOperation, plan: CurrentPlan)
    requires Edits(s, t, operation) && t == s.(activities := t.activities, delays := t.delays)
    ensures EditsTrip(s, Normalized(t.(plan := plan)).Core(), operation, plan)
  {
    var u := Normalized(t.(plan := plan)).Core();
    EditsByParts(s, t, u, operation);
    if s.current.Some? {
      CurrentIs(t.activities, s.current.value);
    }
  }

  lemma {:induction false} TripIsEdited(s: TripState, e: TripEvent)
    requires s.Valid() && e.payload.TripEdited? && ValidEdit(s.activities, e.payload.operation, e.payload.plan)
    ensures Records(s, e, Candidate(s, e))
  {
    var operation, plan := e.payload.operation, e.payload.plan;
    EditIs(s, operation);
    EditKeepsTheRest(s, operation);
    EditIsNormalized(s, Edited(s, operation), operation, plan);
  }

  lemma {:induction false} StatusIsEntered(s: TripState, e: TripEvent)
    requires s.Valid() && e.payload.StatusChanged? && MayEnter(s, e.payload.id, e.payload.newState)
    ensures Records(s, e, Candidate(s, e))
  {
    OneActivity(s, e.payload.id, (a: Activity) => a.(state := e.payload.newState));
  }

  lemma {:induction false} TimingIsChanged(s: TripState, e: TripEvent)
    requires s.Valid() && (e.payload.DeadlineChanged? || e.payload.HoursChanged?) && Has(s.activities, e.payload.id)
    ensures Records(s, e, Candidate(s, e))
  {
    match e.payload {
      case DeadlineChanged(id, latest) => OneActivity(s, id, (a: Activity) => a.(timing := a.timing.(deadline := Some(latest))));
      case HoursChanged(id, windows) => OneActivity(s, id, (a: Activity) => a.(timing := a.timing.(windows := windows)));
    }
  }

  lemma {:induction false} ReservationIsChanged(s: TripState, e: TripEvent)
    requires s.Valid() && e.payload.ReservationChanged? && Has(s.activities, e.payload.id)
    ensures Records(s, e, Candidate(s, e))
  {
    var p := e.payload;
    OneActivity(s, p.id, (a: Activity) => a.(timing := a.timing.(reservation := p.reservation, graceSeconds := p.graceSeconds)));
  }

  lemma {:induction false} ActivityIsChanged(s: TripState, e: TripEvent)
    requires s.Valid() && (e.payload.ActivityDelayed? || e.payload.FoundClosed?) && Has(s.activities, e.payload.id)
    ensures Records(s, e, Candidate(s, e))
  {
    match e.payload {
      case ActivityDelayed(id, seconds) => OneActivity(s, id, (a: Activity) => a.(delaySeconds := seconds));
      case FoundClosed(id, at) => OneActivity(s, id, (a: Activity) => a.(foundClosedAt := Some(at)));
    }
  }

  /** Every applied event records what it says, and nothing else changes. */
  lemma {:induction false} AppliedEventRecords(s: TripState, e: TripEvent, maxAdvisoryBytes: nat)
    requires Verdict(s, e, maxAdvisoryBytes).Applied?
    ensures Records(s, e, After(s, e, maxAdvisoryBytes))
  {
    match e.payload {
      case StatusChanged(_, _) => StatusIsEntered(s, e);
      case TripEdited(_, _) => TripIsEdited(s, e);
      case TravelDelay(from, to, seconds) => DelayIsPut(s.delays, Delay(from, to, seconds, e.occurredAt));
      case ActivityDelayed(_, _) => ActivityIsChanged(s, e);
      case ReservationChanged(_, _, _) => ReservationIsChanged(s, e);
      case DeadlineChanged(_, _) => TimingIsChanged(s, e);
      case HoursChanged(_, _) => TimingIsChanged(s, e);
      case FoundClosed(_, _) => ActivityIsChanged(s, e);
      case _ =>
    }
  }
}

/** When an event is applied: a valid event is rolled back only if it moves the
    plan under the activities already finished or under way. */
module TripStateTheorems {
  import opened Domain
  import opened TripEvents
  import opened TripStates

  // ----- looking activities up -----

  /** Lookups depend on the ids alone. */
  lemma {:induction false} SameIdsSameIndex(a: seq<Activity>, b: seq<Activity>, id: Id)
    requires ActivityIds(a) == ActivityIds(b)
    ensures ActivityIndex(a, id) == ActivityIndex(b, id)
  {
    assert |a| == |ActivityIds(a)| == |b|;
    forall k | 0 <= k < |a| ensures a[k].id == b[k].id {
      assert ActivityIds(a)[k] == ActivityIds(b)[k];
    }
    var i, j := ActivityIndex(a, id), ActivityIndex(b, id);
    assert i.Some? ==> b[i.value].id == id;
    assert j.Some? ==> a[j.value].id == id;
  }

  lemma {:induction false} HasIffListed(activities: seq<Activity>, id: Id)
    ensures Has(activities, id) <==> id in ActivityIds(activities)
  {
    var at := ActivityIndex(activities, id);
    if at.Some? {
      assert ActivityIds(activities)[at.value] == id;
    }
  }

  // ----- changing one activity in place -----

  lemma {:induction false} ReplacedActivity(s: TripState, id: Id, a: Activity)
    requires s.Valid() && Has(s.activities, id) && a.id == id && a.Valid()
    ensures var t := s.activities[ActivityIndex(s.activities, id).value := a];
      && OwnActivities(t) && ActivityIds(t) == ActivityIds(s.activities)
      && (forall other :: StateOf(t, other) == if other == id then Some(a.state) else StateOf(s.activities, other))
  {
    var index := ActivityIndex(s.activities, id).value;
    var t := s.activities[index := a];
    assert ActivityIds(t) == ActivityIds(s.activities);
    forall other ensures StateOf(t, other) == if other == id then Some(a.state) else StateOf(s.activities, other) {
      SameIdsSameIndex(s.activities, t, other);
    }
  }

  lemma {:induction false} DelaysCarryOver(a: seq<Activity>, b: seq<Activity>, delays: seq<Delay>)
    requires ActivityIds(a) == ActivityIds(b) && ValidDelays(a, delays)
    ensures ValidDelays(b, delays)
  {
    forall d | d in delays ensures BetweenOwn(b, d) {
      SameIdsSameIndex(a, b, d.from);
      SameIdsSameIndex(a, b, d.to);
    }
  }

  /** A change that keeps an activity's id, state and validity keeps the state valid. */
  lemma {:induction false} QuietChangeKeeps(s: TripState, id: Id, a: Activity)
    requires s.Valid() && Has(s.activities, id) && a.id == id && a.Valid()
    requires Some(a.state) == StateOf(s.activities, id)
    ensures s.(activities := s.activities[ActivityIndex(s.activities, id).value := a]).Core().Valid()
  {
    var t := s.activities[ActivityIndex(s.activities, id).value := a];
    ReplacedActivity(s, id, a);
    DelaysCarryOver(s.activities, t, s.delays);
    forall i | 0 <= i < |s.plan.segments| ensures SegmentFits(t, s.plan.segments[i].id, i, s.prefix) {
      assert SegmentFits(s.activities, s.plan.segments[i].id, i, s.prefix);
    }
  }

  // ----- status changes -----

  /** Only the segment at `at` changes state, to one that fits the new prefix. */
  lemma {:induction false} ProgressMoves(plan: CurrentPlan, segments: seq<Segment>, a: seq<Activity>, b: seq<Activity>, at: nat, newState: ActivityState,
                                         prefix: nat, newPrefix: nat)
    requires segments == plan.segments && at < |segments|
    requires forall i | 0 <= i < |segments| :: SegmentFits(a, segments[i].id, i, prefix)
    requires forall i | 0 <= i < |segments| ::
      StateOf(b, segments[i].id) == if i == at then Some(newState) else StateOf(a, segments[i].id)
    requires newPrefix == prefix || (newPrefix == prefix + 1 && at == prefix)
    requires (Terminal(newState) <==> at < newPrefix) && (newState.Started? ==> at == newPrefix)
    ensures forall i | 0 <= i < |segments| :: SegmentFits(b, segments[i].id, i, newPrefix)
    ensures UnderWay(b, plan, newPrefix)
            == if newPrefix > prefix then None
               else if at != prefix then UnderWay(a, plan, prefix)
               else if newState.Started? then Some(segments[at].id) else None
  {
    assert newPrefix < |segments| ==> SegmentFits(a, segments[newPrefix].id, newPrefix, prefix);
    forall i | 0 <= i < |segments| ensures SegmentFits(b, segments[i].id, i, newPrefix) {
      assert SegmentFits(a, segments[i].id, i, prefix);
    }
  }

  lemma {:induction false} StatesAfterStatus(s: TripState, id: Id, newState: ActivityState)
    requires s.Valid() && MayEnter(s, id, newState)
    ensures var t := StatusEntered(s, id, newState);
      var at := SegmentIndex(s.plan.segments, id).value;
      && OwnActivities(t.activities) && ActivityIds(t.activities) == ActivityIds(s.activities)
      && forall i | 0 <= i < |s.plan.segments| ::
           StateOf(t.activities, s.plan.segments[i].id)
           == if i == at then Some(newState) else StateOf(s.activities, s.plan.segments[i].id)
  {
    var t := StatusEntered(s, id, newState);
    var a := s.activities[ActivityIndex(s.activities, id).value].(state := newState);
    assert t.activities == s.activities[ActivityIndex(s.activities, id).value := a];
    ReplacedActivity(s, id, a);
    DistinctPositions(s.plan.segments);
  }

  lemma {:induction false} StatusKeepsProgress(s: TripState, id: Id, newState: ActivityState)
    requires s.Valid() && MayEnter(s, id, newState)
    ensures var t := StatusEntered(s, id, newState); InProgress(t.activities, t.plan, t.prefix, t.current)
  {
    var t := StatusEntered(s, id, newState);
    var at := SegmentIndex(s.plan.segments, id).value;
    StatesAfterStatus(s, id, newState);
    UnderWayIsCurrent(s, id, at);
    ProgressMoves(s.plan, s.plan.segments, s.activities, t.activities, at, newState, s.prefix, t.prefix);
  }

  lemma {:induction false} UnderWayIsCurrent(s: TripState, id: Id, at: nat)
    requires s.Valid() && SegmentIndex(s.plan.segments, id) == Some(at)
    ensures s.current == Some(id) ==> at == s.prefix
    ensures s.current.Some? && at == s.prefix ==> s.current == Some(id)
  {
    DistinctPositions(s.plan.segments);
  }

  lemma {:induction false} StatusKeeps(s: TripState, id: Id, newState: ActivityState)
    requires s.Valid() && MayEnter(s, id, newState)
    ensures StatusEntered(s, id, newState).Core().Valid()
  {
    StatesAfterStatus(s, id, newState);
    DelaysCarryOver(s.activities, StatusEntered(s, id, newState).activities, s.delays);
    StatusKeepsProgress(s, id, newState);
  }

  // ----- delays -----

  lemma {:induction false} DelayPutKeeps(delays: seq<Delay>, d: Delay)
    requires DistinctKeys(delays)
    ensures DistinctKeys(DelayPut(delays, d))
    ensures forall x | x in DelayPut(delays, d) :: x == d || x in delays
  {
    if delays != [] && !SameKey(delays[0], d) {
      var first, rest := delays[0], delays[1..];
      DelayPutKeeps(rest, d);
      var put := DelayPut(rest, d);
      forall j | 0 <= j < |put| ensures !SameKey(first, put[j]) {
        assert put[j] in put;
        if put[j] != d {
          var k :| 0 <= k < |rest| && rest[k] == put[j];
          assert !SameKey(delays[0], delays[k + 1]);
        }
      }
      assert DelayPut(delays, d) == [first] + put;
    }
  }

  lemma {:induction false} RemovedDelaysKeep(delays: seq<Delay>, id: Id)
    requires DistinctKeys(delays)
    ensures DistinctKeys(DelaysWithout(delays, id))
    ensures forall x | x in DelaysWithout(delays, id) :: x in delays && x.from != id && x.to != id
  {
    if delays != [] {
      var front, last := delays[..|delays| - 1], delays[|delays| - 1];
      RemovedDelaysKeep(front, id);
      var kept := DelaysWithout(front, id);
      forall i | 0 <= i < |kept| ensures !SameKey(kept[i], last) {
        assert kept[i] in kept;
        var k :| 0 <= k < |front| && front[k] == kept[i];
        assert !SameKey(delays[k], delays[|delays| - 1]);
      }
    }
  }

  // ----- edits -----

  lemma {:induction false} IdsOfPieces(a: seq<Activity>, left: nat, middle: seq<Activity>, right: nat)
    requires left <= |a| && right <= |a|
    ensures ActivityIds(a[..left] + middle + a[right..])
            == ActivityIds(a)[..left] + ActivityIds(middle) + ActivityIds(a)[right..]
  {
  }

  /** The activities an edit leaves have the ids the edit was checked against. */
  lemma {:induction false} EditedIdsAreTheIds(s: TripState, operation: EditOperation)
    requires OwnActivities(s.activities) && EditedIds(s.activities, operation).Some?
    ensures ActivityIds(Edited(s, operation).activities) == EditedIds(s.activities, operation).value
  {
    var a := s.activities;
    match operation {
      case AddActivity(activity, ordinal) =>
        IdsOfPieces(a, ordinal, [activity], ordinal);
        assert ActivityIds([activity]) == [activity.id];
      case ReplaceActivity(activity) =>
        assert ActivityIds(a[ActivityIndex(a, activity.id).value := activity]) == ActivityIds(a);
      case RemoveActivity(id) =>
        var index := ActivityIndex(a, id).value;
        IdsOfPieces(a, index, [], index + 1);
        assert a[..index] + [] + a[index + 1..] == a[..index] + a[index + 1..];
        assert ActivityIds(a)[..index] + ActivityIds([]) == ActivityIds(a)[..index];
      case ReorderActivities(ids) =>
        ReorderedAreKnown(a, ids);
    }
  }

  lemma {:induction false} EditedActivitiesAreValid(s: TripState, operation: EditOperation)
    requires OwnActivities(s.activities) && EditedIds(s.activities, operation).Some?
    ensures forall k | 0 <= k < |Edited(s, operation).activities| :: Edited(s, operation).activities[k].Valid()
    ensures |Edited(s, operation).activities| <= 64
  {
    if operation.ReorderActivities? {
      ReorderedAreKnown(s.activities, operation.ids);
    }
  }

  lemma {:induction false} PiecesKeep(ids: seq<Id>, left: nat, middle: seq<Id>, right: nat, id: Id)
    requires left <= right <= |ids| && id in ids && id !in ids[left..right]
    ensures id in ids[..left] + middle + ids[right..]
  {
    assert ids == ids[..left] + ids[left..right] + ids[right..];
  }

  lemma {:induction false} StillListed(activities: seq<Activity>, operation: EditOperation, id: Id)
    requires EditedIds(activities, operation).Some? && id in ActivityIds(activities)
    requires !(operation.RemoveActivity? && operation.id == id)
    ensures id in EditedIds(activities, operation).value
  {
    var ids := ActivityIds(activities);
    match operation {
      case AddActivity(activity, ordinal) => PiecesKeep(ids, ordinal, [activity.id], ordinal, id);
      case ReplaceActivity(_) =>
      case RemoveActivity(removed) =>
        var index := ActivityIndex(activities, removed).value;
        assert ids[index..index + 1] == [removed];
        PiecesKeep(ids, index, [], index + 1, id);
        assert ids[..index] + [] == ids[..index];
      case ReorderActivities(reordered) =>
        assert id in multiset(ids);
        assert id in multiset(reordered);
    }
  }

  lemma {:induction false} StillHas(s: TripState, operation: EditOperation, id: Id)
    requires OwnActivities(s.activities) && EditedIds(s.activities, operation).Some? && Has(s.activities, id)
    requires !(operation.RemoveActivity? && operation.id == id)
    ensures Has(Edited(s, operation).activities, id)
  {
    HasIffListed(s.activities, id);
    StillListed(s.activities, operation, id);
    EditedIdsAreTheIds(s, operation);
    HasIffListed(Edited(s, operation).activities, id);
  }

  lemma {:induction false} EditedDelaysAreValid(s: TripState, operation: EditOperation)
    requires OwnActivities(s.activities) && EditedIds(s.activities, operation).Some? && ValidDelays(s.activities, s.delays)
    ensures ValidDelays(Edited(s, operation).activities, Edited(s, operation).delays)
  {
    var t := Edited(s, operation);
    if operation.RemoveActivity? {
      RemovedDelaysKeep(s.delays, operation.id);
    }
    forall d | d in t.delays ensures BetweenOwn(t.activities, d) {
      assert d in s.delays;
      assert BetweenOwn(s.activities, d);
      StillHas(s, operation, d.from);
      StillHas(s, operation, d.to);
    }
  }

  lemma {:induction false} EditKeeps(s: TripState, operation: EditOperation, plan: CurrentPlan)
    requires s.Valid() && ValidEdit(s.activities, operation, plan)
    ensures var t := Normalized(Edited(s, operation).(plan := plan)).Core();
      t.Valid() <==> InProgress(t.activities, t.plan, t.prefix, t.current)
  {
    EditedIdsAreTheIds(s, operation);
    EditedActivitiesAreValid(s, operation);
    EditedDelaysAreValid(s, operation);
  }

  // ----- every event -----

  /** Whether the event's change of plan fits what is finished and under way. */
  predicate PlanFits(s: TripState, e: TripEvent) {
    e.payload.ChangesPlan() ==>
      var t := Candidate(s, e); InProgress(t.activities, t.plan, t.prefix, t.current)
  }

  predicate IsQuiet(p: Payload) {
    p.ActivityDelayed? || p.ReservationChanged? || p.DeadlineChanged? || p.HoursChanged? || p.FoundClosed?
  }

  function QuietChange(a: Activity, p: Payload): Activity
    requires IsQuiet(p)
  {
    match p
    case ActivityDelayed(_, seconds) => a.(delaySeconds := seconds)
    case ReservationChanged(_, reservation, grace) =>
      a.(timing := a.timing.(reservation := reservation, graceSeconds := grace))
    case DeadlineChanged(_, latest) => a.(timing := a.timing.(deadline := Some(latest)))
    case HoursChanged(_, windows) => a.(timing := a.timing.(windows := windows))
    case FoundClosed(_, at) => a.(foundClosedAt := Some(at))
  }

  lemma {:induction false} QuietChangeFits(a: Activity, p: Payload)
    requires IsQuiet(p) && a.Valid() && (p.HoursChanged? ==> NormalizedWindows(p.windows))
    ensures QuietChange(a, p).Valid() && QuietChange(a, p).id == a.id && QuietChange(a, p).state == a.state
  {
  }

  lemma {:induction false} QuietChangeIs(s: TripState, e: TripEvent)
    requires IsQuiet(e.payload) && Has(s.activities, e.payload.id)
    ensures var index := ActivityIndex(s.activities, e.payload.id).value;
      Changed(s, e) == s.(activities := s.activities[index := QuietChange(s.activities[index], e.payload)])
  {
  }

  lemma {:induction false} QuietEventKeeps(s: TripState, e: TripEvent, maxAdvisoryBytes: nat)
    requires s.Valid() && e.payload.ValidFor(s.activities, maxAdvisoryBytes) && IsQuiet(e.payload)
    ensures Candidate(s, e).Valid()
  {
    var a := s.activities[ActivityIndex(s.activities, e.payload.id).value];
    QuietChangeFits(a, e.payload);
    QuietChangeKeeps(s, e.payload.id, QuietChange(a, e.payload));
    QuietChangeIs(s, e);
  }

  lemma {:induction false} DelayEventKeeps(s: TripState, e: TripEvent, maxAdvisoryBytes: nat)
    requires s.Valid() && e.payload.TravelDelay? && e.payload.ValidFor(s.activities, maxAdvisoryBytes)
    ensures Candidate(s, e).Valid()
  {
    var d := Delay(e.payload.from, e.payload.to, e.payload.additionalSeconds, e.occurredAt);
    DelayPutKeeps(s.delays, d);
    var put := DelayPut(s.delays, d);
    forall x | x in put ensures BetweenOwn(s.activities, x) {
      assert x == d || x in s.delays;
    }
  }

  lemma {:induction false} PlanEventKeeps(s: TripState, e: TripEvent, maxAdvisoryBytes: nat)
    requires s.Valid() && e.payload.ValidFor(s.activities, maxAdvisoryBytes) && e.payload.ChangesPlan()
    ensures Candidate(s, e).Valid() <==> PlanFits(s, e)
  {
    if e.payload.TripEdited? {
      EditKeeps(s, e.payload.operation, e.payload.plan);
    }
  }

  lemma {:induction false} CandidateFits(s: TripState, e: TripEvent, maxAdvisoryBytes: nat)
    requires s.Valid() && e.payload.ValidFor(s.activities, maxAdvisoryBytes) && !Refuses(s, e)
    ensures Candidate(s, e).Valid() <==> PlanFits(s, e)
  {
    if e.payload.StatusChanged? {
      StatusKeeps(s, e.payload.id, e.payload.newState);
    } else if e.payload.TravelDelay? {
      DelayEventKeeps(s, e, maxAdvisoryBytes);
    } else if IsQuiet(e.payload) {
      QuietEventKeeps(s, e, maxAdvisoryBytes);
    } else if e.payload.ChangesPlan() {
      PlanEventKeeps(s, e, maxAdvisoryBytes);
    }
  }

  /** A valid event that answers no stale proposal is applied exactly when a
      status change fits the progress made and a change of plan leaves the
      finished activities in front and the one under way next.  Every other
      event is applied: the rollback is not needed for it. */
  lemma {:induction false} EventApplies(s: TripState, e: TripEvent, maxAdvisoryBytes: nat)
    requires s.Valid() && e.payload.ValidFor(s.activities, maxAdvisoryBytes) && !DecidesStale(s, e)
    ensures Verdict(s, e, maxAdvisoryBytes).Applied? <==> !Refuses(s, e) && PlanFits(s, e)
  {
    if !Refuses(s, e) {
      CandidateFits(s, e, maxAdvisoryBytes);
    }
  }

  lemma {:induction false} CandidateParts(s: TripState, e: TripEvent)
    ensures !e.payload.ChangesPlan() ==> Candidate(s, e).plan == s.plan
    ensures if e.payload.PlanningInput() then Candidate(s, e).proposal.None? else Candidate(s, e) == s
  {
  }

  /** What an applied event leaves, and that a refused one leaves nothing. */
  lemma {:induction false} AppliedEventLeaves(s: TripState, e: TripEvent, maxAdvisoryBytes: nat)
    ensures var t := After(s, e, maxAdvisoryBytes);
      && (!Verdict(s, e, maxAdvisoryBytes).Applied? ==> t == s)
      && (Verdict(s, e, maxAdvisoryBytes).Applied? ==>
            && s.Valid() && t.Valid() && !e.payload.NoPayload?
            && (e.payload.PlanningInput() ==> t.proposal.None?)
            && (!e.payload.PlanningInput() ==> t == s)
            && (!e.payload.ChangesPlan() ==> t.plan == s.plan)
            && (e.payload.PlanDecision? ==> s.proposal.Some? && MatchesProposal(s.proposal.value, e.payload)))
  {
    CandidateParts(s, e);
  }
}

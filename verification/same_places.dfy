/** What a proposal checks of a trip's activities: that they are the same ones,
    at the same places.  Nothing else about them matters. */
module SamePlaces {
  import opened Domain
  import opened Proposals
  import opened TripEvents
  import opened TripStates

  predicate SamePlace(a: Activity, b: Activity) { a.id == b.id && a.location == b.location && a.timeZone == b.timeZone }

  /** The activity, as found in the other list, is at the same place. */
  predicate FoundIn(a: Activity, others: seq<Activity>) {
    var at := ActivityIndex(others, a.id);
    at.Some? && SamePlace(a, others[at.value])
  }

  /** The same activities at the same places, in any order. */
  predicate Matches(a: seq<Activity>, b: seq<Activity>) {
    && multiset(ActivityIds(a)) == multiset(ActivityIds(b))
    && forall i | 0 <= i < |a| :: FoundIn(a[i], b)
  }

  /** One by one. */
  predicate Alongside(a: seq<Activity>, b: seq<Activity>) {
    |a| == |b| && forall i | 0 <= i < |a| :: SamePlace(a[i], b[i])
  }

  // ----- proposals -----

  /** Every segment names one of the activities, at its place. */
  predicate AllPlaced(activities: seq<Activity>, segments: seq<ProposalSegment>) {
    forall k | 0 <= k < |segments| :: Placed(activities, segments[k])
  }

  predicate Placed(activities: seq<Activity>, s: ProposalSegment) {
    var at := ActivityIndex(activities, s.id);
    at.Some? && s.location == activities[at.value].location && s.timeZone == activities[at.value].timeZone
  }

  lemma {:induction false} SequenceIsPlaced(activities: seq<Activity>, segments: seq<ProposalSegment>, preserved: nat, prior: Option<int64>)
    requires InSequence(activities, segments, preserved, prior)
    ensures AllPlaced(activities, segments)
    decreases |segments|
  {
    if segments != [] {
      var s := segments[0];
      SequenceIsPlaced(activities, segments[1..], if preserved == 0 then 0 else preserved - 1,
                       if s.disposition == Dropped then prior else s.end);
      assert forall k | 0 < k < |segments| :: segments[k] == segments[1..][k - 1];
      assert Placed(activities, s);
    }
  }

  /** A sequence that runs over some activities runs over any at the same places. */
  lemma {:induction false} SequenceCarriesOver(a: seq<Activity>, b: seq<Activity>, segments: seq<ProposalSegment>, preserved: nat,
                                               prior: Option<int64>)
    requires InSequence(a, segments, preserved, prior) && AllPlaced(b, segments)
    requires forall k | 0 <= k < |b| :: b[k].Valid()
    ensures InSequence(b, segments, preserved, prior)
    decreases |segments|
  {
    if segments != [] {
      var s := segments[0];
      assert Placed(b, s);
      assert b[ActivityIndex(b, s.id).value].Valid();
      assert forall k | 0 < k < |segments| :: segments[k] == segments[1..][k - 1];
      SequenceCarriesOver(a, b, segments[1..], if preserved == 0 then 0 else preserved - 1,
                          if s.disposition == Dropped then prior else s.end);
    }
  }

  lemma {:induction false} MatchingIsPlaced(a: seq<Activity>, b: seq<Activity>, s: ProposalSegment)
    requires Placed(a, s) && Matches(a, b)
    ensures Placed(b, s)
  {
    assert FoundIn(a[ActivityIndex(a, s.id).value], b);
  }

  /** Whoever has the ids of the segments has a segment for each activity. */
  lemma {:induction false} SegmentFor(a: seq<Activity>, segments: seq<ProposalSegment>, i: nat) returns (k: nat)
    requires multiset(ProposalIds(segments)) == multiset(ActivityIds(a)) && i < |a|
    ensures k < |segments| && segments[k].id == a[i].id
  {
    assert ActivityIds(a)[i] in multiset(ActivityIds(a));
    assert a[i].id in ProposalIds(segments);
    k :| 0 <= k < |segments| && ProposalIds(segments)[k] == a[i].id;
  }

  lemma {:induction false} PlacedMatches(a: seq<Activity>, b: seq<Activity>, segments: seq<ProposalSegment>)
    requires AllPlaced(a, segments) && AllPlaced(b, segments) && Distinct(ActivityIds(a))
    requires multiset(ProposalIds(segments)) == multiset(ActivityIds(a)) == multiset(ActivityIds(b))
    ensures Matches(a, b)
  {
    forall i | 0 <= i < |a| ensures FoundIn(a[i], b) {
      var k := SegmentFor(a, segments, i);
      assert Placed(a, segments[k]) && Placed(b, segments[k]);
      var at := ActivityIndex(a, a[i].id).value;
      assert ActivityIds(a)[at] == ActivityIds(a)[i];
    }
  }

  lemma {:induction false} SizeOfIds(a: seq<Activity>)
    ensures |multiset(ActivityIds(a))| == |a|
  {
  }

  /** A proposal made for one trip is valid for another exactly if the other has
      the same activities at the same places. */
  lemma {:induction false} ProposalFitsIff(p: StoredProposal, a: seq<Activity>, b: seq<Activity>)
    requires p.ValidFor(a) && OwnActivities(b)
    ensures p.ValidFor(b) <==> Matches(a, b)
  {
    var q := p.proposal;
    var segments := q.prefix + q.suffix;
    SequenceIsPlaced(a, segments, |q.prefix|, None);
    if p.ValidFor(b) {
      SequenceIsPlaced(b, segments, |q.prefix|, None);
      PlacedMatches(a, b, segments);
    }
    if Matches(a, b) {
      SizeOfIds(a);
      SizeOfIds(b);
      forall k | 0 <= k < |segments| ensures Placed(b, segments[k]) {
        assert Placed(a, segments[k]);
        MatchingIsPlaced(a, b, segments[k]);
      }
      SequenceCarriesOver(a, b, segments, |q.prefix|, None);
    }
  }

  // ----- events that edit nothing -----

  lemma {:induction false} AlongsideTransitive(a: seq<Activity>, b: seq<Activity>, c: seq<Activity>)
    requires Alongside(a, b) && Alongside(b, c)
    ensures Alongside(a, c)
  {
    forall i | 0 <= i < |a| ensures SamePlace(a[i], c[i]) {
      assert SamePlace(a[i], b[i]) && SamePlace(b[i], c[i]);
    }
  }

  lemma {:induction false} AlongsideIndex(a: seq<Activity>, b: seq<Activity>, id: Id)
    requires Alongside(a, b)
    ensures ActivityIndex(a, id) == ActivityIndex(b, id)
  {
    var i, j := ActivityIndex(a, id), ActivityIndex(b, id);
    if i.Some? { assert SamePlace(a[i.value], b[i.value]); }
    if j.Some? { assert SamePlace(a[j.value], b[j.value]); }
  }

  lemma {:induction false} AlongsideMatches(a: seq<Activity>, b: seq<Activity>, c: seq<Activity>)
    requires Alongside(b, c)
    ensures Matches(a, b) <==> Matches(a, c)
  {
    forall i | 0 <= i < |b| ensures b[i].id == c[i].id {
      assert SamePlace(b[i], c[i]);
    }
    assert ActivityIds(b) == ActivityIds(c);
    forall i | 0 <= i < |a| ensures FoundIn(a[i], b) <==> FoundIn(a[i], c) {
      AlongsideIndex(b, c, a[i].id);
      var at := ActivityIndex(b, a[i].id);
      if at.Some? { assert SamePlace(b[at.value], c[at.value]); }
    }
  }

  /** Only an edit of the trip changes which activities it has, or where. */
  lemma {:induction false} EventStaysPut(s: TripState, e: TripEvent, maxAdvisoryBytes: nat)
    requires !e.payload.TripEdited?
    ensures Alongside(s.activities, After(s, e, maxAdvisoryBytes).activities)
  {
    ChangedStaysPut(s, e);
  }

  lemma {:induction false} StatusStaysPut(s: TripState, id: Id, newState: ActivityState)
    ensures Alongside(s.activities, StatusEntered(s, id, newState).activities)
  {
  }

  lemma {:induction false} ChangedStaysPut(s: TripState, e: TripEvent)
    requires !e.payload.TripEdited?
    ensures Alongside(s.activities, Changed(s, e).activities)
  {
    if e.payload.StatusChanged? {
      StatusStaysPut(s, e.payload.id, e.payload.newState);
    } else {
      forall i | 0 <= i < |s.activities| ensures |Changed(s, e).activities| == |s.activities| && SamePlace(s.activities[i], Changed(s, e).activities[i]) {
      }
    }
  }
}

/** Any plan the search returns assembles into a valid proposal, and the
    assembler and the scorer agree on how much of the plan changed. */
module ProposalTheorems {
  import opened Domain
  import opened Sorting
  import opened PlannerInput
  import opened CandidateScores
  import opened Scoring
  import opened SearchSpace
  import opened Canonical
  import opened Itineraries
  import opened Proposals
  import opened ProposalAssembler

  /** The activities are the trip's own: valid, distinct, and exactly the ones
      of the preserved prefix and the suffix. */
  ghost predicate TripsOwn(input: SearchInput, activities: seq<Activity>) {
    && |activities| <= 64
    && (forall k | 0 <= k < |activities| :: activities[k].Valid())
    && Distinct(ActivityIds(activities))
    && multiset(ActivityIds(activities)) == multiset(SegmentIds(input.prefix) + input.RemainingIds())
  }

  // ----- visits in order -----

  function PriorAt(input: SearchInput, visits: seq<Decision>, k: nat): (r: nat)
    requires Known(input, visits) && k <= |visits|
    ensures r <= |input.remaining|
  {
    if k == 0 then 0 else input.IndexOf(visits[k - 1].ordinal).value + 1
  }

  function PriorEnd(input: SearchInput, visits: seq<Decision>, k: nat): int64
    requires k <= |visits|
  {
    if k == 0 then input.SuffixStart() else visits[k - 1].end
  }

  /** A visit starts after the previous one ends, over a reachable route. */
  ghost predicate FollowsPrior(input: SearchInput, visits: seq<Decision>, k: nat)
    requires input.Valid() && Known(input, visits) && k < |visits|
  {
    && PriorEnd(input, visits, k) <= visits[k].start < visits[k].end
    && input.matrix.value.At(PriorAt(input, visits, k), input.IndexOf(visits[k].ordinal).value + 1).reachable
  }

  lemma {:induction false} LegFollows(input: SearchInput, c: Chain, d: Decision)
    requires input.Valid() && c.at <= |input.remaining| && input.IndexOf(d.ordinal).Some? && Leg(input, c, d).Some?
    ensures c.end <= d.start < d.end
    ensures input.matrix.value.At(c.at, input.IndexOf(d.ordinal).value + 1).reachable
  {
    LegAdvances(input, c, d);
  }

  lemma {:induction false} RunStands(input: SearchInput, visits: seq<Decision>)
    requires input.Valid() && Known(input, visits) && Run(input, visits).Some?
    ensures Run(input, visits).value.at == PriorAt(input, visits, |visits|)
    ensures Run(input, visits).value.end == PriorEnd(input, visits, |visits|)
  {
    if visits != [] {
      var front := visits[..|visits| - 1];
      RunLast(input, visits, front);
      LegAdvances(input, Run(input, front).value, visits[|visits| - 1]);
    }
  }

  lemma {:induction false} LastFollows(input: SearchInput, front: seq<Decision>, last: Decision)
    requires input.Valid() && Known(input, front) && Known(input, front + [last]) && Run(input, front + [last]).Some?
    ensures Run(input, front).Some? && FollowsPrior(input, front + [last], |front|)
  {
    KnownAppend(input, front, last);
    RunAppend(input, front, last);
    RunStands(input, front);
    LegFollows(input, Run(input, front).value, last);
    assert (front + [last])[|front|] == last;
    assert |front| > 0 ==> (front + [last])[|front| - 1] == front[|front| - 1];
  }

  lemma {:induction false} FollowsCarriesOver(input: SearchInput, visits: seq<Decision>, shorter: seq<Decision>, k: nat)
    requires input.Valid() && Known(input, visits) && Known(input, shorter)
    requires k < |shorter| && shorter <= visits && FollowsPrior(input, shorter, k)
    ensures FollowsPrior(input, visits, k)
  {
    assert visits[k] == shorter[k];
    assert k > 0 ==> visits[k - 1] == shorter[k - 1];
  }

  lemma {:induction false} RunFollows(input: SearchInput, visits: seq<Decision>, k: nat)
    requires input.Valid() && Known(input, visits) && Run(input, visits).Some? && k < |visits|
    ensures FollowsPrior(input, visits, k)
  {
    KnownTake(input, visits, k);
    KnownTake(input, visits, k + 1);
    RunTake(input, visits, k + 1);
    StepFollows(input, visits[..k], visits[k], visits[..k + 1]);
    FollowsCarriesOver(input, visits, visits[..k + 1], k);
  }

  lemma {:induction false} StepFollows(input: SearchInput, front: seq<Decision>, last: Decision, shorter: seq<Decision>)
    requires shorter == front + [last]
    requires input.Valid() && Known(input, front) && Known(input, shorter) && Run(input, shorter).Some?
    ensures FollowsPrior(input, shorter, |front|)
  {
    LastFollows(input, front, last);
  }

  // ----- segments, one by one -----

  ghost predicate Named(input: SearchInput, activities: seq<Activity>, s: Segment) {
    input.IndexOfId(s.id).Some? && ActivityIndex(activities, s.id).Some?
  }

  ghost predicate AllNamed(c: Context, suffix: seq<Segment>) {
    forall j | 0 <= j < |suffix| :: Named(c.input, c.activities, suffix[j])
  }

  lemma {:induction false} SuffixExists(c: Context, suffix: seq<Segment>)
    requires c.input.Valid() && AllNamed(c, suffix)
    ensures SuffixSegments(c, suffix).Some? && |SuffixSegments(c, suffix).value.segments| == |suffix|
  {
    if suffix != [] {
      SuffixExists(c, suffix[..|suffix| - 1]);
      assert Named(c.input, c.activities, suffix[|suffix| - 1]);
    }
  }

  /** The segment the assembler builds at one position. */
  function SegmentAt(c: Context, suffix: seq<Segment>, k: nat): ProposalSegment
    requires c.input.Valid() && k < |suffix| && Named(c.input, c.activities, suffix[k])
    requires SuffixSegments(c, suffix[..k]).Some?
  {
    SuffixSegment(c, SuffixSegments(c, suffix[..k]).value.at, suffix[k], c.input.IndexOfId(suffix[k].id).value,
                  c.activities[ActivityIndex(c.activities, suffix[k].id).value])
  }

  lemma {:induction false} SuffixLast(c: Context, suffix: seq<Segment>)
    requires c.input.Valid() && suffix != [] && AllNamed(c, suffix)
    ensures SuffixSegments(c, suffix[..|suffix| - 1]).Some? && SuffixSegments(c, suffix).Some?
    ensures SuffixSegments(c, suffix).value.segments
         == SuffixSegments(c, suffix[..|suffix| - 1]).value.segments + [SegmentAt(c, suffix, |suffix| - 1)]
  {
    assert Named(c.input, c.activities, suffix[|suffix| - 1]);
    SuffixExists(c, suffix[..|suffix| - 1]);
  }

  lemma {:induction false} FrontIsNamed(c: Context, suffix: seq<Segment>, k: nat)
    requires AllNamed(c, suffix) && k <= |suffix|
    ensures AllNamed(c, suffix[..k])
  {
    forall j | 0 <= j < k ensures Named(c.input, c.activities, suffix[..k][j]) {
      assert Named(c.input, c.activities, suffix[j]);
    }
  }

  /** Later segments do not change the ones before them. */
  lemma {:induction false} SuffixFront(c: Context, suffix: seq<Segment>, k: nat)
    requires c.input.Valid() && k <= |suffix| && AllNamed(c, suffix)
    ensures SuffixSegments(c, suffix).Some? && SuffixSegments(c, suffix[..k]).Some?
    ensures SuffixSegments(c, suffix[..k]).value.segments <= SuffixSegments(c, suffix).value.segments
    decreases |suffix|
  {
    if k == |suffix| {
      assert suffix[..k] == suffix;
      SuffixExists(c, suffix);
    } else {
      var front := suffix[..|suffix| - 1];
      FrontIsNamed(c, suffix, |suffix| - 1);
      SuffixLast(c, suffix);
      SuffixFront(c, front, k);
      assert front[..k] == suffix[..k];
    }
  }

  lemma {:induction false} SuffixPointwise(c: Context, suffix: seq<Segment>, k: nat)
    requires c.input.Valid() && k < |suffix| && AllNamed(c, suffix)
    ensures SuffixSegments(c, suffix).Some? && SuffixSegments(c, suffix[..k]).Some?
    ensures |SuffixSegments(c, suffix).value.segments| == |suffix|
    ensures SuffixSegments(c, suffix).value.segments[k] == SegmentAt(c, suffix, k)
  {
    var shorter := suffix[..k + 1];
    FrontIsNamed(c, suffix, k);
    FrontIsNamed(c, suffix, k + 1);
    SuffixExists(c, suffix);
    SuffixExists(c, suffix[..k]);
    SuffixFront(c, suffix, k + 1);
    SuffixLast(c, shorter);
    assert shorter[..k] == suffix[..k] && shorter[k] == suffix[k];
  }

  lemma {:induction false} PrefixPointwise(activities: seq<Activity>, prefix: seq<Segment>)
    requires forall j | 0 <= j < |prefix| :: ActivityIndex(activities, prefix[j].id).Some?
    ensures PrefixSegments(activities, prefix).Some?
    ensures var r := PrefixSegments(activities, prefix).value;
      |r| == |prefix| &&
      forall k | 0 <= k < |prefix| :: r[k] == PrefixSegment(prefix[k], activities[ActivityIndex(activities, prefix[k].id).value])
  {
    if prefix != [] {
      PrefixPointwise(activities, prefix[..|prefix| - 1]);
    }
  }

  // ----- in sequence -----

  function EndAfter(prefix: seq<Segment>, prior: Option<int64>): Option<int64> {
    if prefix == [] then prior
    else EndAfter(prefix[1..], if prefix[0].state.Scheduled? then prefix[0].end else prior)
  }

  lemma {:induction false} EndAfterBound(prefix: seq<Segment>, prior: Option<int64>, start: int64)
    requires forall j | 0 <= j < |prefix| :: prefix[j].Valid()
    requires prior.Some? ==> prior.value <= start
    ensures EndAfter(prefix, prior).Some? ==> EndAfter(prefix, prior).value <= LatestEnd(prefix, start)
  {
    if prefix != [] {
      var s := prefix[0];
      assert s.Valid();
      var next := if s.state.Scheduled? && s.end.Some? && s.end.value > start then s.end.value else start;
      EndAfterBound(prefix[1..], if s.state.Scheduled? then s.end else prior, next);
    }
  }

  /** A preserved prefix in order leaves only the rest to be checked. */
  lemma {:induction false} PrefixSegmentFits(s: Segment, a: Activity)
    requires s.Valid() && a.Valid() && s.id == a.id
    ensures var b := PrefixSegment(s, a);
      && b.id == s.id && b.ValidFor(a, false) && b.start == s.start && b.end == s.end
      && b.disposition == if s.state.Scheduled? then Preserved else Dropped
  {
  }

  lemma {:induction false} FirstInSequence(activities: seq<Activity>, s: ProposalSegment, rest: seq<ProposalSegment>, n: nat,
                                           prior: Option<int64>)
    requires n > 0 && ActivityIndex(activities, s.id).Some? && s.ValidFor(activities[ActivityIndex(activities, s.id).value], false)
    requires s.disposition == Preserved || s.disposition == Dropped
    requires s.disposition != Dropped && prior.Some? ==> prior.value <= s.start.value
    requires InSequence(activities, rest, n - 1, if s.disposition == Dropped then prior else s.end)
    ensures InSequence(activities, [s] + rest, n, prior)
  {
    assert ([s] + rest)[1..] == rest;
  }

  lemma {:induction false} PrefixInSequence(activities: seq<Activity>, prefix: seq<Segment>, built: seq<ProposalSegment>,
                                            rest: seq<ProposalSegment>, prior: Option<int64>)
    requires |built| == |prefix|
    requires forall k | 0 <= k < |activities| :: activities[k].Valid()
    requires forall k | 0 <= k < |prefix| ::
      prefix[k].Valid() && ActivityIndex(activities, prefix[k].id).Some?
      && built[k] == PrefixSegment(prefix[k], activities[ActivityIndex(activities, prefix[k].id).value])
    requires InOrder(prefix, prior)
    requires InSequence(activities, rest, 0, EndAfter(prefix, prior))
    ensures InSequence(activities, built + rest, |prefix|, prior)
    decreases |prefix|
  {
    if prefix == [] {
      assert built + rest == rest;
    } else {
      var s := prefix[0];
      assert built + rest == [built[0]] + (built[1..] + rest);
      PrefixSegmentFits(s, activities[ActivityIndex(activities, s.id).value]);
      PrefixInSequence(activities, prefix[1..], built[1..], rest, if s.state.Scheduled? then s.end else prior);
      FirstInSequence(activities, built[0], built[1..] + rest, |prefix|, prior);
    }
  }

  /** What the k-th suffix segment must be for the tail from k to be in sequence. */
  ghost predicate FitsAt(activities: seq<Activity>, s: ProposalSegment, prior: Option<int64>) {
    && ActivityIndex(activities, s.id).Some?
    && s.ValidFor(activities[ActivityIndex(activities, s.id).value], true)
    && (s.disposition != Dropped && prior.Some? ==> prior.value <= s.start.value)
  }

  ghost predicate FitsBetween(activities: seq<Activity>, segment: ProposalSegment, before: Option<int64>, after: Option<int64>) {
    FitsAt(activities, segment, before) && after == (if segment.disposition == Dropped then before else segment.end)
  }

  lemma {:induction false} SuffixInSequence(activities: seq<Activity>, segments: seq<ProposalSegment>,
                                            priors: seq<Option<int64>>, k: nat)
    requires k <= |segments| && |priors| == |segments| + 1
    requires forall j | 0 <= j < |segments| :: FitsBetween(activities, segments[j], priors[j], priors[j + 1])
    ensures InSequence(activities, segments[k..], 0, priors[k])
    decreases |segments| - k
  {
    if k < |segments| {
      assert segments[k..][1..] == segments[k + 1..];
      assert FitsBetween(activities, segments[k], priors[k], priors[k + 1]);
      SuffixInSequence(activities, segments, priors, k + 1);
    }
  }

  // ----- ids -----

  lemma {:induction false} OwnActivity(input: SearchInput, activities: seq<Activity>, id: Id)
    requires TripsOwn(input, activities) && id in SegmentIds(input.prefix) + input.RemainingIds()
    ensures ActivityIndex(activities, id).Some?
  {
    assert id in multiset(SegmentIds(input.prefix) + input.RemainingIds());
    assert id in multiset(ActivityIds(activities));
    assert id in ActivityIds(activities);
    var k :| 0 <= k < |activities| && ActivityIds(activities)[k] == id;
    assert activities[k].id == id;
  }

  lemma {:induction false} SuffixNamed(input: SearchInput, activities: seq<Activity>, ds: seq<Decision>, k: nat)
    requires input.Valid() && TripsOwn(input, activities) && Known(input, ds) && k < |ds|
    ensures Named(input, activities, SegmentsOf(input, ds)[k])
    ensures input.IndexOfId(SegmentsOf(input, ds)[k].id) == input.IndexOf(ds[k].ordinal)
  {
    var index := input.IndexOf(ds[k].ordinal).value;
    IndexOfIsInverse(input, index);
    var id := input.remaining[index].activity.id;
    assert (SegmentIds(input.prefix) + input.RemainingIds())[|input.prefix| + index] == id;
    OwnActivity(input, activities, id);
  }

  lemma {:induction false} PrefixNamed(input: SearchInput, activities: seq<Activity>, k: nat)
    requires TripsOwn(input, activities) && k < |input.prefix|
    ensures ActivityIndex(activities, input.prefix[k].id).Some?
  {
    assert (SegmentIds(input.prefix) + input.RemainingIds())[k] == input.prefix[k].id;
    OwnActivity(input, activities, input.prefix[k].id);
  }

  /** A complete sequence names every suffix position exactly once. */
  lemma {:induction false} IndicesPermute(input: SearchInput, ds: seq<Decision>)
    requires input.Valid() && Known(input, ds) && |ds| == |input.remaining|
    ensures Distinct(DecidedIndices(input, ds))
    ensures forall i: nat :: i in DecidedIndices(input, ds) <==> i < |input.remaining|
  {
    var indices := DecidedIndices(input, ds);
    forall j, k | 0 <= j < k < |indices| ensures indices[j] != indices[k] {
      assert input.remaining[indices[j]].ordinal == ds[j].ordinal;
    }
    DistinctCovers(indices, |input.remaining|);
  }

  lemma {:induction false} SuffixIdsPermute(input: SearchInput, ds: seq<Decision>)
    requires input.Valid() && Known(input, ds) && |ds| == |input.remaining|
    ensures multiset(SegmentIds(SegmentsOf(input, ds))) == multiset(input.RemainingIds())
  {
    IndicesPermute(input, ds);
    var indices, ids, remaining := DecidedIndices(input, ds), SegmentIds(SegmentsOf(input, ds)), input.RemainingIds();
    RemainingIdsDistinct(input);
    forall k | 0 <= k < |ids| ensures ids[k] == remaining[indices[k]] {}
    forall x ensures x in ids <==> x in remaining {
      if x in remaining {
        var i :| 0 <= i < |remaining| && remaining[i] == x;
        assert i in indices;
        var k :| 0 <= k < |indices| && indices[k] == i;
        assert ids[k] == x;
      }
    }
    DistinctPermutation(ids, remaining);
  }

  lemma {:induction false} RemainingIdsDistinct(input: SearchInput)
    requires input.Valid()
    ensures Distinct(input.RemainingIds())
  {
    var ids := SegmentIds(input.prefix) + input.RemainingIds();
    forall i, j | 0 <= i < j < |input.remaining| ensures input.RemainingIds()[i] != input.RemainingIds()[j] {
      assert ids[|input.prefix| + i] != ids[|input.prefix| + j];
    }
  }

  // ----- every assembled segment fits -----

  /** The end of the last scheduled segment before a suffix position. */
  function PriorOf(input: SearchInput, visits: seq<Decision>, k: nat): Option<int64> {
    if k == 0 || visits == [] then EndAfter(input.prefix, None)
    else Some(visits[Min(k, |visits|) - 1].end)
  }

  /** The segment is the visit's, scheduled. */
  ghost predicate VisitAt(c: Context, suffix: seq<Segment>, visits: seq<Decision>, j: nat) {
    && j < |suffix| && j < |visits|
    && suffix[j].state.Scheduled? && c.input.IndexOfId(suffix[j].id) == c.input.IndexOf(visits[j].ordinal)
  }

  lemma {:induction false} AtLast(c: Context, suffix: seq<Segment>)
    requires c.input.Valid() && suffix != [] && suffix[|suffix| - 1].state.Scheduled? && SuffixSegments(c, suffix).Some?
    ensures c.input.IndexOfId(suffix[|suffix| - 1].id).Some?
    ensures SuffixSegments(c, suffix).value.at == c.input.IndexOfId(suffix[|suffix| - 1].id).value + 1
  {
  }

  lemma {:induction false} AtBeforeVisit(c: Context, suffix: seq<Segment>, visits: seq<Decision>, k: nat)
    requires c.input.Valid() && Known(c.input, visits) && k < |visits| <= |suffix| && AllNamed(c, suffix)
    requires forall j | 0 <= j < |visits| :: VisitAt(c, suffix, visits, j)
    ensures SuffixSegments(c, suffix[..k]).Some?
    ensures SuffixSegments(c, suffix[..k]).value.at == PriorAt(c.input, visits, k)
  {
    var shorter := suffix[..k];
    assert forall j | 0 <= j < k :: shorter[j] == suffix[j];
    assert AllNamed(c, shorter);
    SuffixExists(c, shorter);
    if k > 0 {
      assert shorter[|shorter| - 1] == suffix[k - 1];
      assert VisitAt(c, suffix, visits, k - 1);
      AtLast(c, shorter);
    }
  }

  lemma {:induction false} VisitFits(c: Context, suffix: seq<Segment>, visits: seq<Decision>, k: nat)
    requires c.input.Valid() && TripsOwn(c.input, c.activities)
    requires Known(c.input, visits) && k < |visits| <= |suffix| && AllNamed(c, suffix)
    requires forall j | 0 <= j < |visits| :: VisitAt(c, suffix, visits, j)
    requires suffix[k].start == Some(visits[k].start) && suffix[k].end == Some(visits[k].end)
    requires FollowsPrior(c.input, visits, k)
    ensures SuffixSegments(c, suffix[..k]).Some?
    ensures SegmentAt(c, suffix, k).disposition != Dropped && SegmentAt(c, suffix, k).end == Some(visits[k].end)
    ensures FitsAt(c.activities, SegmentAt(c, suffix, k), PriorOf(c.input, visits, k))
  {
    assert VisitAt(c, suffix, visits, k);
    AtBeforeVisit(c, suffix, visits, k);
    EndAfterBound(c.input.prefix, None, c.input.now);
    var segment := SegmentAt(c, suffix, k);
    var a := c.activities[ActivityIndex(c.activities, suffix[k].id).value];
    assert a.Valid() && segment.id == a.id;
    assert segment.inbound
        == Some(c.input.matrix.value.At(PriorAt(c.input, visits, k), c.input.IndexOf(visits[k].ordinal).value + 1));
  }

  lemma {:induction false} SkipFits(c: Context, suffix: seq<Segment>, k: nat, prior: Option<int64>)
    requires c.input.Valid() && TripsOwn(c.input, c.activities) && k < |suffix| && AllNamed(c, suffix)
    requires suffix[k].state.Omitted? && suffix[k].Valid()
    ensures SuffixSegments(c, suffix[..k]).Some?
    ensures SegmentAt(c, suffix, k).disposition == Dropped
    ensures FitsAt(c.activities, SegmentAt(c, suffix, k), prior)
  {
    assert forall j | 0 <= j < k :: suffix[..k][j] == suffix[j];
    SuffixExists(c, suffix[..k]);
    assert Named(c.input, c.activities, suffix[k]);
    assert c.activities[ActivityIndex(c.activities, suffix[k].id).value].Valid();
  }

  /** The canonical decisions of a plan: visits that follow one another, then skips. */
  ghost predicate PlanShape(input: SearchInput, canonical: seq<Decision>, visits: seq<Decision>)
    requires input.Valid()
  {
    && Known(input, canonical) && Known(input, visits) && visits <= canonical
    && (forall k | 0 <= k < |visits| :: visits[k].kind == 0 && FollowsPrior(input, visits, k))
    && (forall k | |visits| <= k < |canonical| :: canonical[k].kind == 1)
  }

  lemma {:induction false} PlanHasShape(input: SearchInput, ds: seq<Decision>)
    requires CompletePlan(input, ds)
    ensures PlanShape(input, CanonicalForm(ds), Visits(ds))
  {
    KnownCanonical(input, ds);
    var visits, skips := Visits(ds), Sort(ByOrdinal, Skips(ds));
    KnownTake(input, CanonicalForm(ds), |visits|);
    assert CanonicalForm(ds)[..|visits|] == visits;
    SameElements(skips, Skips(ds));
    forall k | 0 <= k < |visits| ensures visits[k].kind == 0 && FollowsPrior(input, visits, k) {
      assert visits[k] in Visits(ds);
      HalfMember(input, ds, visits[k]);
      RunFollows(input, visits, k);
    }
    forall k | |visits| <= k < |CanonicalForm(ds)| ensures CanonicalForm(ds)[k].kind == 1 {
      assert CanonicalForm(ds)[k] == skips[k - |visits|] && skips[k - |visits|] in skips;
      HalfMember(input, ds, skips[k - |visits|]);
    }
  }

  lemma {:induction false} VisitsMatch(c: Context, canonical: seq<Decision>, visits: seq<Decision>)
    requires c.input.Valid() && TripsOwn(c.input, c.activities) && Known(c.input, canonical) && visits <= canonical
    requires forall k | 0 <= k < |visits| :: visits[k].kind == 0
    ensures forall j | 0 <= j < |visits| :: VisitAt(c, SegmentsOf(c.input, canonical), visits, j)
  {
    forall j | 0 <= j < |visits| ensures VisitAt(c, SegmentsOf(c.input, canonical), visits, j) {
      assert canonical[j] == visits[j];
      SuffixNamed(c.input, c.activities, canonical, j);
    }
  }

  lemma {:induction false} SegmentOfDecision(input: SearchInput, ds: seq<Decision>, k: nat)
    requires Known(input, ds) && k < |ds|
    ensures var segment := SegmentsOf(input, ds)[k];
      if ds[k].kind == 0
      then segment.state.Scheduled? && segment.start == Some(ds[k].start) && segment.end == Some(ds[k].end)
      else segment.state.Omitted? && segment.Valid()
  {
  }

  lemma {:induction false} VisitPosition(c: Context, canonical: seq<Decision>, visits: seq<Decision>, k: nat)
    requires c.input.Valid() && TripsOwn(c.input, c.activities) && PlanShape(c.input, canonical, visits)
    requires k < |visits| && AllNamed(c, SegmentsOf(c.input, canonical))
    ensures SuffixSegments(c, SegmentsOf(c.input, canonical)[..k]).Some?
    ensures SegmentAt(c, SegmentsOf(c.input, canonical), k).disposition != Dropped
    ensures SegmentAt(c, SegmentsOf(c.input, canonical), k).end == Some(visits[k].end)
    ensures FitsAt(c.activities, SegmentAt(c, SegmentsOf(c.input, canonical), k), PriorOf(c.input, visits, k))
  {
    VisitsMatch(c, canonical, visits);
    SegmentOfDecision(c.input, canonical, k);
    assert canonical[k] == visits[k] && FollowsPrior(c.input, visits, k);
    VisitFits(c, SegmentsOf(c.input, canonical), visits, k);
  }

  /** The segment assembled at each position, with the end before and after it. */
  lemma {:induction false} PositionFits(c: Context, canonical: seq<Decision>, visits: seq<Decision>, k: nat)
    requires c.input.Valid() && TripsOwn(c.input, c.activities) && PlanShape(c.input, canonical, visits)
    requires k < |canonical| && AllNamed(c, SegmentsOf(c.input, canonical))
    ensures SuffixSegments(c, SegmentsOf(c.input, canonical)[..k]).Some?
    ensures var segment := SegmentAt(c, SegmentsOf(c.input, canonical), k);
      && FitsAt(c.activities, segment, PriorOf(c.input, visits, k))
      && PriorOf(c.input, visits, k + 1) == (if segment.disposition == Dropped then PriorOf(c.input, visits, k) else segment.end)
  {
    if k < |visits| {
      VisitPosition(c, canonical, visits, k);
    } else {
      SegmentOfDecision(c.input, canonical, k);
      SkipFits(c, SegmentsOf(c.input, canonical), k, PriorOf(c.input, visits, k));
    }
  }

  lemma {:induction false} PlanIsNamed(c: Context, canonical: seq<Decision>)
    requires c.input.Valid() && TripsOwn(c.input, c.activities) && Known(c.input, canonical)
    ensures AllNamed(c, SegmentsOf(c.input, canonical))
  {
    var suffix := SegmentsOf(c.input, canonical);
    forall k | 0 <= k < |suffix| ensures Named(c.input, c.activities, suffix[k]) {
      SuffixNamed(c.input, c.activities, canonical, k);
    }
  }

  lemma {:induction false} BuiltFits(c: Context, canonical: seq<Decision>, visits: seq<Decision>, k: nat)
    requires c.input.Valid() && TripsOwn(c.input, c.activities) && PlanShape(c.input, canonical, visits)
    requires k < |canonical| && AllNamed(c, SegmentsOf(c.input, canonical))
    ensures SuffixSegments(c, SegmentsOf(c.input, canonical)).Some?
    ensures |SuffixSegments(c, SegmentsOf(c.input, canonical)).value.segments| == |canonical|
    ensures var segment := SuffixSegments(c, SegmentsOf(c.input, canonical)).value.segments[k];
      FitsBetween(c.activities, segment, PriorOf(c.input, visits, k), PriorOf(c.input, visits, k + 1))
      && segment.id == SegmentsOf(c.input, canonical)[k].id
  {
    SuffixPointwise(c, SegmentsOf(c.input, canonical), k);
    PositionFits(c, canonical, visits, k);
  }

  function Priors(input: SearchInput, visits: seq<Decision>, n: nat): seq<Option<int64>> {
    seq(n + 1, k requires 0 <= k <= n => PriorOf(input, visits, k))
  }

  lemma {:induction false} SuffixOfPlan(c: Context, canonical: seq<Decision>, visits: seq<Decision>)
    requires c.input.Valid() && TripsOwn(c.input, c.activities) && PlanShape(c.input, canonical, visits)
    ensures var built := SuffixSegments(c, SegmentsOf(c.input, canonical));
      built.Some? && ProposalIds(built.value.segments) == SegmentIds(SegmentsOf(c.input, canonical))
      && InSequence(c.activities, built.value.segments, 0, EndAfter(c.input.prefix, None))
  {
    PlanIsNamed(c, canonical);
    SuffixExists(c, SegmentsOf(c.input, canonical));
    var suffix := SegmentsOf(c.input, canonical);
    var segments := SuffixSegments(c, suffix).value.segments;
    forall k | 0 <= k < |canonical|
      ensures FitsBetween(c.activities, segments[k], PriorOf(c.input, visits, k), PriorOf(c.input, visits, k + 1))
      ensures segments[k].id == suffix[k].id
    {
      BuiltFits(c, canonical, visits, k);
    }
    IdsAgree(segments, suffix);
    PriorsInSequence(c.input, visits, c.activities, segments);
  }

  lemma {:induction false} IdsAgree(segments: seq<ProposalSegment>, suffix: seq<Segment>)
    requires |segments| == |suffix| && forall k | 0 <= k < |segments| :: segments[k].id == suffix[k].id
    ensures ProposalIds(segments) == SegmentIds(suffix)
  {
  }

  lemma {:induction false} PriorsInSequence(input: SearchInput, visits: seq<Decision>, activities: seq<Activity>, segments: seq<ProposalSegment>)
    requires forall k | 0 <= k < |segments| ::
      FitsBetween(activities, segments[k], PriorOf(input, visits, k), PriorOf(input, visits, k + 1))
    ensures InSequence(activities, segments, 0, EndAfter(input.prefix, None))
  {
    SuffixInSequence(activities, segments, Priors(input, visits, |segments|), 0);
    assert segments[0..] == segments;
  }

  /** The final validity check of the assembler fails only on zero source versions. */
  lemma {:induction false} ProposalIsValid(input: SearchInput, canonical: seq<Decision>, visits: seq<Decision>,
                                           activities: seq<Activity>, proposal: PlanProposal, c: Context)
    requires input.Valid() && TripsOwn(input, activities) && PlanShape(input, canonical, visits)
    requires |canonical| == |input.remaining| && c.input == input && c.activities == activities
    requires PrefixSegments(activities, input.prefix) == Some(proposal.prefix)
    requires SuffixSegments(c, SegmentsOf(input, canonical)).Some?
    requires SuffixSegments(c, SegmentsOf(input, canonical)).value.segments == proposal.suffix
    ensures proposal.ValidFor(activities) <==>
            proposal.sourceEpoch != 0 && proposal.sourceRevision != 0 && proposal.sourceMutation != 0
    ensures |activities| == |input.prefix| + |canonical|
  {
    SuffixOfPlan(c, canonical, visits);
    forall k | 0 <= k < |input.prefix| ensures ActivityIndex(activities, input.prefix[k].id).Some? {
      PrefixNamed(input, activities, k);
    }
    PrefixPointwise(activities, input.prefix);
    PrefixInSequence(activities, input.prefix, proposal.prefix, proposal.suffix, None);
    ProposalIdsPermute(input, canonical, activities, proposal);
  }

  lemma {:induction false} ProposalIdsPermute(input: SearchInput, canonical: seq<Decision>, activities: seq<Activity>,
                                              proposal: PlanProposal)
    requires input.Valid() && TripsOwn(input, activities) && Known(input, canonical) && |canonical| == |input.remaining|
    requires |proposal.prefix| == |input.prefix|
    requires forall k | 0 <= k < |input.prefix| :: proposal.prefix[k].id == input.prefix[k].id
    requires ProposalIds(proposal.suffix) == SegmentIds(SegmentsOf(input, canonical))
    ensures multiset(ProposalIds(proposal.prefix + proposal.suffix)) == multiset(ActivityIds(activities))
    ensures Distinct(ProposalIds(proposal.prefix + proposal.suffix))
    ensures |activities| == |input.prefix| + |canonical|
  {
    var ids := ProposalIds(proposal.prefix + proposal.suffix);
    assert |proposal.suffix| == |ProposalIds(proposal.suffix)| == |canonical|;
    assert ids == SegmentIds(input.prefix) + ProposalIds(proposal.suffix) by {
      forall k | 0 <= k < |proposal.suffix| ensures ids[|input.prefix| + k] == ProposalIds(proposal.suffix)[k] {}
    }
    SuffixIdsPermute(input, canonical);
    SameElements(ActivityIds(activities), SegmentIds(input.prefix) + input.RemainingIds());
    DistinctCarriesOver(ActivityIds(activities), ids);
  }

  lemma {:induction false} DistinctCarriesOver(a: seq<Id>, b: seq<Id>)
    requires Distinct(a) && multiset(a) == multiset(b)
    ensures Distinct(b)
  {
    forall i, j | 0 <= i < j < |b| ensures b[i] != b[j] {
      DistinctCounts(a, b[i]);
      assert b == b[..j] + [b[j]] + b[j + 1..] && b[i] in b[..j];
    }
  }

  lemma {:induction false} PrefixAssembles(input: SearchInput, activities: seq<Activity>)
    requires TripsOwn(input, activities)
    ensures PrefixSegments(activities, input.prefix).Some?
  {
    forall k | 0 <= k < |input.prefix| ensures ActivityIndex(activities, input.prefix[k].id).Some? {
      PrefixNamed(input, activities, k);
    }
    PrefixPointwise(activities, input.prefix);
  }

  /** Once the parts exist, only the last check decides. */
  lemma {:induction false} AssemblyUnfolds(input: SearchInput, ds: seq<Decision>, suffix: seq<Segment>, activities: seq<Activity>,
                                           source: ProposalSource, reasons: bool -> seq<Reason>, c: Context, proposal: PlanProposal,
                                           passes: bool)
    requires input.Valid() && ReconstructItinerary(input, ds) == Some(Itinerary(input.prefix, suffix))
    requires |activities| == |input.prefix| + |suffix| && c == ContextFor(input, activities, suffix, reasons)
    requires PrefixSegments(activities, input.prefix).Some? && SuffixSegments(c, suffix).Some?
    requires proposal == PlanProposal(source.proposalId, source.epoch, source.plannerVersion, source.basePlanId,
                                      source.revision, source.mutation, PrefixSegments(activities, input.prefix).value,
                                      SuffixSegments(c, suffix).value.segments, source.createdAt)
    requires passes == proposal.ValidFor(activities)
    ensures AssembleProposal(input, ds, activities, source, reasons).Some? == passes
  {
  }

  lemma {:induction false} AssemblyOfShape(input: SearchInput, ds: seq<Decision>, canonical: seq<Decision>, visits: seq<Decision>,
                                           activities: seq<Activity>, source: ProposalSource, reasons: bool -> seq<Reason>)
    requires input.Valid() && PlanShape(input, canonical, visits) && TripsOwn(input, activities)
    requires |canonical| == |input.remaining|
    requires ReconstructItinerary(input, ds) == Some(Itinerary(input.prefix, SegmentsOf(input, canonical)))
    ensures AssembleProposal(input, ds, activities, source, reasons).Some? <==>
            source.epoch != 0 && source.revision != 0 && source.mutation != 0
  {
    var suffix := SegmentsOf(input, canonical);
    var c := ContextFor(input, activities, suffix, reasons);
    SuffixOfPlan(c, canonical, visits);
    PrefixAssembles(input, activities);
    var proposal := PlanProposal(source.proposalId, source.epoch, source.plannerVersion, source.basePlanId,
                                 source.revision, source.mutation, PrefixSegments(activities, input.prefix).value,
                                 SuffixSegments(c, suffix).value.segments, source.createdAt);
    ProposalIsValid(input, canonical, visits, activities, proposal, c);
    AssemblyUnfolds(input, ds, suffix, activities, source, reasons, c, proposal, proposal.ValidFor(activities));
  }

  /** End to end: every complete plan assembles, and the result passes every
      proposal check, exactly when the source versions are non-zero. */
  lemma {:induction false} AssemblySucceeds(input: SearchInput, ds: seq<Decision>, activities: seq<Activity>,
                                            source: ProposalSource, reasons: bool -> seq<Reason>)
    requires CompletePlan(input, ds) && TripsOwn(input, activities)
    ensures AssembleProposal(input, ds, activities, source, reasons).Some? <==>
            source.epoch != 0 && source.revision != 0 && source.mutation != 0
    ensures AssembleProposal(input, ds, activities, source, reasons).Some? ==>
            AssembleProposal(input, ds, activities, source, reasons).value.proposal.ValidFor(activities)
  {
    ReconstructionSucceeds(input, ds);
    PlanHasShape(input, ds);
    CanonicalHalves(ds);
    AssemblyOfShape(input, ds, CanonicalForm(ds), Visits(ds), activities, source, reasons);
  }
}

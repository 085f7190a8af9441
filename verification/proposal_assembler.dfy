/** From an itinerary to a proposal, and its own notion of what changed. */
module ProposalAssembler {
  import opened Domain
  import opened PlannerInput
  import opened CandidateScores
  import opened Itineraries
  import opened Proposals

  datatype ProposalSource = ProposalSource(
    proposalId: Id, epoch: uint64, plannerVersion: uint64, basePlanId: Id,
    revision: uint64, mutation: uint64, createdAt: int64)

  datatype Assembled = Assembled(proposal: PlanProposal, changesCurrentPlan: bool)

  // ----- what changed, by id -----

  function ScheduledIds(segments: seq<Segment>): seq<Id> {
    if segments == [] then []
    else
      var front, last := ScheduledIds(segments[..|segments| - 1]), segments[|segments| - 1];
      if last.state.Scheduled? then front + [last.id] else front
  }

  /** Baseline-scheduled activities the candidate also schedules, in plan order. */
  function CommonBaseline(input: SearchInput, scheduled: seq<Id>, limit: nat): seq<Id>
    requires limit <= |input.remaining|
  {
    if limit == 0 then []
    else
      var a := input.remaining[limit - 1];
      var front := CommonBaseline(input, scheduled, limit - 1);
      if a.BaselineScheduled() && a.activity.id in scheduled then front + [a.activity.id] else front
  }

  /** The same activities in the candidate's order. */
  function CommonCandidate(input: SearchInput, scheduled: seq<Id>): seq<Id> {
    if scheduled == [] then []
    else
      var front, last := CommonCandidate(input, scheduled[..|scheduled| - 1]), scheduled[|scheduled| - 1];
      var index := input.IndexOfId(last);
      if index.Some? && input.remaining[index.value].BaselineScheduled() then front + [last] else front
  }

  function Find(ids: seq<Id>, id: Id): (r: nat)
    ensures r <= |ids|
    ensures r < |ids| ==> ids[r] == id
    ensures forall k | 0 <= k < r :: ids[k] != id
  {
    if ids == [] then 0
    else if ids[0] == id then 0
    else
      assert forall k | 0 < k < |ids| :: ids[k] == ids[1..][k - 1];
      1 + Find(ids[1..], id)
  }

  predicate PositionChanged(id: Id, baseline: seq<Id>, candidate: seq<Id>) {
    Find(baseline, id) < |baseline| && Find(candidate, id) < |candidate| && Find(baseline, id) != Find(candidate, id)
  }

  predicate SegmentChanged(baseline: Segment, candidate: Segment, commonBaseline: seq<Id>, commonCandidate: seq<Id>) {
    if baseline.state != candidate.state then true
    else if baseline.state.Omitted? then false
    else
      baseline.start != candidate.start || baseline.end != candidate.end
      || PositionChanged(candidate.id, commonBaseline, commonCandidate)
  }

  // ----- building the proposal -----

  function PrefixSegment(s: Segment, a: Activity): ProposalSegment {
    ProposalSegment(s.id, a.location, a.timeZone, s.start, s.end, None,
                    if s.state.Omitted? then Dropped else Preserved, [])
  }

  function PrefixSegments(activities: seq<Activity>, prefix: seq<Segment>): Option<seq<ProposalSegment>> {
    if prefix == [] then Some([])
    else
      var front, last := PrefixSegments(activities, prefix[..|prefix| - 1]), prefix[|prefix| - 1];
      var index := ActivityIndex(activities, last.id);
      if front.None? || index.None? then None
      else Some(front.value + [PrefixSegment(last, activities[index.value])])
  }

  /** The loop's state: segments so far, whether any changed, the last matrix index. */
  datatype Building = Building(segments: seq<ProposalSegment>, changed: bool, at: nat)

  datatype Context = Context(
    input: SearchInput, activities: seq<Activity>, baseline: seq<Id>, candidate: seq<Id>, reasons: bool -> seq<Reason>)

  function SuffixSegment(c: Context, at: nat, s: Segment, index: nat, a: Activity): ProposalSegment
    requires c.input.Valid() && at <= |c.input.remaining| && index < |c.input.remaining|
  {
    var baseline := c.input.remaining[index].segment;
    var changed := SegmentChanged(baseline, s, c.baseline, c.candidate);
    ProposalSegment(
      s.id, a.location, a.timeZone, s.start, s.end,
      if s.state.Scheduled? then Some(c.input.matrix.value.At(at, index + 1)) else None,
      if s.state.Omitted? then Dropped
      else if baseline.state.Omitted? then Added
      else if changed then Disposition.Moved
      else Preserved,
      c.reasons(changed))
  }

  function SuffixSegments(c: Context, suffix: seq<Segment>): (r: Option<Building>)
    requires c.input.Valid()
    ensures r.Some? ==> r.value.at <= |c.input.remaining|
  {
    if suffix == [] then Some(Building([], false, 0))
    else
      var front, s := SuffixSegments(c, suffix[..|suffix| - 1]), suffix[|suffix| - 1];
      var index, activity := c.input.IndexOfId(s.id), ActivityIndex(c.activities, s.id);
      if front.None? || index.None? || activity.None? then None
      else
        var changed := SegmentChanged(c.input.remaining[index.value].segment, s, c.baseline, c.candidate);
        Some(Building(front.value.segments + [SuffixSegment(c, front.value.at, s, index.value, c.activities[activity.value])],
                      front.value.changed || changed,
                      if s.state.Scheduled? then index.value + 1 else front.value.at))
  }

  function ContextFor(input: SearchInput, activities: seq<Activity>, suffix: seq<Segment>, reasons: bool -> seq<Reason>): Context {
    var scheduled := ScheduledIds(suffix);
    Context(input, activities, CommonBaseline(input, scheduled, |input.remaining|), CommonCandidate(input, scheduled), reasons)
  }

  function AssembleProposal(input: SearchInput, ds: seq<Decision>, activities: seq<Activity>, source: ProposalSource,
                            reasons: bool -> seq<Reason>): Option<Assembled>
  {
    var itinerary := ReconstructItinerary(input, ds);
    if itinerary.None? || |activities| != |itinerary.value.prefix| + |itinerary.value.suffix| then None
    else
      var prefix := PrefixSegments(activities, itinerary.value.prefix);
      var suffix := SuffixSegments(ContextFor(input, activities, itinerary.value.suffix, reasons), itinerary.value.suffix);
      if prefix.None? || suffix.None? then None
      else
        var proposal := PlanProposal(source.proposalId, source.epoch, source.plannerVersion, source.basePlanId,
                                     source.revision, source.mutation, prefix.value, suffix.value.segments, source.createdAt);
        if proposal.ValidFor(activities) then Some(Assembled(proposal, suffix.value.changed)) else None
  }

  // ----- the loops -----

  method BuildSuffix(c: Context, suffix: seq<Segment>) returns (r: Option<Building>)
    requires c.input.Valid()
    ensures r == SuffixSegments(c, suffix)
  {
    var segments: seq<ProposalSegment> := [];
    var changesCurrentPlan := false;
    var priorMatrixIndex: nat := 0;
    for k := 0 to |suffix|
      invariant SuffixSegments(c, suffix[..k]) == Some(Building(segments, changesCurrentPlan, priorMatrixIndex))
    {
      var s := suffix[k];
      assert suffix[..k + 1][..k] == suffix[..k];
      var index, activity := c.input.IndexOfId(s.id), ActivityIndex(c.activities, s.id);
      if index.None? || activity.None? {
        NoSuffix(c, suffix, k + 1);
        return None;
      }
      var changed := SegmentChanged(c.input.remaining[index.value].segment, s, c.baseline, c.candidate);
      segments := segments + [SuffixSegment(c, priorMatrixIndex, s, index.value, c.activities[activity.value])];
      changesCurrentPlan := changesCurrentPlan || changed;
      if s.state.Scheduled? {
        priorMatrixIndex := index.value + 1;
      }
    }
    assert suffix[..|suffix|] == suffix;
    r := Some(Building(segments, changesCurrentPlan, priorMatrixIndex));
  }

  lemma {:induction false} NoSuffix(c: Context, suffix: seq<Segment>, k: nat)
    requires c.input.Valid() && k <= |suffix| && SuffixSegments(c, suffix[..k]).None?
    ensures SuffixSegments(c, suffix).None?
    decreases |suffix|
  {
    if k < |suffix| {
      NoSuffix(c, suffix[..|suffix| - 1], k) by { assert suffix[..|suffix| - 1][..k] == suffix[..k]; }
    } else {
      assert suffix[..k] == suffix;
    }
  }

  method BuildPrefix(activities: seq<Activity>, prefix: seq<Segment>) returns (r: Option<seq<ProposalSegment>>)
    ensures r == PrefixSegments(activities, prefix)
  {
    var segments: seq<ProposalSegment> := [];
    for k := 0 to |prefix|
      invariant PrefixSegments(activities, prefix[..k]) == Some(segments)
    {
      assert prefix[..k + 1][..k] == prefix[..k];
      var index := ActivityIndex(activities, prefix[k].id);
      if index.None? {
        NoPrefix(activities, prefix, k + 1);
        return None;
      }
      segments := segments + [PrefixSegment(prefix[k], activities[index.value])];
    }
    assert prefix[..|prefix|] == prefix;
    r := Some(segments);
  }

  lemma {:induction false} NoPrefix(activities: seq<Activity>, prefix: seq<Segment>, k: nat)
    requires k <= |prefix| && PrefixSegments(activities, prefix[..k]).None?
    ensures PrefixSegments(activities, prefix).None?
    decreases |prefix|
  {
    if k < |prefix| {
      NoPrefix(activities, prefix[..|prefix| - 1], k) by { assert prefix[..|prefix| - 1][..k] == prefix[..k]; }
    } else {
      assert prefix[..k] == prefix;
    }
  }

  method Assemble(input: SearchInput, ds: seq<Decision>, activities: seq<Activity>, source: ProposalSource,
                  reasons: bool -> seq<Reason>) returns (r: Option<Assembled>)
    ensures r == AssembleProposal(input, ds, activities, source, reasons)
  {
    var itinerary := BuildItinerary(input, ds);
    if itinerary.None? || |activities| != |itinerary.value.prefix| + |itinerary.value.suffix| {
      return None;
    }
    var prefix := BuildPrefix(activities, itinerary.value.prefix);
    if prefix.None? {
      return None;
    }
    var context := ContextFor(input, activities, itinerary.value.suffix, reasons);
    var suffix := BuildSuffix(context, itinerary.value.suffix);
    if suffix.None? {
      return None;
    }
    var proposal := PlanProposal(source.proposalId, source.epoch, source.plannerVersion, source.basePlanId,
                                 source.revision, source.mutation, prefix.value, suffix.value.segments, source.createdAt);
    r := if proposal.ValidFor(activities) then Some(Assembled(proposal, suffix.value.changed)) else None;
  }
}

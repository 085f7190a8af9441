/** From a trip's state to the input of a planning attempt. */
module PlanningInputAssembly {
  import opened Domain
  import opened PlannerInput
  import opened TripEvents
  import opened TripStates
  import opened ProposalTheorems

  datatype Frame = Frame(now: int64, horizonStart: int64, horizonEnd: int64)

  /** Finished activities and the one under way stay as they are. */
  function PreservedCount(s: TripState): nat {
    s.prefix + if s.current.Some? then 1 else 0
  }

  predicate AllHave(activities: seq<Activity>, segments: seq<Segment>) {
    forall i | 0 <= i < |segments| :: Has(activities, segments[i].id)
  }

  function PlanningEntry(activities: seq<Activity>, segment: Segment): PlanningActivity
    requires Has(activities, segment.id)
  {
    var ordinal := ActivityIndex(activities, segment.id).value;
    PlanningActivity(activities[ordinal], ordinal, segment)
  }

  function Entries(activities: seq<Activity>, segments: seq<Segment>): (r: seq<PlanningActivity>)
    requires AllHave(activities, segments)
    ensures |r| == |segments|
  {
    seq(|segments|, i requires 0 <= i < |segments| && Has(activities, segments[i].id) => PlanningEntry(activities, segments[i]))
  }

  /** The input for a valid state: the rest of the plan, in its order. */
  function InputOf(s: TripState, f: Frame, matrix: Matrix): SearchInput
    requires PreservedCount(s) <= |s.plan.segments| && AllHave(s.activities, s.plan.segments)
  {
    var k := PreservedCount(s);
    SearchInput(f.now, f.horizonStart, f.horizonEnd, s.plan.segments[..k], Entries(s.activities, s.plan.segments[k..]), Some(matrix))
  }

  predicate InHorizon(f: Frame) { f.horizonStart < f.horizonEnd && f.horizonStart <= f.now <= f.horizonEnd }

  /** What the caller must get right: the clock within the horizon, and a matrix
      of the current location and every remaining activity. */
  predicate Framed(s: TripState, f: Frame, matrix: Matrix) {
    InHorizon(f) && matrix.count + PreservedCount(s) == |s.plan.segments| + 1
  }

  // ----- a valid state gives a valid input -----

  lemma {:induction false} ValidStateFacts(s: TripState)
    requires s.Valid()
    ensures PreservedCount(s) <= |s.plan.segments| <= 64
    ensures AllHave(s.activities, s.plan.segments)
    ensures forall i | PreservedCount(s) <= i < |s.plan.segments| ::
      StateOf(s.activities, s.plan.segments[i].id) == Some(Planned)
  {
    var segments := s.plan.segments;
    forall i | 0 <= i < |segments| ensures Has(s.activities, segments[i].id) {
      assert SegmentFits(s.activities, segments[i].id, i, s.prefix);
    }
    forall i | PreservedCount(s) <= i < |segments| ensures StateOf(s.activities, segments[i].id) == Some(Planned) {
      assert SegmentFits(s.activities, segments[i].id, i, s.prefix);
    }
  }

  lemma {:induction false} FrontInOrder(segments: seq<Segment>, k: nat, priorEnd: Option<int64>)
    requires k <= |segments| && (forall i | 0 <= i < |segments| :: segments[i].Valid()) && InOrder(segments, priorEnd)
    ensures InOrder(segments[..k], priorEnd)
    decreases |segments|
  {
    if k > 0 {
      var first := segments[0];
      assert first.Valid();
      FrontInOrder(segments[1..], k - 1, if first.state.Scheduled? then first.end else priorEnd);
      assert segments[..k][1..] == segments[1..][..k - 1];
    }
  }

  lemma {:induction false} EntriesAreValid(activities: seq<Activity>, segments: seq<Segment>)
    requires OwnActivities(activities) && AllHave(activities, segments)
    requires forall i | 0 <= i < |segments| :: segments[i].Valid()
    ensures forall i | 0 <= i < |segments| :: Entries(activities, segments)[i].Valid()
  {
    forall i | 0 <= i < |segments| ensures Entries(activities, segments)[i].Valid() {
      assert Has(activities, segments[i].id) && segments[i].Valid();
      assert activities[ActivityIndex(activities, segments[i].id).value].Valid();
    }
  }

  /** The ids of the two parts of the plan are the ids of the plan. */
  lemma {:induction false} IdsOfParts(s: TripState, f: Frame, matrix: Matrix)
    requires PreservedCount(s) <= |s.plan.segments| && AllHave(s.activities, s.plan.segments)
    ensures var input := InputOf(s, f, matrix); SegmentIds(input.prefix) + input.RemainingIds() == SegmentIds(s.plan.segments)
  {
    var input, segments, k := InputOf(s, f, matrix), s.plan.segments, PreservedCount(s);
    forall i | 0 <= i < |segments| - k ensures input.RemainingIds()[i] == segments[k + i].id {
      assert Has(s.activities, segments[k + i].id);
    }
  }

  lemma {:induction false} OrdinalsAreDistinct(activities: seq<Activity>, segments: seq<Segment>, input: SearchInput)
    requires AllHave(activities, segments) && Distinct(SegmentIds(segments)) && input.remaining == Entries(activities, segments)
    ensures Distinct(input.Ordinals())
  {
    var ids, ordinals := SegmentIds(segments), input.Ordinals();
    forall i, j | 0 <= i < j < |ordinals| ensures ordinals[i] != ordinals[j] {
      assert Has(activities, segments[i].id) && Has(activities, segments[j].id);
      assert ids[i] != ids[j];
    }
  }

  lemma {:induction false} BackIsDistinct(segments: seq<Segment>, k: nat)
    requires k <= |segments| && Distinct(SegmentIds(segments))
    ensures Distinct(SegmentIds(segments[k..]))
  {
    var ids := SegmentIds(segments);
    forall i, j | 0 <= i < j < |segments| - k ensures SegmentIds(segments[k..])[i] != SegmentIds(segments[k..])[j] {
      assert ids[k + i] != ids[k + j];
    }
  }

  lemma {:induction false} InputIsValid(s: TripState, f: Frame, matrix: Matrix)
    requires s.Valid() && Framed(s, f, matrix)
    ensures PreservedCount(s) <= |s.plan.segments| && AllHave(s.activities, s.plan.segments)
    ensures InputOf(s, f, matrix).Valid()
  {
    var segments, k := s.plan.segments, PreservedCount(s);
    ValidStateFacts(s);
    FrontInOrder(segments, k, None);
    assert AllHave(s.activities, segments[k..]);
    EntriesAreValid(s.activities, segments[k..]);
    IdsOfParts(s, f, matrix);
    BackIsDistinct(segments, k);
    OrdinalsAreDistinct(s.activities, segments[k..], InputOf(s, f, matrix));
  }

  /** The input's activities are the trip's own. */
  lemma {:induction false} InputIsOwn(s: TripState, f: Frame, matrix: Matrix)
    requires s.Valid() && PreservedCount(s) <= |s.plan.segments| && AllHave(s.activities, s.plan.segments)
    ensures TripsOwn(InputOf(s, f, matrix), s.activities)
  {
    IdsOfParts(s, f, matrix);
  }

  // ----- the assembly as a loop -----

  method CheckStates(s: TripState) returns (ok: bool)
    requires s.Valid()
    ensures ok
  {
    for index := 0 to |s.plan.segments|
    {
      assert SegmentFits(s.activities, s.plan.segments[index].id, index, s.prefix);
      var state := StateOf(s.activities, s.plan.segments[index].id);
      if state.None? {
        return false;
      }
      if index < s.prefix {
        if !Terminal(state.value) {
          return false;
        }
      } else if Terminal(state.value) {
        return false;
      }
    }
    ok := true;
  }

  method CollectRemaining(activities: seq<Activity>, segments: seq<Segment>) returns (r: Option<seq<PlanningActivity>>)
    requires forall i | 0 <= i < |segments| :: StateOf(activities, segments[i].id) == Some(Planned)
    ensures AllHave(activities, segments) && r == Some(Entries(activities, segments))
  {
    var remaining := [];
    for index := 0 to |segments|
      invariant AllHave(activities, segments[..index]) && remaining == Entries(activities, segments[..index])
    {
      assert StateOf(activities, segments[index].id) == Some(Planned);
      var ordinal := ActivityIndex(activities, segments[index].id);
      if ordinal.None? || activities[ordinal.value].state.Started? {
        return None;
      }
      remaining := remaining + [PlanningActivity(activities[ordinal.value], ordinal.value, segments[index])];
    }
    assert segments[..|segments|] == segments;
    r := Some(remaining);
  }

  /** `assemble_beam_search_input`: for a valid state it fails only on the frame;
      none of its checks of the plan can. */
  method AssembleInput(s: TripState, f: Frame, matrix: Matrix) returns (r: Option<SearchInput>)
    ensures r.Some? <==> s.Valid() && Framed(s, f, matrix)
    ensures r.Some? ==> PreservedCount(s) <= |s.plan.segments| && AllHave(s.activities, s.plan.segments)
    ensures r.Some? ==> r.value == InputOf(s, f, matrix) && r.value.Valid()
  {
    var valid := CheckTripState(s);
    if !valid || s.prefix > |s.plan.segments| {
      return None;
    }
    ValidStateFacts(s);
    var ok := CheckStates(s);
    if !ok {
      return None;
    }
    var preserved := s.prefix;
    if s.current.Some? {
      if preserved >= |s.plan.segments| || s.plan.segments[preserved].id != s.current.value {
        return None;
      }
      if StateOf(s.activities, s.current.value) != Some(Started) {
        return None;
      }
      preserved := preserved + 1;
    }
    var remaining := CollectRemaining(s.activities, s.plan.segments[preserved..]);
    if remaining.None? {
      return None;
    }
    var input := SearchInput(f.now, f.horizonStart, f.horizonEnd, s.plan.segments[..preserved], remaining.value, Some(matrix));
    if Framed(s, f, matrix) { InputIsValid(s, f, matrix); }
    r := if input.Valid() then Some(input) else None;
  }
}

/** The immutable input of one planning attempt. */
module PlannerInput {
  import opened Domain

  /** One activity of the suffix, its stable trip ordinal, and the segment the
      user's current plan gives it. */
  datatype PlanningActivity = PlanningActivity(activity: Activity, ordinal: nat, segment: Segment) {
    predicate Valid() {
      activity.Valid() && activity.id == segment.id && segment.Valid()
    }

    predicate BaselineScheduled() { segment.state.Scheduled? }

    /** Neither the user nor the engine may drop this activity. */
    predicate Protected() { activity.timing.mandatory || !activity.timing.canSkip }
  }

  /** `remaining` is in current-plan order; matrix index 0 is the current
      location and index i + 1 is `remaining[i]`. */
  datatype SearchInput = SearchInput(
    now: int64,
    horizonStart: int64,
    horizonEnd: int64,
    prefix: seq<Segment>,
    remaining: seq<PlanningActivity>,
    matrix: Option<Matrix>)
  {
    predicate Valid() {
      && horizonStart < horizonEnd
      && horizonStart <= now <= horizonEnd
      && |prefix| <= 64
      && |remaining| <= 64 - |prefix|
      && matrix.Some?
      && matrix.value.count == |remaining| + 1
      && (forall i | 0 <= i < |prefix| :: prefix[i].Valid())
      && InOrder(prefix, None)
      && (forall i | 0 <= i < |remaining| :: remaining[i].Valid())
      && Distinct(SegmentIds(prefix) + RemainingIds())
      && Distinct(Ordinals())
    }

    function Ordinals(): seq<nat> {
      seq(|remaining|, i requires 0 <= i < |remaining| => remaining[i].ordinal)
    }

    function RemainingIds(): seq<Id> {
      seq(|remaining|, i requires 0 <= i < |remaining| => remaining[i].activity.id)
    }

    /** Planning starts now, or when the last preserved activity ends. */
    function SuffixStart(): (r: int64)
      ensures now <= r
    {
      LatestEnd(prefix, now)
    }

    /** The first suffix position holding the ordinal. */
    function IndexOf(ordinal: nat): (r: Option<nat>)
      ensures r.Some? ==> r.value < |remaining| && remaining[r.value].ordinal == ordinal
      ensures r.Some? ==> forall k | 0 <= k < r.value :: remaining[k].ordinal != ordinal
      ensures r.None? ==> forall k | 0 <= k < |remaining| :: remaining[k].ordinal != ordinal
    {
      IndexFrom(ordinal, 0)
    }

    function IndexFrom(ordinal: nat, from: nat): (r: Option<nat>)
      requires from <= |remaining|
      ensures r.Some? ==> from <= r.value < |remaining| && remaining[r.value].ordinal == ordinal
      ensures r.Some? ==> forall k | from <= k < r.value :: remaining[k].ordinal != ordinal
      ensures r.None? ==> forall k | from <= k < |remaining| :: remaining[k].ordinal != ordinal
      decreases |remaining| - from
    {
      if from == |remaining| then None
      else if remaining[from].ordinal == ordinal then Some(from)
      else IndexFrom(ordinal, from + 1)
    }

    /** The suffix position holding the activity id. */
    function IndexOfId(id: Id): (r: Option<nat>)
      ensures r.Some? ==> r.value < |remaining| && remaining[r.value].activity.id == id
      ensures r.None? ==> forall k | 0 <= k < |remaining| :: remaining[k].activity.id != id
    {
      IndexOfIdFrom(id, 0)
    }

    function IndexOfIdFrom(id: Id, from: nat): (r: Option<nat>)
      requires from <= |remaining|
      ensures r.Some? ==> from <= r.value < |remaining| && remaining[r.value].activity.id == id
      ensures r.None? ==> forall k | from <= k < |remaining| :: remaining[k].activity.id != id
      decreases |remaining| - from
    {
      if from == |remaining| then None
      else if remaining[from].activity.id == id then Some(from)
      else IndexOfIdFrom(id, from + 1)
    }

    /** Travel time in milliseconds between two matrix locations, if reachable. */
    function TravelMs(origin: nat, destination: nat): (r: Option<int64>)
      requires Valid()
      requires origin <= |remaining| && destination <= |remaining|
      ensures r.Some? ==> 0 <= r.value
    {
      var route := matrix.value.At(origin, destination);
      if !route.reachable || route.seconds < 0 || route.seconds > INT64_MAX / 1000 then None
      else Some(route.seconds * 1000)
    }
  }

  function LatestEnd(segments: seq<Segment>, start: int64): (r: int64)
    ensures start <= r
  {
    if segments == [] then start
    else
      var s := segments[0];
      LatestEnd(segments[1..],
                if s.state.Scheduled? && s.end.Some? && s.end.value > start then s.end.value else start)
  }

  lemma {:induction false} LatestEndBounds(segments: seq<Segment>, start: int64)
    ensures forall k | 0 <= k < |segments| && segments[k].state.Scheduled? && segments[k].end.Some? ::
              segments[k].end.value <= LatestEnd(segments, start)
  {
    if segments != [] {
      var s := segments[0];
      var next := if s.state.Scheduled? && s.end.Some? && s.end.value > start then s.end.value else start;
      LatestEndBounds(segments[1..], next);
      assert forall k | 0 < k < |segments| :: segments[k] == segments[1..][k - 1];
    }
  }

  /** Ordinals, and ids, name suffix positions one to one. */
  lemma {:induction false} IndexOfIsInverse(input: SearchInput, i: nat)
    requires input.Valid() && i < |input.remaining|
    ensures input.IndexOf(input.remaining[i].ordinal) == Some(i)
    ensures input.IndexOfId(input.remaining[i].activity.id) == Some(i)
  {
    var k := input.IndexOf(input.remaining[i].ordinal).value;
    assert input.Ordinals()[i] == input.Ordinals()[k];
    var m := input.IndexOfId(input.remaining[i].activity.id).value;
    var ids := SegmentIds(input.prefix) + input.RemainingIds();
    assert ids[|input.prefix| + i] == ids[|input.prefix| + m];
  }

  function OrdinalKey(input: SearchInput, i: nat): nat {
    if i < |input.remaining| then input.remaining[i].ordinal else 0
  }

  /** Compares suffix positions by trip ordinal. */
  function OrdinalOrder(input: SearchInput): (nat, nat) -> bool {
    (l: nat, r: nat) => OrdinalKey(input, l) < OrdinalKey(input, r)
  }

  function Positions(n: nat): seq<nat> {
    seq(n, i requires 0 <= i < n => i)
  }
}

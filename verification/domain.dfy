/** The planner's value types and the validity checks their constructors and
    `is_valid` members make.  Identifiers are opaque, so they are modelled as
    natural numbers; enumerations are datatypes, which leaves no out-of-range
    enumerator to check. */
module Domain {

  const INT64_MIN: int := -0x8000_0000_0000_0000
  const INT64_MAX: int := 0x7fff_ffff_ffff_ffff
  const UINT32_MAX: int := 0xffff_ffff
  const UINT64_MAX: int := 0xffff_ffff_ffff_ffff

  type int32 = x: int | -0x8000_0000 <= x <= 0x7fff_ffff
  type int64 = x: int | INT64_MIN <= x <= INT64_MAX
  type uint8 = x: int | 0 <= x <= 0xff
  type uint32 = x: int | 0 <= x <= UINT32_MAX
  type uint64 = x: int | 0 <= x <= UINT64_MAX

  type Id = nat

  datatype Option<+T> = None | Some(value: T) {
    function GetOr(default: T): T {
      if Some? then value else default
    }
  }

  function Max(a: int, b: int): int { if a < b then b else a }
  function Min(a: int, b: int): int { if b < a then b else a }

  predicate InInt64(x: int) { INT64_MIN <= x <= INT64_MAX }

  // ----- checked 64-bit arithmetic -----

  function CheckedAdd(left: int64, right: int64): Option<int64> {
    if (right > 0 && left > INT64_MAX - right) || (right < 0 && left < INT64_MIN - right)
    then None
    else Some(left + right)
  }

  function CheckedSubtract(left: int64, right: int64): Option<int64> {
    if right == INT64_MIN then
      if left < 0 then Some(left - right) else None
    else
      CheckedAdd(left, -right)
  }

  function CheckedAbsoluteDifference(left: int64, right: int64): Option<int64> {
    var difference := CheckedSubtract(left, right);
    if difference.None? || difference.value == INT64_MIN then None
    else if difference.value < 0 then Some(-difference.value)
    else difference
  }

  /** A 32-bit number of seconds always fits once it is in milliseconds. */
  function Milliseconds(seconds: uint32): int64 {
    seconds * 1000
  }

  /** The checked operations give the exact integer result, or nothing when
      that result is not a 64-bit integer.  The absolute difference gives up
      one value early: it also refuses a difference of exactly -2^63. */
  lemma {:induction false} CheckedArithmeticIsExact(left: int64, right: int64)
    ensures CheckedAdd(left, right) == (if InInt64(left + right) then Some(left + right) else None)
    ensures CheckedSubtract(left, right) == (if InInt64(left - right) then Some(left - right) else None)
    ensures CheckedAbsoluteDifference(left, right)
         == (if INT64_MIN < left - right <= INT64_MAX
             then Some(if left < right then right - left else left - right) else None)
  {
  }

  // ----- sequences -----

  predicate Distinct<T(==)>(s: seq<T>) {
    forall i, j | 0 <= i < j < |s| :: s[i] != s[j]
  }

  lemma {:induction false} DistinctSize<T>(s: seq<T>)
    requires Distinct(s)
    ensures |set x | x in s| == |s|
  {
    if s != [] {
      var front, last := s[..|s| - 1], s[|s| - 1];
      DistinctSize(front);
      assert s == front + [last];
      assert (set x | x in s) == (set x | x in front) + {last};
    }
  }

  lemma {:induction false} DistinctCounts<T>(s: seq<T>, x: T)
    requires Distinct(s)
    ensures multiset(s)[x] == if x in s then 1 else 0
  {
    if s != [] {
      var front, last := s[..|s| - 1], s[|s| - 1];
      DistinctCounts(front, x);
      assert s == front + [last];
      assert last !in front;
    }
  }

  /** Lists without repetition are permutations of each other when they have the same members. */
  lemma {:induction false} DistinctPermutation<T>(a: seq<T>, b: seq<T>)
    requires Distinct(a) && Distinct(b) && forall x :: x in a <==> x in b
    ensures multiset(a) == multiset(b)
  {
    forall x ensures multiset(a)[x] == multiset(b)[x] {
      DistinctCounts(a, x);
      DistinctCounts(b, x);
    }
  }

  lemma {:induction false} SubsetSize(s: set<nat>, n: nat)
    requires forall x | x in s :: x < n
    ensures |s| <= n
    ensures |s| == n ==> forall x | 0 <= x < n :: x in s
  {
    if n > 0 {
      var t := s - {n - 1};
      SubsetSize(t, n - 1);
      if n - 1 in s { assert s == t + {n - 1}; } else { assert s == t; }
    }
  }

  /** n distinct numbers below n are all the numbers below n. */
  lemma {:induction false} DistinctCovers(s: seq<nat>, n: nat)
    requires Distinct(s) && forall k | 0 <= k < |s| :: s[k] < n
    ensures |s| <= n
    ensures |s| == n ==> forall x | 0 <= x < n :: x in s
  {
    DistinctSize(s);
    var all := set x | x in s;
    SubsetSize(all, n);
    if |s| == n {
      forall x | 0 <= x < n ensures x in s { assert x in all; }
    }
  }

  // ----- activities -----

  datatype Location = Location(latitude: real, longitude: real) {
    predicate Valid() {
      -90.0 <= latitude <= 90.0 && -180.0 <= longitude <= 180.0
    }
  }

  datatype Window = Window(opens: int64, closes: int64)

  /** Windows are non-empty, ascending and do not overlap. */
  predicate NormalizedWindows(windows: seq<Window>) {
    && (forall i | 0 <= i < |windows| :: windows[i].opens < windows[i].closes)
    && (forall i | 0 < i < |windows| :: windows[i - 1].closes <= windows[i].opens)
  }

  datatype Timing = Timing(
    windows: seq<Window>,
    reservation: Option<int64>,
    graceSeconds: uint32,
    minSeconds: uint32,
    preferredSeconds: uint32,
    maxSeconds: uint32,
    mandatory: bool,
    canMove: bool,
    canSkip: bool,
    deadline: Option<int64>)
  {
    predicate Valid() {
      minSeconds <= preferredSeconds <= maxSeconds && NormalizedWindows(windows)
    }
  }

  datatype TravelMode = Walking | Driving
  datatype ActivityClass = Fixed | Flexible
  datatype ActivityState = Planned | Started | Completed | Skipped

  datatype Activity = Activity(
    id: Id,
    placeId: string,
    displayName: string,
    location: Location,
    timeZone: string,
    inboundMode: TravelMode,
    activityClass: ActivityClass,
    state: ActivityState,
    priorityRank: int32,
    utility: int32,
    timing: Timing,
    delaySeconds: uint32,
    foundClosedAt: Option<int64>)
  {
    predicate Valid() {
      placeId != "" && displayName != "" && timeZone != "" && location.Valid() && timing.Valid()
    }
  }

  // ----- the current plan -----

  datatype PlanOrigin = UserAuthored | AcceptedEngineProposal
  datatype EntryState = Scheduled | Omitted

  datatype Segment = Segment(id: Id, state: EntryState, start: Option<int64>, end: Option<int64>) {
    predicate Valid() {
      if state.Scheduled? then start.Some? && end.Some? && start.value < end.value
      else start.None? && end.None?
    }
  }

  /** Every scheduled segment starts no earlier than the previous scheduled one ends. */
  predicate InOrder(segments: seq<Segment>, priorEnd: Option<int64>)
    requires forall i | 0 <= i < |segments| :: segments[i].Valid()
  {
    segments == [] ||
    var first := segments[0];
    assert first.Valid();
    if first.state.Scheduled? then
      && (priorEnd.Some? ==> priorEnd.value <= first.start.value)
      && InOrder(segments[1..], first.end)
    else
      InOrder(segments[1..], priorEnd)
  }

  datatype CurrentPlan = CurrentPlan(
    planId: Id,
    revision: uint64,
    origin: PlanOrigin,
    segments: seq<Segment>,
    createdAt: int64,
    sourceProposalId: Option<Id>)
  {
    predicate ValidFor(ids: seq<Id>) {
      && revision != 0
      && |segments| <= 64
      && |segments| == |ids|
      && (origin.UserAuthored? <==> sourceProposalId.None?)
      && (forall i | 0 <= i < |segments| :: segments[i].Valid())
      && InOrder(segments, None)
      && Distinct(ids)
      && Distinct(SegmentIds(segments))
      && multiset(ids) == multiset(SegmentIds(segments))
    }
  }

  function SegmentIds(segments: seq<Segment>): seq<Id> {
    seq(|segments|, i requires 0 <= i < |segments| => segments[i].id)
  }

  function ActivityIds(activities: seq<Activity>): seq<Id> {
    seq(|activities|, i requires 0 <= i < |activities| => activities[i].id)
  }

  /** The first activity with the given id. */
  function ActivityIndex(activities: seq<Activity>, id: Id): (r: Option<nat>)
    ensures r.Some? ==> r.value < |activities| && activities[r.value].id == id
    ensures r.Some? ==> forall k | 0 <= k < r.value :: activities[k].id != id
    ensures r.None? ==> forall k | 0 <= k < |activities| :: activities[k].id != id
  {
    if activities == [] then None
    else if activities[0].id == id then Some(0)
    else
      var rest := ActivityIndex(activities[1..], id);
      if rest.None? then
        assert forall k | 0 < k < |activities| :: activities[k] == activities[1..][k - 1];
        None
      else
        assert forall k | 0 < k < |activities| :: activities[k] == activities[1..][k - 1];
        Some(rest.value + 1)
  }

  // ----- routes -----

  datatype RouteEstimate = RouteEstimate(seconds: int64, distanceMeters: uint32, reachable: bool) {
    predicate Valid() { 0 <= seconds }
  }

  /** A square table in row-major order; its constructor refuses any other shape. */
  datatype RawMatrix = RawMatrix(count: nat, estimates: seq<RouteEstimate>) {
    predicate WellFormed() {
      && |estimates| == count * count
      && (forall k | 0 <= k < |estimates| :: estimates[k].Valid())
    }

    function At(origin: nat, destination: nat): (r: RouteEstimate)
      requires WellFormed()
      requires origin < count && destination < count
      ensures r.Valid()
    {
      CellInRange(origin, destination, count);
      estimates[origin * count + destination]
    }
  }

  type Matrix = m: RawMatrix | m.WellFormed() witness RawMatrix(0, [])

  lemma {:induction false} CellInRange(row: nat, column: nat, count: nat)
    requires row < count && column < count
    ensures 0 <= row * count + column < count * count
  {
    assert (row + 1) * count <= count * count by { MultiplyMonotone(row + 1, count, count); }
  }

  lemma {:induction false} MultiplyMonotone(a: nat, b: nat, c: nat)
    requires a <= b
    ensures a * c <= b * c
  {
  }
}

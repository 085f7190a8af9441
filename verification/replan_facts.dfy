/** What a planning attempt says about the current plan before it searches: how
    late the traveller is for the next stop, and whether replaying the plan
    misses a reservation. */
module ReplanFacts {
  import opened Domain
  import opened PlannerInput

  datatype Facts = Facts(lateDeparture: bool, reservationAtRisk: bool, slack: Option<int64>)

  predicate Stop(input: SearchInput, i: nat) { i < |input.remaining| && input.remaining[i].BaselineScheduled() }

  function RouteTo(input: SearchInput, at: nat, i: nat): RouteEstimate
    requires input.Valid() && at <= |input.remaining| && i < |input.remaining|
  {
    input.matrix.value.At(at, i + 1)
  }

  function FirstStop(input: SearchInput, from: nat): (r: nat)
    requires from <= |input.remaining|
    ensures from <= r <= |input.remaining| && (forall k | from <= k < r :: !Stop(input, k))
    ensures r < |input.remaining| ==> Stop(input, r)
    decreases |input.remaining| - from
  {
    if from == |input.remaining| || Stop(input, from) then from else FirstStop(input, from + 1)
  }

  predicate Reserved(input: SearchInput, i: nat) { Stop(input, i) && input.remaining[i].activity.timing.reservation.Some? }

  predicate ReservedFrom(input: SearchInput, from: nat) { exists i | from <= i < |input.remaining| :: Reserved(input, i) }

  /** When the traveller gets there; nothing on overflow. */
  function Arrival(input: SearchInput, time: int64, at: nat, i: nat): Option<int64>
    requires input.Valid() && at <= |input.remaining| && i < |input.remaining|
  {
    var travel := input.TravelMs(at, i + 1);
    if travel.None? then None else CheckedAdd(time, travel.value)
  }

  /** Lateness for and slack before the next stop. */
  function NextStop(input: SearchInput): Option<(bool, Option<int64>)>
    requires input.Valid()
  {
    var i := FirstStop(input, 0);
    if i == |input.remaining| then Some((false, None))
    else if !RouteTo(input, 0, i).reachable then Some((true, None))
    else
      var arrival := Arrival(input, input.SuffixStart(), 0, i);
      if arrival.None? then None
      else
        var slack := CheckedSubtract(input.remaining[i].segment.start.value, arrival.value);
        if slack.None? then None else Some((slack.value < 0, slack))
  }

  /** The latest start a reservation allows, if it has one; nothing on overflow. */
  function LatestStart(t: Timing): Option<Option<int64>> {
    if t.reservation.None? then Some(None)
    else
      var latest := CheckedAdd(t.reservation.value, Milliseconds(t.graceSeconds));
      if latest.None? then None else Some(latest)
  }

  /** When a stop that is reached at some time ends; nothing on overflow. */
  function StopEnd(s: Segment, arrival: int64): Option<int64>
    requires s.Valid() && s.state.Scheduled?
  {
    var duration := CheckedSubtract(s.end.value, s.start.value);
    if duration.None? then None else CheckedAdd(Max(arrival, s.start.value), duration.value)
  }

  /** Replays the plan from activity `i` on. */
  function Replay(input: SearchInput, i: nat, time: int64, at: nat, risk: bool): Option<bool>
    requires input.Valid() && i <= |input.remaining| && at <= |input.remaining|
    decreases |input.remaining| - i
  {
    if i == |input.remaining| then Some(risk)
    else if !Stop(input, i) then Replay(input, i + 1, time, at, risk)
    else if !RouteTo(input, at, i).reachable then Some(ReservedFrom(input, i))
    else
      var a := input.remaining[i];
      var arrival, latest := Arrival(input, time, at, i), LatestStart(a.activity.timing);
      if arrival.None? || latest.None? then None
      else
        var end := StopEnd(a.segment, arrival.value);
        if end.None? then None
        else Replay(input, i + 1, end.value, i + 1, risk || (latest.value.Some? && arrival.value > latest.value.value))
  }

  /** `derive_replan_facts`. */
  function DeriveFacts(input: SearchInput): Option<Facts> {
    if !input.Valid() then None
    else
      var next, risk := NextStop(input), Replay(input, 0, input.SuffixStart(), 0, false);
      if next.None? || risk.None? then None else Some(Facts(next.value.0, risk.value, next.value.1))
  }

  // ----- the loops -----

  method FindReservation(input: SearchInput, from: nat) returns (found: bool)
    requires from <= |input.remaining|
    ensures found <==> ReservedFrom(input, from)
  {
    for i := from to |input.remaining|
      invariant forall j | from <= j < i :: !Reserved(input, j)
    {
      var a := input.remaining[i];
      if a.segment.state.Scheduled? && a.activity.timing.reservation.Some? {
        assert Reserved(input, i);
        return true;
      }
    }
    found := false;
  }

  method FindFirstStop(input: SearchInput) returns (index: nat)
    ensures index == FirstStop(input, 0)
  {
    for i := 0 to |input.remaining|
      invariant FirstStop(input, i) == FirstStop(input, 0)
    {
      if input.remaining[i].segment.state.Scheduled? {
        return i;
      }
    }
    index := |input.remaining|;
  }

  method CheckNextStop(input: SearchInput) returns (r: Option<(bool, Option<int64>)>)
    requires input.Valid()
    ensures r == NextStop(input)
  {
    var index := FindFirstStop(input);
    if index == |input.remaining| {
      return Some((false, None));
    }
    var route := input.matrix.value.At(0, index + 1);
    if !route.reachable {
      return Some((true, None));
    }
    var travel := input.TravelMs(0, index + 1);
    var arrival := if travel.Some? then CheckedAdd(input.SuffixStart(), travel.value) else None;
    if arrival.None? {
      return None;
    }
    var slack := CheckedSubtract(input.remaining[index].segment.start.value, arrival.value);
    r := if slack.None? then None else Some((slack.value < 0, slack));
  }

  method ReplayPlan(input: SearchInput) returns (r: Option<bool>)
    requires input.Valid()
    ensures r == Replay(input, 0, input.SuffixStart(), 0, false)
  {
    var time, at: nat, risk := input.SuffixStart(), 0, false;
    for i := 0 to |input.remaining|
      invariant at <= |input.remaining|
      invariant Replay(input, i, time, at, risk) == Replay(input, 0, input.SuffixStart(), 0, false)
    {
      var a := input.remaining[i];
      if a.segment.state.Scheduled? {
        var route := input.matrix.value.At(at, i + 1);
        if !route.reachable {
          risk := FindReservation(input, i);
          return Some(risk);
        }
        var arrival := Arrival(input, time, at, i);
        if arrival.None? {
          return None;
        }
        if a.activity.timing.reservation.Some? {
          var latest := CheckedAdd(a.activity.timing.reservation.value, Milliseconds(a.activity.timing.graceSeconds));
          if latest.None? {
            return None;
          }
          risk := risk || arrival.value > latest.value;
        }
        var end := StopEnd(a.segment, arrival.value);
        if end.None? {
          return None;
        }
        time, at := end.value, i + 1;
      }
    }
    r := Some(risk);
  }

  method DeriveReplanFacts(input: SearchInput) returns (r: Option<Facts>)
    ensures r == DeriveFacts(input)
  {
    if !input.Valid() {
      return None;
    }
    var next := CheckNextStop(input);
    if next.None? {
      return None;
    }
    var risk := ReplayPlan(input);
    r := if risk.None? then None else Some(Facts(next.value.0, risk.value, next.value.1));
  }

  // ----- the replay without limits on its numbers -----

  /** Where the traveller stands before activity `i`: the last stop before it. */
  ghost function StandsAt(input: SearchInput, i: nat): (r: nat)
    requires i <= |input.remaining|
    ensures r <= i
  {
    if i == 0 then 0 else if Stop(input, i - 1) then i else StandsAt(input, i - 1)
  }

  /** When the traveller is done with the activities before `i`. */
  ghost function FreeAt(input: SearchInput, i: nat): int
    requires input.Valid() && i <= |input.remaining|
    decreases i, 0
  {
    if i == 0 then input.SuffixStart()
    else if !Stop(input, i - 1) then FreeAt(input, i - 1)
    else
      var s := input.remaining[i - 1].segment;
      Max(ReachedAt(input, i - 1), s.start.value) + (s.end.value - s.start.value)
  }

  ghost function ReachedAt(input: SearchInput, i: nat): int
    requires input.Valid() && i < |input.remaining|
    decreases i, 1
  {
    FreeAt(input, i) + RouteTo(input, StandsAt(input, i), i).seconds * 1000
  }

  /** The leg to this stop does not exist. */
  ghost predicate CutOff(input: SearchInput, i: nat)
    requires input.Valid()
  {
    Stop(input, i) && !RouteTo(input, StandsAt(input, i), i).reachable
  }

  ghost predicate OpenUntil(input: SearchInput, i: nat)
    requires input.Valid()
  {
    forall j | 0 <= j < i :: !CutOff(input, j)
  }

  /** The numbers met at a stop are 64-bit integers. */
  ghost predicate StopFits(input: SearchInput, i: nat)
    requires input.Valid() && Stop(input, i)
  {
    var a := input.remaining[i];
    && RouteTo(input, StandsAt(input, i), i).seconds <= INT64_MAX / 1000
    && InInt64(ReachedAt(input, i)) && InInt64(a.segment.end.value - a.segment.start.value) && InInt64(FreeAt(input, i + 1))
    && (Reserved(input, i) ==> InInt64(Deadline(a.activity.timing)))
  }

  ghost function Deadline(t: Timing): int
    requires t.reservation.Some?
  {
    t.reservation.value + t.graceSeconds * 1000
  }

  /** The reservation of this stop has gone by when the replay gets there. */
  ghost predicate Missed(input: SearchInput, i: nat)
    requires input.Valid()
  {
    Reserved(input, i) && ReachedAt(input, i) > Deadline(input.remaining[i].activity.timing)
  }

  /** Every stop the replay gets to fits. */
  ghost predicate AllFit(input: SearchInput, from: nat)
    requires input.Valid()
  {
    forall i | from <= i < |input.remaining| && Stop(input, i) && OpenUntil(input, i + 1) :: StopFits(input, i)
  }

  /** What the replay finds, said of the times without limits: at the first leg
      that does not exist only the reservations from there on count, and
      otherwise the missed ones. */
  ghost predicate Found(input: SearchInput, from: nat, risk: bool, found: bool)
    requires input.Valid() && from <= |input.remaining|
  {
    && (OpenUntil(input, |input.remaining|) ==> (found <==> risk || exists i | from <= i < |input.remaining| :: Missed(input, i)))
    && (forall c | from <= c < |input.remaining| && OpenUntil(input, c) && CutOff(input, c) :: found <==> ReservedFrom(input, c))
  }

  // ----- what is derived, and when -----

  lemma {:induction false} ArrivalIs(input: SearchInput, i: nat)
    requires input.Valid() && Stop(input, i) && InInt64(FreeAt(input, i)) && !CutOff(input, i)
    ensures Arrival(input, FreeAt(input, i), StandsAt(input, i), i)
         == if RouteTo(input, StandsAt(input, i), i).seconds <= INT64_MAX / 1000 && InInt64(ReachedAt(input, i))
            then Some(ReachedAt(input, i)) else None
  {
    var route := RouteTo(input, StandsAt(input, i), i);
    if route.seconds <= INT64_MAX / 1000 {
      CheckedArithmeticIsExact(FreeAt(input, i), route.seconds * 1000);
    }
  }

  lemma {:induction false} LatestIs(t: Timing)
    ensures LatestStart(t) == if t.reservation.None? then Some(None)
                              else if InInt64(Deadline(t)) then Some(Some(Deadline(t))) else None
  {
    if t.reservation.Some? {
      CheckedArithmeticIsExact(t.reservation.value, Milliseconds(t.graceSeconds));
    }
  }

  lemma {:induction false} EndIs(s: Segment, arrival: int64)
    requires s.Valid() && s.state.Scheduled?
    ensures var duration := s.end.value - s.start.value;
      StopEnd(s, arrival) == if InInt64(duration) && InInt64(Max(arrival, s.start.value) + duration)
                             then Some(Max(arrival, s.start.value) + duration) else None
  {
    CheckedArithmeticIsExact(s.end.value, s.start.value);
    if InInt64(s.end.value - s.start.value) {
      CheckedArithmeticIsExact(Max(arrival, s.start.value), s.end.value - s.start.value);
    }
  }

  /** One stop of the replay: it goes on exactly if the stop fits. */
  lemma {:induction false} ReplayStop(input: SearchInput, i: nat, risk: bool)
    requires input.Valid() && Stop(input, i) && InInt64(FreeAt(input, i)) && !CutOff(input, i)
    ensures Replay(input, i, FreeAt(input, i), StandsAt(input, i), risk)
         == if StopFits(input, i)
            then Replay(input, i + 1, FreeAt(input, i + 1), StandsAt(input, i + 1), risk || Missed(input, i))
            else None
  {
    ArrivalIs(input, i);
    LatestIs(input.remaining[i].activity.timing);
    if InInt64(ReachedAt(input, i)) {
      EndIs(input.remaining[i].segment, ReachedAt(input, i));
    }
  }

  lemma {:induction false} ReplayMeans(input: SearchInput, i: nat, risk: bool)
    requires input.Valid() && i <= |input.remaining| && OpenUntil(input, i) && InInt64(FreeAt(input, i))
    ensures var r := Replay(input, i, FreeAt(input, i), StandsAt(input, i), risk);
      (r.Some? <==> AllFit(input, i)) && (r.Some? ==> Found(input, i, risk, r.value))
    decreases |input.remaining| - i
  {
    if i < |input.remaining| {
      if !Stop(input, i) {
        ReplayMeans(input, i + 1, risk);
        PassingBy(input, i, risk);
      } else if CutOff(input, i) {
        CutShort(input, i, risk);
      } else {
        ReplayStop(input, i, risk);
        OneStopMore(input, i, risk);
        if StopFits(input, i) {
          ReplayMeans(input, i + 1, risk || Missed(input, i));
        }
      }
    }
  }

  lemma {:induction false} PassingBy(input: SearchInput, i: nat, risk: bool)
    requires input.Valid() && i < |input.remaining| && OpenUntil(input, i) && !Stop(input, i)
    ensures OpenUntil(input, i + 1) && (AllFit(input, i) <==> AllFit(input, i + 1))
    ensures forall found :: Found(input, i, risk, found) <==> Found(input, i + 1, risk, found)
  {
    assert !Missed(input, i) && !CutOff(input, i);
  }

  lemma {:induction false} CutShort(input: SearchInput, i: nat, risk: bool)
    requires input.Valid() && i < |input.remaining| && OpenUntil(input, i) && CutOff(input, i)
    ensures AllFit(input, i) && Found(input, i, risk, ReservedFrom(input, i))
  {
    assert forall j | i < j :: !OpenUntil(input, j);
  }

  lemma {:induction false} OneStopMore(input: SearchInput, i: nat, risk: bool)
    requires input.Valid() && Stop(input, i) && OpenUntil(input, i) && !CutOff(input, i)
    ensures OpenUntil(input, i + 1) && (AllFit(input, i) <==> StopFits(input, i) && AllFit(input, i + 1))
    ensures forall found :: Found(input, i, risk, found) <==> Found(input, i + 1, risk || Missed(input, i), found)
  {
  }

  /** What the facts mean: lateness for and slack before the next stop, and the
      reservations the replay finds at risk. */
  ghost predicate Tells(input: SearchInput, facts: Facts)
    requires input.Valid()
  {
    var f := FirstStop(input, 0);
    && (facts.lateDeparture <==>
          f < |input.remaining| && (CutOff(input, f) || ReachedAt(input, f) > input.remaining[f].segment.start.value))
    && facts.slack == (if f == |input.remaining| || CutOff(input, f) then None
                       else Some(input.remaining[f].segment.start.value - ReachedAt(input, f)))
    && Found(input, 0, false, facts.reservationAtRisk)
  }

  /** The slack before the next stop is a 64-bit integer. */
  ghost predicate SlackFits(input: SearchInput)
    requires input.Valid()
  {
    var f := FirstStop(input, 0);
    f == |input.remaining| || CutOff(input, f) || InInt64(input.remaining[f].segment.start.value - ReachedAt(input, f))
  }

  lemma {:induction false} BeforeFirstStop(input: SearchInput, i: nat)
    requires input.Valid() && i <= FirstStop(input, 0)
    ensures StandsAt(input, i) == 0 && FreeAt(input, i) == input.SuffixStart() && OpenUntil(input, i)
  {
    if i > 0 {
      assert !Stop(input, i - 1);
      BeforeFirstStop(input, i - 1);
    }
  }

  lemma {:induction false} NextStopMeans(input: SearchInput)
    requires input.Valid()
    ensures var f := FirstStop(input, 0);
      && OpenUntil(input, f)
      && (NextStop(input).Some? ==> SlackFits(input))
      && (SlackFits(input) && (f < |input.remaining| && !CutOff(input, f) ==> StopFits(input, f)) ==> NextStop(input).Some?)
      && (NextStop(input).Some? ==>
            && NextStop(input).value.1 == (if f == |input.remaining| || CutOff(input, f) then None
                                           else Some(input.remaining[f].segment.start.value - ReachedAt(input, f)))
            && (NextStop(input).value.0 <==>
                  f < |input.remaining| && (CutOff(input, f) || ReachedAt(input, f) > input.remaining[f].segment.start.value)))
  {
    var f := FirstStop(input, 0);
    BeforeFirstStop(input, f);
    if f < |input.remaining| && !CutOff(input, f) {
      ArrivalIs(input, f);
      if InInt64(ReachedAt(input, f)) {
        CheckedArithmeticIsExact(input.remaining[f].segment.start.value, ReachedAt(input, f));
      }
    }
  }

  /** The facts derive exactly when the numbers they are made of are 64-bit
      integers, and they mean what they say. */
  lemma {:induction false} FactsDeriveIff(input: SearchInput)
    requires input.Valid()
    ensures DeriveFacts(input).Some? <==> AllFit(input, 0) && SlackFits(input)
    ensures DeriveFacts(input).Some? ==> Tells(input, DeriveFacts(input).value)
  {
    var f := FirstStop(input, 0);
    NextStopMeans(input);
    ReplayMeans(input, 0, false);
    assert AllFit(input, 0) && f < |input.remaining| && !CutOff(input, f) ==> StopFits(input, f);
  }

  // ----- reservations at risk -----

  /** Some reservation is reached too late or not at all. */
  ghost predicate AtRisk(input: SearchInput)
    requires input.Valid()
  {
    exists i | 0 <= i < |input.remaining| && Reserved(input, i) :: Missed(input, i) || !OpenUntil(input, i + 1)
  }

  /** A reservation is missed before a leg that does not exist, and there is no
      reservation from that leg on. */
  ghost predicate Forgotten(input: SearchInput)
    requires input.Valid()
  {
    exists c | 0 <= c < |input.remaining| && OpenUntil(input, c) && CutOff(input, c) ::
      !ReservedFrom(input, c) && exists i | 0 <= i < c :: Missed(input, i)
  }

  lemma {:induction false} FirstCut(input: SearchInput, n: nat) returns (c: nat)
    requires input.Valid() && n <= |input.remaining| && !OpenUntil(input, n)
    ensures c < n && OpenUntil(input, c) && CutOff(input, c)
  {
    c := n - 1;
    if !OpenUntil(input, c) {
      c := FirstCut(input, c);
    }
  }

  /** The facts report a reservation at risk exactly when one is, unless it is
      missed before a leg that does not exist and none follows: the loop then
      overwrites what it had found. */
  lemma {:induction false} RiskIsReported(input: SearchInput)
    requires DeriveFacts(input).Some?
    ensures DeriveFacts(input).value.reservationAtRisk <==> AtRisk(input) && !Forgotten(input)
  {
    FactsDeriveIff(input);
    var n := |input.remaining|;
    if OpenUntil(input, n) {
      assert forall j | 0 <= j <= n :: OpenUntil(input, j);
    } else {
      var c := FirstCut(input, n);
      assert forall j | c < j <= n :: !OpenUntil(input, j);
      assert forall j | 0 <= j <= c :: OpenUntil(input, j);
      assert forall d | 0 <= d < n && OpenUntil(input, d) && CutOff(input, d) :: d == c;
    }
  }
}

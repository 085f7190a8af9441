/** Plans whose numbers are far from the 64-bit limits: their facts always derive. */
module SmallPlans {
  import opened Domain
  import opened PlannerInput
  import opened ReplanFacts
  import opened Feasibility

  /** Two to the power 45 seconds: over a million years. */
  const ROUTE_BOUND: int := 0x2000_0000_0000

  /** The times of the plan and the routes are far from the 64-bit limits. */
  predicate SmallPlan(input: SearchInput)
    requires input.Valid()
  {
    && SmallTimes(input) && input.SuffixStart() <= TIME_BOUND
    && (forall at, i | 0 <= at <= |input.remaining| && 0 <= i < |input.remaining| :: RouteTo(input, at, i).seconds <= ROUTE_BOUND)
  }

  lemma {:induction false} SmallReplay(input: SearchInput, i: nat)
    requires input.Valid() && SmallPlan(input) && i <= |input.remaining|
    ensures -TIME_BOUND <= FreeAt(input, i) <= TIME_BOUND + i * (3 * TIME_BOUND)
  {
    if i > 0 {
      SmallReplay(input, i - 1);
      if Stop(input, i - 1) {
        var a := input.remaining[i - 1];
        assert SmallTime(a.segment.start) && SmallTime(a.segment.end);
        SmallStep(FreeAt(input, i - 1), i - 1, RouteTo(input, StandsAt(input, i - 1), i - 1).seconds,
                  a.segment.start.value, a.segment.end.value);
      }
    }
  }

  lemma {:induction false} SmallStep(time: int, i: nat, seconds: int, start: int, end: int)
    requires -TIME_BOUND <= time <= TIME_BOUND + i * (3 * TIME_BOUND) && 0 <= seconds <= ROUTE_BOUND
    requires -TIME_BOUND <= start < end <= TIME_BOUND
    ensures -TIME_BOUND <= Max(time + seconds * 1000, start) + (end - start) <= TIME_BOUND + (i + 1) * (3 * TIME_BOUND)
  {
  }

  lemma {:induction false} SmallNumbers(time: int, i: nat, seconds: int, start: int, end: int)
    requires -TIME_BOUND <= time <= TIME_BOUND + i * (3 * TIME_BOUND) && 0 <= seconds <= ROUTE_BOUND && i <= 64
    requires -TIME_BOUND <= start < end <= TIME_BOUND
    ensures InInt64(time) && InInt64(time + seconds * 1000) && InInt64(end - start) && InInt64(start - (time + seconds * 1000))
  {
  }

  lemma {:induction false} SmallStopFits(input: SearchInput, i: nat)
    requires input.Valid() && SmallPlan(input) && Stop(input, i)
    ensures StopFits(input, i) && InInt64(input.remaining[i].segment.start.value - ReachedAt(input, i))
  {
    var a := input.remaining[i];
    SmallReplay(input, i);
    SmallReplay(input, i + 1);
    assert SmallTime(a.activity.timing.reservation) && SmallTime(a.segment.start) && SmallTime(a.segment.end);
    var seconds := RouteTo(input, StandsAt(input, i), i).seconds;
    SmallNumbers(FreeAt(input, i), i, seconds, a.segment.start.value, a.segment.end.value);
    SmallNumbers(FreeAt(input, i + 1), i + 1, seconds, a.segment.start.value, a.segment.end.value);
  }

  /** With such numbers the facts always derive. */
  lemma {:induction false} SmallPlansDerive(input: SearchInput)
    requires input.Valid() && SmallPlan(input)
    ensures DeriveFacts(input).Some?
  {
    FactsDeriveIff(input);
    forall i | 0 <= i < |input.remaining| && Stop(input, i)
      ensures StopFits(input, i) && InInt64(input.remaining[i].segment.start.value - ReachedAt(input, i))
    {
      SmallStopFits(input, i);
    }
  }
}

/** A reservation that is missed and not reported: the leg after it does not
    exist, and the search for reservations from there on overwrites the answer. */
module ForgottenRisk {
  import opened Domain
  import opened PlannerInput
  import opened ReplanFacts

  function Visit(id: Id, reservation: Option<int64>, start: int64, end: int64): PlanningActivity {
    PlanningActivity(
      Activity(id, "place", "Place", Location(0.0, 0.0), "UTC", Walking, Flexible, Planned, 0, 1,
               Timing([], reservation, 0, 0, 1, 1, true, true, false, None), 0, None),
      id, Segment(id, Scheduled, Some(start), Some(end)))
  }

  const NEAR := RouteEstimate(0, 0, true)
  const NOWHERE := RouteEstimate(0, 0, false)

  /** Ten seconds after a table was reserved, and nothing leads on from there. */
  const LATE: SearchInput :=
    SearchInput(10000, 0, 100000, [], [Visit(1, Some(0), 0, 1000), Visit(2, None, 1000, 2000)],
                Some(RawMatrix(3, [NEAR, NEAR, NEAR, NEAR, NEAR, NOWHERE, NEAR, NEAR, NEAR])))

  lemma {:induction false} LateIsValid()
    ensures LATE.Valid() && RouteTo(LATE, 0, 0) == NEAR && RouteTo(LATE, 1, 1) == NOWHERE
  {
    assert LATE.remaining[0].Valid() && LATE.remaining[1].Valid();
    assert LATE.Ordinals() == [1, 2] && SegmentIds(LATE.prefix) + LATE.RemainingIds() == [1, 2];
  }

  lemma {:induction false} StopsAre()
    ensures Stop(LATE, 0) && Stop(LATE, 1) && LATE.SuffixStart() == 10000 && FirstStop(LATE, 0) == 0
    ensures Reserved(LATE, 0) && !ReservedFrom(LATE, 1)
  {
  }

  lemma {:induction false} FirstLegIs()
    ensures LATE.Valid() && Arrival(LATE, 10000, 0, 0) == Some(10000)
    ensures StopEnd(LATE.remaining[0].segment, 10000) == Some(11000)
  {
    LateIsValid();
  }

  lemma {:induction false} NextStopIs()
    ensures LATE.Valid() && NextStop(LATE) == Some((true, Some(-10000)))
  {
    LateIsValid();
    StopsAre();
    FirstLegIs();
  }

  lemma {:induction false} SecondLegIs()
    ensures LATE.Valid() && Replay(LATE, 1, 11000, 1, true) == Some(false)
  {
    LateIsValid();
    StopsAre();
  }

  lemma {:induction false} ReplayIs()
    ensures LATE.Valid() && Replay(LATE, 0, 10000, 0, false) == Some(false)
  {
    LateIsValid();
    StopsAre();
    FirstLegIs();
    SecondLegIs();
  }

  lemma {:induction false} TableIsMissed()
    ensures LATE.Valid() && Missed(LATE, 0) && AtRisk(LATE)
  {
    LateIsValid();
    StopsAre();
    assert FreeAt(LATE, 0) == 10000 && StandsAt(LATE, 0) == 0;
    assert Missed(LATE, 0);
  }

  lemma {:induction false} FactsAre(input: SearchInput, start: int64, late: bool, risk: bool, slack: Option<int64>)
    requires input.Valid() && NextStop(input) == Some((late, slack))
    requires input.SuffixStart() == start && Replay(input, 0, start, 0, false) == Some(risk)
    ensures DeriveFacts(input) == Some(Facts(late, risk, slack))
  {
  }

  /** The table is missed, and the facts do not say so. */
  lemma {:induction false} MissedIsForgotten()
    ensures LATE.Valid() && Missed(LATE, 0) && AtRisk(LATE)
    ensures DeriveFacts(LATE) == Some(Facts(true, false, Some(-10000)))
  {
    TableIsMissed();
    StopsAre();
    NextStopIs();
    ReplayIs();
    FactsAre(LATE, 10000, true, false, Some(-10000));
  }
}

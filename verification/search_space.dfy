/** The space the search walks: accepted prefixes that pass the lower bound.
    Nothing a complete plan needs is ever pruned, and a plan with any start
    times at all has a counterpart in this space. */
module SearchSpace {
  import opened Domain
  import opened PlannerInput
  import opened Alternatives
  import opened CandidateScores
  import opened Scoring

  /** Matrix position and time after the last scheduled decision. */
  function Standing(input: SearchInput, ds: seq<Decision>): (r: (nat, int64))
    requires Known(input, ds)
    ensures r.0 <= |input.remaining|
  {
    if ds == [] then (0, input.SuffixStart())
    else
      var last := ds[|ds| - 1];
      if last.kind == 0 then (input.IndexOf(last.ordinal).value + 1, last.end)
      else Standing(input, ds[..|ds| - 1])
  }

  /** Every undecided activity that may not be skipped still has a start when
      travel to it is taken as free. */
  predicate PassesLowerBound(input: SearchInput, ds: seq<Decision>)
    requires input.Valid() && Known(input, ds)
  {
    forall i | 0 <= i < |input.remaining| :: WithinReach(input, ds, i)
  }

  predicate WithinReach(input: SearchInput, ds: seq<Decision>, i: nat)
    requires input.Valid() && Known(input, ds) && i < |input.remaining|
  {
    !Decided(ds, input.remaining[i].ordinal) && input.remaining[i].Protected() ==>
      OffersAny(AlternativesFor(input, input.remaining[i], Standing(input, ds).1))
  }

  predicate Viable(input: SearchInput, ds: seq<Decision>) {
    Accepted(input, ds) && PassesLowerBound(input, ds)
  }

  predicate CompletePlan(input: SearchInput, ds: seq<Decision>) {
    |ds| == |input.remaining| && Accepted(input, ds)
  }

  // ----- accepted sequences one decision at a time -----

  lemma {:induction false} StandingAppend(input: SearchInput, ds: seq<Decision>, d: Decision)
    requires Known(input, ds) && Known(input, ds + [d])
    ensures input.IndexOf(d.ordinal).Some?
    ensures Standing(input, ds + [d])
         == if d.kind == 0 then (input.IndexOf(d.ordinal).value + 1, d.end) else Standing(input, ds)
  {
    assert (ds + [d])[|ds|] == d;
    assert (ds + [d])[..|ds|] == ds;
  }

  /** A leg arrives no earlier than it left and takes an offered interval. */
  lemma {:induction false} LegAdvances(input: SearchInput, c: Chain, d: Decision)
    requires input.Valid() && c.at <= |input.remaining| && input.IndexOf(d.ordinal).Some?
    requires Leg(input, c, d).Some?
    ensures var index := input.IndexOf(d.ordinal).value;
            var arrival := ArrivalAt(input, c.at, c.end, index);
            && arrival.Some? && c.end <= arrival.value <= d.start < d.end
            && Offered(input, input.remaining[index], arrival.value, d.start, d.end)
            && Leg(input, c, d).value.end == d.end && Leg(input, c, d).value.at == index + 1
  {
    var index := input.IndexOf(d.ordinal).value;
    var arrival := ArrivalAt(input, c.at, c.end, index).value;
    OfferedIffGenerated(input, input.remaining[index], arrival, d.start, d.end);
  }

  /** The chain of visits ends where the traveller stands, not before the suffix starts. */
  lemma {:induction false} ChainStands(input: SearchInput, ds: seq<Decision>)
    requires Accepted(input, ds)
    ensures var chain := ChainOf(input, ds).value;
            (chain.at, chain.end) == Standing(input, ds)
            && input.horizonStart <= input.SuffixStart() <= chain.end
  {
    if ds != [] {
      var front, last := ds[..|ds| - 1], ds[|ds| - 1];
      assert ds == front + [last];
      AcceptedAppend(input, front, last);
      ChainStands(input, front);
      ChainAppend(input, front, last);
      StandingAppend(input, front, last);
      if last.kind == 0 {
        LegAdvances(input, ChainOf(input, front).value, last);
      }
    }
  }

  // ----- lower-bound pruning is safe -----

  lemma {:induction false} StandingAdvances(input: SearchInput, ds: seq<Decision>, d: Decision)
    requires Accepted(input, ds) && Accepted(input, ds + [d])
    ensures input.horizonStart <= Standing(input, ds).1 <= Standing(input, ds + [d]).1
  {
    AcceptedAppend(input, ds, d);
    StandingAppend(input, ds, d);
    ChainStands(input, ds);
    if d.kind == 0 {
      LegAdvances(input, ChainOf(input, ds).value, d);
    }
  }

  lemma {:induction false} DecidedAppend(ds: seq<Decision>, d: Decision, ordinal: nat)
    ensures Decided(ds + [d], ordinal) <==> Decided(ds, ordinal) || d.ordinal == ordinal
  {
    assert forall x :: x in ds + [d] <==> x in ds || x == d;
  }

  /** What the longer sequence schedules next was within reach of the shorter. */
  lemma {:induction false} ScheduledWasInReach(input: SearchInput, ds: seq<Decision>, d: Decision, i: nat)
    requires Accepted(input, ds) && Accepted(input, ds + [d])
    requires i < |input.remaining| && input.remaining[i].ordinal == d.ordinal && input.remaining[i].Protected()
    ensures OffersAny(AlternativesFor(input, input.remaining[i], Standing(input, ds).1))
  {
    AcceptedAppend(input, ds, d);
    IndexOfIsInverse(input, i);
    ChainStands(input, ds);
    var chain := ChainOf(input, ds).value;
    LegAdvances(input, chain, d);
    var arrival := ArrivalAt(input, chain.at, chain.end, i).value;
    OffersAnyIffOffered(input, input.remaining[i], arrival);
    EarlierArrivalStillOffers(input, input.remaining[i], Standing(input, ds).1, arrival);
  }

  lemma {:induction false} OthersWereInReach(input: SearchInput, ds: seq<Decision>, d: Decision, i: nat)
    requires Accepted(input, ds) && Accepted(input, ds + [d]) && i < |input.remaining|
    requires WithinReach(input, ds + [d], i) && input.remaining[i].ordinal != d.ordinal
    ensures WithinReach(input, ds, i)
  {
    DecidedAppend(ds, d, input.remaining[i].ordinal);
    StandingAdvances(input, ds, d);
    if !Decided(ds, input.remaining[i].ordinal) && input.remaining[i].Protected() {
      EarlierArrivalStillOffers(input, input.remaining[i], Standing(input, ds).1, Standing(input, ds + [d]).1);
    }
  }

  /** A prefix of a viable sequence is viable. */
  lemma {:induction false} ViablePrefix(input: SearchInput, ds: seq<Decision>, d: Decision)
    requires Viable(input, ds + [d])
    ensures Viable(input, ds)
  {
    AcceptedAppend(input, ds, d);
    forall i | 0 <= i < |input.remaining| ensures WithinReach(input, ds, i) {
      if !Decided(ds, input.remaining[i].ordinal) && input.remaining[i].Protected() {
        if input.remaining[i].ordinal == d.ordinal {
          ScheduledWasInReach(input, ds, d, i);
        } else {
          assert WithinReach(input, ds + [d], i);
          OthersWereInReach(input, ds, d, i);
        }
      }
    }
  }

  lemma {:induction false} ViableTake(input: SearchInput, ds: seq<Decision>, k: nat)
    requires Viable(input, ds) && k <= |ds|
    ensures Viable(input, ds[..k])
  {
    ViableShorter(input, ds, ds[..k]);
  }

  lemma {:induction false} ViableFront(input: SearchInput, ds: seq<Decision>, front: seq<Decision>)
    requires ds != [] && front == ds[..|ds| - 1] && Viable(input, ds)
    ensures Viable(input, front)
  {
    var last := ds[|ds| - 1];
    assert front + [last] == ds;
    ViablePrefix(input, front, last);
  }

  lemma {:induction false} ViableShorter(input: SearchInput, ds: seq<Decision>, shorter: seq<Decision>)
    requires Viable(input, ds) && shorter <= ds
    ensures Viable(input, shorter)
    decreases |ds|
  {
    if |shorter| == |ds| {
      assert shorter == ds;
    } else {
      var front := ds[..|ds| - 1];
      assert shorter <= front;
      ViableFront(input, ds, front);
      ViableShorter(input, front, shorter);
    }
  }

  // ----- a complete sequence decides everything -----

  function DecidedIndices(input: SearchInput, ds: seq<Decision>): seq<nat>
    requires Known(input, ds)
  {
    seq(|ds|, k requires 0 <= k < |ds| => input.IndexOf(ds[k].ordinal).value)
  }

  /** As many distinct decisions as activities leave no activity undecided. */
  lemma {:induction false} FullLengthDecidesAll(input: SearchInput, ds: seq<Decision>, i: nat)
    requires Known(input, ds) && |ds| == |input.remaining| && i < |input.remaining|
    ensures Decided(ds, input.remaining[i].ordinal)
  {
    var indices := DecidedIndices(input, ds);
    forall j, k | 0 <= j < k < |indices| ensures indices[j] != indices[k] {
      assert input.remaining[indices[j]].ordinal == ds[j].ordinal;
    }
    DistinctCovers(indices, |input.remaining|);
    assert i in indices;
    var k :| 0 <= k < |indices| && indices[k] == i;
    assert ds[k] in ds;
  }

  /** Every prefix of a complete plan is viable, so pruning keeps them all. */
  lemma {:induction false} CompletePlanIsViable(input: SearchInput, ds: seq<Decision>, k: nat)
    requires CompletePlan(input, ds) && k <= |ds|
    ensures Viable(input, ds[..k])
  {
    forall i | 0 <= i < |input.remaining| ensures Decided(ds, input.remaining[i].ordinal) {
      FullLengthDecidesAll(input, ds, i);
    }
    ViableTake(input, ds, k);
  }

  // ----- the common order -----

  lemma {:induction false} CommonOrderMembers(input: SearchInput, visits: seq<Decision>)
    requires Known(input, visits)
    ensures forall i: nat :: i in CommonOrder(input, visits) <==>
            i in DecidedIndices(input, visits) && i < |input.remaining| && input.remaining[i].BaselineScheduled()
  {
    if visits != [] {
      var front, last := visits[..|visits| - 1], visits[|visits| - 1];
      KnownTake(input, visits, |visits| - 1);
      CommonOrderMembers(input, front);
      assert DecidedIndices(input, visits) == DecidedIndices(input, front) + [input.IndexOf(last.ordinal).value];
    }
  }

  lemma {:induction false} CommonOrderDistinct(input: SearchInput, visits: seq<Decision>)
    requires Known(input, visits)
    ensures Distinct(CommonOrder(input, visits))
  {
    if visits != [] {
      var front, last := visits[..|visits| - 1], visits[|visits| - 1];
      assert visits == front + [last];
      KnownAppend(input, front, last);
      CommonOrderDistinct(input, front);
      CommonOrderMembers(input, front);
      var index := input.IndexOf(last.ordinal).value;
      forall k | 0 <= k < |front| ensures DecidedIndices(input, front)[k] != index {
        assert front[k] in front;
      }
      assert index !in CommonOrder(input, front);
    }
  }
}

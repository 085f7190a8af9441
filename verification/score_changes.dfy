/** What counts as a change of the current plan, said by position: dropped, taken
    up, at another time, or at another place among what both plans schedule. */
module ScoreChanges {
  import opened Domain
  import opened PlannerInput
  import opened CandidateScores
  import opened Scoring
  import opened SearchSpace
  import opened ScoreTotals

  ghost predicate InBoth(input: SearchInput, visits: seq<Decision>, i: nat)
    requires i < |input.remaining|
  {
    input.remaining[i].segment.state.Scheduled? && exists k | 0 <= k < |visits| :: visits[k].ordinal == input.remaining[i].ordinal
  }

  /** How many activities before this one in the current plan both plans schedule. */
  ghost function BothBefore(input: SearchInput, visits: seq<Decision>, i: nat): nat
    requires i <= |input.remaining|
  {
    if i == 0 then 0 else BothBefore(input, visits, i - 1) + if InBoth(input, visits, i - 1) then 1 else 0
  }

  /** How many of the first visits are to activities of the current plan. */
  ghost function KeptBefore(input: SearchInput, visits: seq<Decision>, k: nat): nat
    requires Named(input, visits) && k <= |visits|
  {
    if k == 0 then 0
    else KeptBefore(input, visits, k - 1) + if Visited(input, visits[k - 1]).segment.state.Scheduled? then 1 else 0
  }

  /** The visit is not what the current plan has. */
  ghost predicate NewVisit(input: SearchInput, visits: seq<Decision>, i: nat, k: nat)
    requires Named(input, visits) && i < |input.remaining| && k < |visits|
  {
    var s := input.remaining[i].segment;
    || s.state.Omitted? || s.start != Some(visits[k].start) || s.end != Some(visits[k].end)
    || KeptBefore(input, visits, k) != BothBefore(input, visits, i)
  }

  ghost predicate Differs(input: SearchInput, ds: seq<Decision>, i: nat)
    requires Named(input, Visits(ds)) && i < |input.remaining|
  {
    var a, visits := input.remaining[i], Visits(ds);
    || (a.segment.state.Scheduled? && Dropped(ds, a.ordinal))
    || exists k | 0 <= k < |visits| && visits[k].ordinal == a.ordinal :: NewVisit(input, visits, i, k)
  }

  ghost function Differences(input: SearchInput, ds: seq<Decision>, n: nat): seq<int>
    requires Named(input, Visits(ds)) && n <= |input.remaining|
  {
    seq(n, i requires 0 <= i < n <= |input.remaining| && Named(input, Visits(ds)) => if Differs(input, ds, i) then 1 else 0)
  }

  // ----- places -----

  /** A kept visit stands in the common order behind the kept visits before it. */
  lemma {:induction false} CommonAt(input: SearchInput, visits: seq<Decision>, k: nat)
    requires Named(input, visits) && k < |visits| && Visited(input, visits[k]).segment.state.Scheduled?
    ensures var common, p := CommonOrder(input, visits), KeptBefore(input, visits, k);
      p < |common| && common[p] == input.IndexOf(visits[k].ordinal).value
  {
    var front := visits[..|visits| - 1];
    assert forall j | 0 <= j < |front| :: front[j] == visits[j];
    KeptCarriesOver(input, visits, front, k);
    if k < |front| {
      CommonAt(input, front, k);
    } else {
      CommonSize(input, front);
    }
  }

  lemma {:induction false} KeptCarriesOver(input: SearchInput, visits: seq<Decision>, shorter: seq<Decision>, k: nat)
    requires Named(input, visits) && Named(input, shorter) && shorter <= visits && k <= |shorter|
    ensures KeptBefore(input, visits, k) == KeptBefore(input, shorter, k)
  {
    if k > 0 { KeptCarriesOver(input, visits, shorter, k - 1); }
  }

  lemma {:induction false} CommonSize(input: SearchInput, visits: seq<Decision>)
    requires Named(input, visits)
    ensures |CommonOrder(input, visits)| == KeptBefore(input, visits, |visits|)
  {
    if visits != [] {
      var front := visits[..|visits| - 1];
      assert forall j | 0 <= j < |front| :: front[j] == visits[j];
      CommonSize(input, front);
      KeptCarriesOver(input, visits, front, |front|);
    }
  }

  lemma {:induction false} CommonIffBoth(input: SearchInput, visits: seq<Decision>, i: nat)
    requires input.Valid() && Known(input, visits) && i < |input.remaining|
    ensures i in CommonOrder(input, visits) <==> InBoth(input, visits, i)
  {
    CommonOrderMembers(input, visits);
    IndexOfIsInverse(input, i);
    var indices := DecidedIndices(input, visits);
    if i in indices {
      var k :| 0 <= k < |visits| && indices[k] == i;
      assert visits[k].ordinal == input.remaining[i].ordinal;
    }
    if k :| 0 <= k < |visits| && visits[k].ordinal == input.remaining[i].ordinal {
      assert indices[k] == i;
    }
  }

  lemma {:induction false} BelowIsBoth(input: SearchInput, visits: seq<Decision>, i: nat)
    requires input.Valid() && Known(input, visits) && i <= |input.remaining|
    ensures CountBelow(CommonOrder(input, visits), i) == BothBefore(input, visits, i)
  {
    if i > 0 {
      BelowIsBoth(input, visits, i - 1);
      CommonIffBoth(input, visits, i - 1);
    }
  }

  // ----- changes -----

  lemma {:induction false} VisitOf(input: SearchInput, ds: seq<Decision>, i: nat, d: Decision) returns (k: nat)
    requires d in ds && d.kind == 0
    ensures k < |Visits(ds)| && Visits(ds)[k] == d
  {
    VisitsMembers(ds);
    k :| 0 <= k < |Visits(ds)| && Visits(ds)[k] == d;
  }

  /** What the scorer asks of an activity that is visited. */
  lemma {:induction false} VisitChanges(input: SearchInput, ds: seq<Decision>, i: nat, k: nat)
    requires input.Valid() && Known(input, ds) && Known(input, Visits(ds)) && i < |input.remaining| && k < |Visits(ds)|
    requires Visits(ds)[k].ordinal == input.remaining[i].ordinal
    ensures ChangedBy(input, ds, i) <==> NewVisit(input, Visits(ds), i, k)
  {
    var visits, a := Visits(ds), input.remaining[i];
    var d := visits[k];
    IndexOfIsInverse(input, i);
    VisitsMembers(ds);
    assert d in ds;
    OnlyDecision(input, ds, d);
    if a.segment.state.Scheduled? {
      CommonAt(input, visits, k);
      CommonOrderDistinct(input, visits);
      BelowIsBoth(input, visits, i);
      var common, p := CommonOrder(input, visits), KeptBefore(input, visits, k);
      assert forall q | 0 <= q < |common| && common[q] == i :: q == p;
    }
  }

  lemma {:induction false} OnlyDecision(input: SearchInput, ds: seq<Decision>, d: Decision)
    requires Known(input, ds) && d in ds
    ensures forall e | e in ds && e.ordinal == d.ordinal :: e == d
  {
    forall e | e in ds && e.ordinal == d.ordinal ensures e == d {
      var i :| 0 <= i < |ds| && ds[i] == d;
      var j :| 0 <= j < |ds| && ds[j] == e;
    }
  }

  lemma {:induction false} UnvisitedChanges(input: SearchInput, ds: seq<Decision>, i: nat)
    requires input.Valid() && Known(input, ds) && Known(input, Visits(ds)) && i < |input.remaining|
    requires forall k | 0 <= k < |Visits(ds)| :: Visits(ds)[k].ordinal != input.remaining[i].ordinal
    ensures ChangedBy(input, ds, i) <==> input.remaining[i].segment.state.Scheduled? && Dropped(ds, input.remaining[i].ordinal)
  {
    var a := input.remaining[i];
    SkippedIsDropped(input, ds, a.ordinal);
    CommonIffBoth(input, Visits(ds), i);
    VisitsMembers(ds);
    forall d | d in ds && d.ordinal == a.ordinal ensures d.kind != 0 {
      if d.kind == 0 {
        var k := VisitOf(input, ds, i, d);
        assert false;
      }
    }
  }

  lemma {:induction false} NotBoth(input: SearchInput, ds: seq<Decision>, k: nat)
    requires Known(input, ds) && k < |Visits(ds)|
    ensures !Dropped(ds, Visits(ds)[k].ordinal)
  {
    VisitsMembers(ds);
    var d := Visits(ds)[k];
    assert d in Visits(ds);
    OnlyDecision(input, ds, d);
  }

  lemma {:induction false} ChangedIffDiffers(input: SearchInput, ds: seq<Decision>, i: nat)
    requires input.Valid() && Known(input, ds) && i < |input.remaining|
    ensures Named(input, Visits(ds)) && (ChangedBy(input, ds, i) <==> Differs(input, ds, i))
  {
    KnownVisits(input, ds);
    var visits := Visits(ds);
    if k :| 0 <= k < |visits| && visits[k].ordinal == input.remaining[i].ordinal {
      VisitChanges(input, ds, i, k);
      NotBoth(input, ds, k);
    } else {
      UnvisitedChanges(input, ds, i);
    }
  }

  lemma {:induction false} ChangesAre(input: SearchInput, ds: seq<Decision>, n: nat)
    requires input.Valid() && Known(input, ds) && n <= |input.remaining|
    ensures Named(input, Visits(ds)) && ChangedCount(input, ds, n) == Sum(Differences(input, ds, n))
  {
    VisitsKnown(input, ds);
    if n > 0 {
      ChangesAre(input, ds, n - 1);
      ChangedIffDiffers(input, ds, n - 1);
      var amount := if Differs(input, ds, n - 1) then 1 else 0;
      assert Differences(input, ds, n) == Differences(input, ds, n - 1) + [amount];
      SumAppend(Differences(input, ds, n - 1), amount);
    }
  }

  /** The number of changes in a score is the number of activities that differ. */
  lemma {:induction false} ScoreCountsDifferences(input: SearchInput, ds: seq<Decision>)
    requires ScoreCandidate(input, ds).Some?
    ensures Named(input, Visits(ds)) && ScoreCandidate(input, ds).value.changed == Sum(Differences(input, ds, |input.remaining|))
  {
    ChangesAre(input, ds, |input.remaining|);
  }
}

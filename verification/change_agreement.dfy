/** The scorer counts changed activities by suffix position while it walks the
    decisions; the assembler compares segments by activity id.  They agree. */
module ChangeAgreement {
  import opened Domain
  import opened Sorting
  import opened PlannerInput
  import opened CandidateScores
  import opened Scoring
  import opened SearchSpace
  import opened Canonical
  import opened Itineraries
  import opened Proposals
  import opened ProposalAssembler
  import opened ProposalTheorems

  function IdAt(input: SearchInput, index: nat): Id
    requires index < |input.remaining|
  {
    input.remaining[index].activity.id
  }

  function IdsAt(input: SearchInput, indices: seq<nat>): seq<Id>
    requires forall k | 0 <= k < |indices| :: indices[k] < |input.remaining|
  {
    seq(|indices|, k requires 0 <= k < |indices| => IdAt(input, indices[k]))
  }

  lemma {:induction false} IdsTellApart(input: SearchInput, i: nat, j: nat)
    requires input.Valid() && i < |input.remaining| && j < |input.remaining| && IdAt(input, i) == IdAt(input, j)
    ensures i == j
  {
    IndexOfIsInverse(input, i);
    IndexOfIsInverse(input, j);
  }

  // ----- the visited ids -----

  lemma {:induction false} ScheduledIdsAre(input: SearchInput, canonical: seq<Decision>, visits: nat)
    requires Known(input, canonical) && visits <= |canonical|
    requires forall k | 0 <= k < visits :: canonical[k].kind == 0
    requires forall k | visits <= k < |canonical| :: canonical[k].kind == 1
    ensures ScheduledIds(SegmentsOf(input, canonical)) == IdsAt(input, DecidedIndices(input, canonical)[..visits])
    decreases |canonical|
  {
    if canonical != [] {
      var front := canonical[..|canonical| - 1];
      KnownTake(input, canonical, |canonical| - 1);
      assert SegmentsOf(input, canonical)[..|canonical| - 1] == SegmentsOf(input, front);
      ScheduledIdsAre(input, front, Min(visits, |front|));
      assert DecidedIndices(input, canonical)[..|front|] == DecidedIndices(input, front);
      var all := DecidedIndices(input, canonical);
      if visits == |canonical| {
        assert all[..visits] == DecidedIndices(input, front)[..|front|] + [all[|front|]];
      } else {
        assert all[..visits] == DecidedIndices(input, front)[..visits];
      }
    }
  }

  // ----- the common order, by position and by id -----

  lemma {:induction false} CommonCandidateAppend(input: SearchInput, ids: seq<Id>, index: nat)
    requires input.Valid() && index < |input.remaining|
    ensures CommonCandidate(input, ids + [IdAt(input, index)])
         == if input.remaining[index].BaselineScheduled() then CommonCandidate(input, ids) + [IdAt(input, index)]
            else CommonCandidate(input, ids)
  {
    IndexOfIsInverse(input, index);
    assert (ids + [IdAt(input, index)])[..|ids|] == ids;
  }

  lemma {:induction false} VisitedIdsAppend(input: SearchInput, visits: seq<Decision>)
    requires Known(input, visits) && visits != [] && Known(input, visits[..|visits| - 1])
    ensures IdsAt(input, DecidedIndices(input, visits))
         == IdsAt(input, DecidedIndices(input, visits[..|visits| - 1]))
            + [IdAt(input, input.IndexOf(visits[|visits| - 1].ordinal).value)]
  {
  }

  lemma {:induction false} CommonIdsAppend(input: SearchInput, indices: seq<nat>, index: nat)
    requires index < |input.remaining| && forall k | 0 <= k < |indices| :: indices[k] < |input.remaining|
    ensures IdsAt(input, indices + [index]) == IdsAt(input, indices) + [IdAt(input, index)]
  {
  }

  lemma {:induction false} CommonCandidateIs(input: SearchInput, visits: seq<Decision>)
    requires input.Valid() && Known(input, visits)
    ensures CommonCandidate(input, IdsAt(input, DecidedIndices(input, visits))) == IdsAt(input, CommonOrder(input, visits))
  {
    if visits != [] {
      var front, last := visits[..|visits| - 1], visits[|visits| - 1];
      KnownTake(input, visits, |visits| - 1);
      CommonCandidateIs(input, front);
      var index := input.IndexOf(last.ordinal).value;
      CommonCandidateAppend(input, IdsAt(input, DecidedIndices(input, front)), index);
      VisitedIdsAppend(input, visits);
      CommonIdsAppend(input, CommonOrder(input, front), index);
    }
  }

  lemma {:induction false} FindById(input: SearchInput, indices: seq<nat>, p: nat)
    requires input.Valid() && Distinct(indices) && p < |indices|
    requires forall k | 0 <= k < |indices| :: indices[k] < |input.remaining|
    ensures Find(IdsAt(input, indices), IdAt(input, indices[p])) == p
  {
    var ids := IdsAt(input, indices);
    var r := Find(ids, IdAt(input, indices[p]));
    assert ids[p] == IdAt(input, indices[p]);
    assert r <= p;
    IdsTellApart(input, indices[r], indices[p]);
  }

  lemma {:induction false} FindAbsent(input: SearchInput, indices: seq<nat>, i: nat)
    requires input.Valid() && i < |input.remaining| && i !in indices
    requires forall k | 0 <= k < |indices| :: indices[k] < |input.remaining|
    ensures Find(IdsAt(input, indices), IdAt(input, i)) == |indices|
  {
    var ids := IdsAt(input, indices);
    var r := Find(ids, IdAt(input, i));
    if r < |ids| {
      IdsTellApart(input, indices[r], i);
      assert false;
    }
  }

  lemma {:induction false} CommonBaselineIs(input: SearchInput, indices: seq<nat>, common: seq<nat>, limit: nat)
    requires input.Valid() && limit <= |input.remaining|
    requires forall k | 0 <= k < |indices| :: indices[k] < |input.remaining|
    requires forall i: nat :: i in common <==> i in indices && i < |input.remaining| && input.remaining[i].BaselineScheduled()
    ensures CommonBaseline(input, IdsAt(input, indices), limit) == IdsAt(input, PlanOrder(common, limit))
  {
    if limit > 0 {
      CommonBaselineIs(input, indices, common, limit - 1);
      IdListed(input, indices, limit - 1);
      assert limit - 1 in common <==> limit - 1 in indices && input.remaining[limit - 1].BaselineScheduled();
      OneMoreCommon(input, IdsAt(input, indices), common, limit);
    }
  }

  lemma {:induction false} OneMoreCommon(input: SearchInput, ids: seq<Id>, common: seq<nat>, limit: nat)
    requires 0 < limit <= |input.remaining|
    requires limit - 1 in common <==> IdAt(input, limit - 1) in ids && input.remaining[limit - 1].BaselineScheduled()
    requires CommonBaseline(input, ids, limit - 1) == IdsAt(input, PlanOrder(common, limit - 1))
    ensures CommonBaseline(input, ids, limit) == IdsAt(input, PlanOrder(common, limit))
  {
    CommonIdsAppend(input, PlanOrder(common, limit - 1), limit - 1);
  }

  lemma {:induction false} IdListed(input: SearchInput, indices: seq<nat>, i: nat)
    requires input.Valid() && i < |input.remaining|
    requires forall k | 0 <= k < |indices| :: indices[k] < |input.remaining|
    ensures IdAt(input, i) in IdsAt(input, indices) <==> i in indices
  {
    var ids := IdsAt(input, indices);
    if i in indices {
      var k :| 0 <= k < |indices| && indices[k] == i;
      assert ids[k] == IdAt(input, i);
    }
    forall k | 0 <= k < |ids| && ids[k] == IdAt(input, i) ensures indices[k] == i {
      IdsTellApart(input, indices[k], i);
    }
  }

  /** Comparing places by id in the two common lists is comparing places by position. */
  lemma {:induction false} PositionsAgree(input: SearchInput, common: seq<nat>, i: nat)
    requires input.Valid() && i < |input.remaining| && Distinct(common)
    requires forall k | 0 <= k < |common| :: common[k] < |input.remaining|
    ensures PositionChanged(IdAt(input, i), IdsAt(input, PlanOrder(common, |input.remaining|)), IdsAt(input, common))
       <==> OutOfPlace(common, i)
  {
    if i in common {
      var p :| 0 <= p < |common| && common[p] == i;
      FindById(input, common, p);
      PlanOrderPosition(common, |input.remaining|, i);
      FindById(input, PlanOrder(common, |input.remaining|), CountBelow(common, i));
    } else {
      FindAbsent(input, common, i);
    }
  }

  // ----- one activity -----

  lemma {:induction false} DecisionOfOrdinal(input: SearchInput, ds: seq<Decision>, d: Decision)
    requires Known(input, ds) && d in ds
    ensures SkippedIn(ds, d.ordinal) <==> d.kind != 0
    ensures ScheduledIn(ds, d.ordinal) <==> d.kind == 0
    ensures forall start: int64, end: int64 ::
      ScheduledAt(ds, d.ordinal, start, end) <==> d.kind == 0 && d.start == start && d.end == end
  {
    forall e | e in ds && e.ordinal == d.ordinal ensures e == d {
      var i :| 0 <= i < |ds| && ds[i] == d;
      var j :| 0 <= j < |ds| && ds[j] == e;
      assert i == j;
    }
  }

  /** Whether the assembler calls a segment changed is whether the scorer counts its activity. */
  lemma {:induction false} SegmentAgrees(c: Context, ds: seq<Decision>, d: Decision)
    requires c.input.Valid() && Known(c.input, ds) && d in ds && c.input.IndexOf(d.ordinal).Some?
    requires d.kind <= 1
    requires forall k | 0 <= k < |Visits(ds)| :: c.input.IndexOf(Visits(ds)[k].ordinal).Some?
    requires var common := CommonOrder(c.input, Visits(ds));
      Distinct(common) && c.baseline == IdsAt(c.input, PlanOrder(common, |c.input.remaining|))
      && c.candidate == IdsAt(c.input, common)
    requires d.kind == 1 ==> c.input.IndexOf(d.ordinal).value !in CommonOrder(c.input, Visits(ds))
    ensures var i := c.input.IndexOf(d.ordinal).value;
      SegmentChanged(c.input.remaining[i].segment, SegmentOf(c.input, d), c.baseline, c.candidate)
      <==> ChangedBy(c.input, ds, i)
  {
    var i := c.input.IndexOf(d.ordinal).value;
    var a := c.input.remaining[i];
    DecisionOfOrdinal(c.input, ds, d);
    PositionsAgree(c.input, CommonOrder(c.input, Visits(ds)), i);
    assert a.Valid();
  }

  // ----- counting -----

  function Tally(f: nat -> bool, s: seq<nat>): nat {
    if s == [] then 0 else Tally(f, s[..|s| - 1]) + if f(s[|s| - 1]) then 1 else 0
  }

  lemma {:induction false} TallyRemoves(f: nat -> bool, s: seq<nat>, k: nat)
    requires k < |s|
    ensures Tally(f, s) == Tally(f, s[..k] + s[k + 1..]) + if f(s[k]) then 1 else 0
    decreases |s|
  {
    var front, last := s[..|s| - 1], s[|s| - 1];
    if k < |front| {
      TallyRemoves(f, front, k);
      var rest := s[..k] + s[k + 1..];
      assert rest[..|rest| - 1] == front[..k] + front[k + 1..];
    } else {
      assert s[..k] + s[k + 1..] == front;
    }
  }

  lemma {:induction false} TallyPermutes(f: nat -> bool, a: seq<nat>, b: seq<nat>)
    requires multiset(a) == multiset(b)
    ensures Tally(f, a) == Tally(f, b)
  {
    SameElements(a, b);
    if a != [] {
      var front, last := a[..|a| - 1], a[|a| - 1];
      assert last in a && last in b;
      var k :| 0 <= k < |b| && b[k] == last;
      TallyRemoves(f, b, k);
      RemoveAt(b, k);
      RemoveAt(a, |a| - 1);
      assert a[..|a| - 1] + a[|a|..] == front;
      TallyPermutes(f, front, b[..k] + b[k + 1..]);
    }
  }

  lemma {:induction false} PositionsMembers(n: nat)
    ensures Distinct(Positions(n))
    ensures forall i: nat :: i in Positions(n) <==> i < n
  {
    forall i: nat | i < n ensures i in Positions(n) { assert Positions(n)[i] == i; }
  }

  /** How many segments of a suffix the assembler calls changed. */
  function ChangedSegments(c: Context, suffix: seq<Segment>): nat {
    if suffix == [] then 0
    else
      var s := suffix[|suffix| - 1];
      var index := c.input.IndexOfId(s.id);
      ChangedSegments(c, suffix[..|suffix| - 1]) +
      if index.Some? && SegmentChanged(c.input.remaining[index.value].segment, s, c.baseline, c.candidate) then 1 else 0
  }

  /** The assembler's verdict on the k-th decision of a list is given by a test on its position. */
  ghost predicate TestsSegments(c: Context, ds: seq<Decision>, f: nat -> bool)
    requires c.input.Valid() && Known(c.input, ds)
  {
    forall k | 0 <= k < |ds| :: SegmentTest(c, ds[k], f)
  }

  ghost predicate SegmentTest(c: Context, d: Decision, f: nat -> bool)
    requires c.input.Valid() && c.input.IndexOf(d.ordinal).Some?
  {
    var i := c.input.IndexOf(d.ordinal).value;
    c.input.IndexOfId(SegmentOf(c.input, d).id) == Some(i)
    && (SegmentChanged(c.input.remaining[i].segment, SegmentOf(c.input, d), c.baseline, c.candidate) <==> f(i))
  }

  lemma {:induction false} SegmentsTally(c: Context, ds: seq<Decision>, f: nat -> bool)
    requires c.input.Valid() && Known(c.input, ds) && TestsSegments(c, ds, f)
    ensures ChangedSegments(c, SegmentsOf(c.input, ds)) == Tally(f, DecidedIndices(c.input, ds))
  {
    if ds != [] {
      var front := ds[..|ds| - 1];
      FrontOfBoth(c.input, ds, front);
      FrontTests(c, ds, front, f);
      SegmentsTally(c, front, f);
      LastDecisionTally(c, ds, f);
    }
  }

  lemma {:induction false} FrontTests(c: Context, ds: seq<Decision>, front: seq<Decision>, f: nat -> bool)
    requires c.input.Valid() && Known(c.input, ds) && Known(c.input, front) && TestsSegments(c, ds, f)
    requires ds != [] && front == ds[..|ds| - 1]
    ensures TestsSegments(c, front, f) && SegmentTest(c, ds[|ds| - 1], f)
  {
    forall k | 0 <= k < |front| ensures SegmentTest(c, front[k], f) {
      assert SegmentTest(c, ds[k], f);
    }
  }

  lemma {:induction false} LastDecisionTally(c: Context, ds: seq<Decision>, f: nat -> bool)
    requires c.input.Valid() && Known(c.input, ds) && ds != [] && SegmentTest(c, ds[|ds| - 1], f)
    ensures var suffix, indices := SegmentsOf(c.input, ds), DecidedIndices(c.input, ds);
      ChangedSegments(c, suffix) - ChangedSegments(c, suffix[..|suffix| - 1])
      == Tally(f, indices) - Tally(f, indices[..|indices| - 1])
  {
    LastTally(c, SegmentsOf(c.input, ds), DecidedIndices(c.input, ds), f);
  }

  lemma {:induction false} FrontOfBoth(input: SearchInput, ds: seq<Decision>, front: seq<Decision>)
    requires input.Valid() && Known(input, ds) && ds != [] && front == ds[..|ds| - 1]
    ensures Known(input, front)
    ensures SegmentsOf(input, ds)[..|front|] == SegmentsOf(input, front)
    ensures DecidedIndices(input, ds)[..|front|] == DecidedIndices(input, front)
  {
    KnownTake(input, ds, |ds| - 1);
  }

  lemma {:induction false} LastTally(c: Context, suffix: seq<Segment>, indices: seq<nat>, f: nat -> bool)
    requires |suffix| == |indices| > 0
    requires var i := indices[|indices| - 1]; var s := suffix[|suffix| - 1];
      && i < |c.input.remaining| && c.input.IndexOfId(s.id) == Some(i)
      && (SegmentChanged(c.input.remaining[i].segment, s, c.baseline, c.candidate) <==> f(i))
    ensures ChangedSegments(c, suffix) - ChangedSegments(c, suffix[..|suffix| - 1])
            == Tally(f, indices) - Tally(f, indices[..|indices| - 1])
  {
  }

  lemma {:induction false} ChangedCountTally(input: SearchInput, ds: seq<Decision>, limit: nat, f: nat -> bool)
    requires input.Valid() && Known(input, ds) && limit <= |input.remaining|
    requires forall i: nat | i < |input.remaining| :: f(i) <==> ChangedBy(input, ds, i)
    ensures ChangedCount(input, ds, limit) == Tally(f, Positions(limit))
  {
    if limit > 0 {
      ChangedCountTally(input, ds, limit - 1, f);
      assert Positions(limit)[..limit - 1] == Positions(limit - 1);
      assert f(limit - 1) <==> ChangedBy(input, ds, limit - 1);
    }
  }

  lemma {:induction false} ChangedSomeIffCounted(c: Context, suffix: seq<Segment>)
    requires c.input.Valid() && SuffixSegments(c, suffix).Some?
    ensures SuffixSegments(c, suffix).value.changed <==> ChangedSegments(c, suffix) > 0
  {
    if suffix != [] { ChangedSomeIffCounted(c, suffix[..|suffix| - 1]); }
  }

  /** The common lists of the assembler are the common order of the scorer. */
  lemma {:induction false} ContextIsCommon(input: SearchInput, canonical: seq<Decision>, visits: seq<Decision>,
                                           activities: seq<Activity>, reasons: bool -> seq<Reason>)
    requires input.Valid() && PlanShape(input, canonical, visits)
    ensures var c := ContextFor(input, activities, SegmentsOf(input, canonical), reasons);
      && Distinct(CommonOrder(input, visits))
      && c.baseline == IdsAt(input, PlanOrder(CommonOrder(input, visits), |input.remaining|))
      && c.candidate == IdsAt(input, CommonOrder(input, visits))
  {
    forall k | 0 <= k < |visits| ensures canonical[k].kind == 0 { assert canonical[k] == visits[k]; }
    ScheduledIdsAre(input, canonical, |visits|);
    assert DecidedIndices(input, canonical)[..|visits|] == DecidedIndices(input, visits);
    CommonOrderMembers(input, visits);
    CommonOrderDistinct(input, visits);
    CommonCandidateIs(input, visits);
    CommonBaselineIs(input, DecidedIndices(input, visits), CommonOrder(input, visits), |input.remaining|);
  }

  lemma {:induction false} SkippedIsNotCommon(input: SearchInput, ds: seq<Decision>, d: Decision)
    requires Known(input, ds) && d in ds && d.kind == 1
    ensures Known(input, Visits(ds)) && input.IndexOf(d.ordinal).Some?
    ensures input.IndexOf(d.ordinal).value !in CommonOrder(input, Visits(ds))
  {
    KnownVisits(input, ds);
    CommonOrderMembers(input, Visits(ds));
    var index := input.IndexOf(d.ordinal).value;
    var indices := DecidedIndices(input, Visits(ds));
    forall k | 0 <= k < |indices| ensures indices[k] != index {
      VisitsMembers(ds);
      var v := Visits(ds)[k];
      assert v in Visits(ds);
      DecisionOfOrdinal(input, ds, d);
      assert v in ds && v.kind == 0;
    }
  }

  lemma {:induction false} PlanTests(c: Context, ds: seq<Decision>, canonical: seq<Decision>, f: nat -> bool)
    requires c.input.Valid() && Known(c.input, ds) && Known(c.input, canonical) && SameMembers(ds, canonical)
    requires forall k | 0 <= k < |Visits(ds)| :: c.input.IndexOf(Visits(ds)[k].ordinal).Some?
    requires var common := CommonOrder(c.input, Visits(ds));
      Distinct(common) && c.baseline == IdsAt(c.input, PlanOrder(common, |c.input.remaining|))
      && c.candidate == IdsAt(c.input, common)
    requires forall i: nat | i < |c.input.remaining| :: f(i) <==> ChangedBy(c.input, ds, i)
    ensures TestsSegments(c, canonical, f)
  {
    forall k | 0 <= k < |canonical| ensures SegmentTest(c, canonical[k], f) {
      var d := canonical[k];
      assert d in canonical;
      var i := c.input.IndexOf(d.ordinal).value;
      IndexOfIsInverse(c.input, i);
      if d.kind == 1 { SkippedIsNotCommon(c.input, ds, d); }
      SegmentAgrees(c, ds, d);
    }
  }

  /** The assembler finds exactly as many changed segments as the score counts. */
  lemma {:induction false} ChangeCountsAgree(input: SearchInput, ds: seq<Decision>, activities: seq<Activity>,
                                             reasons: bool -> seq<Reason>)
    requires CompletePlan(input, ds)
    ensures Known(input, CanonicalForm(ds))
    ensures var suffix := SegmentsOf(input, CanonicalForm(ds));
      ChangedSegments(ContextFor(input, activities, suffix, reasons), suffix) == ScoreCandidate(input, ds).value.changed
  {
    PlanHasShape(input, ds);
    CanonicalHalves(ds);
    AgreeOnShape(input, ds, CanonicalForm(ds), activities, reasons);
  }

  lemma {:induction false} AgreeOnShape(input: SearchInput, ds: seq<Decision>, canonical: seq<Decision>,
                                        activities: seq<Activity>, reasons: bool -> seq<Reason>)
    requires input.Valid() && Known(input, ds) && PlanShape(input, canonical, Visits(ds))
    requires |canonical| == |input.remaining| && SameMembers(ds, canonical)
    ensures ChangedSegments(ContextFor(input, activities, SegmentsOf(input, canonical), reasons), SegmentsOf(input, canonical))
         == ChangedCount(input, ds, |input.remaining|)
  {
    var c := ContextFor(input, activities, SegmentsOf(input, canonical), reasons);
    var f := (i: nat) => i < |input.remaining| && ChangedBy(input, ds, i);
    ContextIsCommon(input, canonical, Visits(ds), activities, reasons);
    PlanTests(c, ds, canonical, f);
    SegmentsTally(c, canonical, f);
    ChangedCountTally(input, ds, |input.remaining|, f);
    IndicesPermute(input, canonical);
    PositionsMembers(|input.remaining|);
    DistinctPermutation(DecidedIndices(input, canonical), Positions(|input.remaining|));
    TallyPermutes(f, DecidedIndices(input, canonical), Positions(|input.remaining|));
  }

  /** A proposal changes the current plan exactly when its plan's score counts a change. */
  lemma {:induction false} ChangesIffCounted(input: SearchInput, ds: seq<Decision>, activities: seq<Activity>,
                                             source: ProposalSource, reasons: bool -> seq<Reason>)
    requires CompletePlan(input, ds) && AssembleProposal(input, ds, activities, source, reasons).Some?
    ensures AssembleProposal(input, ds, activities, source, reasons).value.changesCurrentPlan
       <==> ScoreCandidate(input, ds).value.changed > 0
  {
    ReconstructionSucceeds(input, ds);
    ChangeCountsAgree(input, ds, activities, reasons);
    var suffix := SegmentsOf(input, CanonicalForm(ds));
    ChangedSomeIffCounted(ContextFor(input, activities, suffix, reasons), suffix);
  }
}

/** What an assembled proposal says, segment by segment, of the trip, the plan
    found and the source it was computed from. */
module ProposalTells {
  import opened Domain
  import opened Folding
  import opened PlannerInput
  import opened CandidateScores
  import opened Scoring
  import opened SearchSpace
  import opened Canonical
  import opened Itineraries
  import opened Proposals
  import opened ProposalAssembler
  import T = ProposalTheorems
  import opened ChangeAgreement
  import opened ScoreTotals
  import opened ScoreChanges

  /** Where and in which time zone the segment is, is what its activity says. */
  ghost predicate TellsWhere(s: ProposalSegment, activities: seq<Activity>, id: Id) {
    s.id == id && exists a | a in activities :: a.id == id && a.location == s.location && a.timeZone == s.timeZone
  }

  /** A preserved segment, as the current plan has it. */
  ghost predicate TellsPreserved(s: ProposalSegment, activities: seq<Activity>, segment: Segment) {
    && TellsWhere(s, activities, segment.id)
    && s.start == segment.start && s.end == segment.end && s.inbound.None? && s.reasons == []
    && s.disposition == (if segment.state.Scheduled? then Preserved else Disposition.Dropped)
  }

  /** The k-th visit, with the way to it and how it compares with the current plan. */
  ghost predicate TellsVisit(s: ProposalSegment, input: SearchInput, ds: seq<Decision>, activities: seq<Activity>,
                             reasons: bool -> seq<Reason>, k: nat)
    requires input.Valid() && Named(input, Visits(ds)) && k < |Visits(ds)|
  {
    var visits := Visits(ds);
    var i := input.IndexOf(visits[k].ordinal).value;
    && TellsWhere(s, activities, input.remaining[i].activity.id)
    && s.start == Some(visits[k].start) && s.end == Some(visits[k].end)
    && s.inbound == Some(input.matrix.value.At(Place(input, visits, k), Place(input, visits, k + 1)))
    && s.disposition == (if input.remaining[i].segment.state.Omitted? then Added
                         else if Differs(input, ds, i) then Disposition.Moved else Preserved)
    && s.reasons == reasons(Differs(input, ds, i))
  }

  /** An activity that is left out: a change if the current plan has it. */
  ghost predicate TellsDropped(s: ProposalSegment, input: SearchInput, ds: seq<Decision>, activities: seq<Activity>,
                               reasons: bool -> seq<Reason>, i: nat)
    requires i < |input.remaining|
  {
    var a := input.remaining[i];
    && ScoreTotals.Dropped(ds, a.ordinal) && TellsWhere(s, activities, a.activity.id)
    && s.start.None? && s.end.None? && s.inbound.None? && s.disposition == Disposition.Dropped
    && s.reasons == reasons(a.segment.state.Scheduled?)
  }

  ghost predicate TellsSource(p: PlanProposal, source: ProposalSource) {
    && p.proposalId == source.proposalId && p.sourceEpoch == source.epoch && p.sourcePlannerVersion == source.plannerVersion
    && p.basePlanId == source.basePlanId && p.sourceRevision == source.revision && p.sourceMutation == source.mutation
    && p.createdAt == source.createdAt
  }

  ghost predicate TellsVisits(p: PlanProposal, input: SearchInput, ds: seq<Decision>, activities: seq<Activity>,
                              reasons: bool -> seq<Reason>)
    requires input.Valid() && Named(input, Visits(ds)) && |Visits(ds)| <= |p.suffix|
  {
    forall k | 0 <= k < |Visits(ds)| :: TellsVisit(p.suffix[k], input, ds, activities, reasons, k)
  }

  ghost predicate TellsLeft(s: ProposalSegment, input: SearchInput, ds: seq<Decision>, activities: seq<Activity>,
                            reasons: bool -> seq<Reason>, i: nat)
  {
    i < |input.remaining| && TellsDropped(s, input, ds, activities, reasons, i)
  }

  ghost predicate ByOrdinals(input: SearchInput, left: seq<nat>) {
    forall i, j | 0 <= i < j < |left| ::
      left[i] < |input.remaining| && left[j] < |input.remaining| && input.remaining[left[i]].ordinal < input.remaining[left[j]].ordinal
  }

  /** The activities left out follow the visits, by their place in the trip. */
  ghost predicate TellsSkips(p: PlanProposal, input: SearchInput, ds: seq<Decision>, activities: seq<Activity>,
                             reasons: bool -> seq<Reason>, left: seq<nat>)
  {
    && |p.suffix| == |Visits(ds)| + |left| && ByOrdinals(input, left)
    && forall j | 0 <= j < |left| :: TellsLeft(p.suffix[|Visits(ds)| + j], input, ds, activities, reasons, left[j])
  }

  ghost predicate TellsPlan(p: PlanProposal, input: SearchInput, ds: seq<Decision>, activities: seq<Activity>,
                            source: ProposalSource, reasons: bool -> seq<Reason>)
    requires input.Valid() && Named(input, Visits(ds))
  {
    && TellsSource(p, source)
    && |p.prefix| == |input.prefix|
    && (forall k | 0 <= k < |p.prefix| :: TellsPreserved(p.prefix[k], activities, input.prefix[k]))
    && |Visits(ds)| <= |p.suffix| == |input.remaining| && TellsVisits(p, input, ds, activities, reasons)
    && exists left :: TellsSkips(p, input, ds, activities, reasons, left)
  }

  // ----- proofs -----

  lemma {:induction false} OwnPlace(s: ProposalSegment, activities: seq<Activity>, id: Id)
    requires ActivityIndex(activities, id).Some? && s.id == id
    requires var a := activities[ActivityIndex(activities, id).value]; s.location == a.location && s.timeZone == a.timeZone
    ensures TellsWhere(s, activities, id)
  {
    assert activities[ActivityIndex(activities, id).value] in activities;
  }

  lemma {:induction false} PrefixTells(input: SearchInput, activities: seq<Activity>, built: seq<ProposalSegment>)
    requires T.TripsOwn(input, activities) && PrefixSegments(activities, input.prefix) == Some(built)
    ensures |built| == |input.prefix|
    ensures forall k | 0 <= k < |built| :: TellsPreserved(built[k], activities, input.prefix[k])
  {
    forall k | 0 <= k < |input.prefix| ensures ActivityIndex(activities, input.prefix[k].id).Some? {
      T.PrefixNamed(input, activities, k);
    }
    T.PrefixPointwise(activities, input.prefix);
    forall k | 0 <= k < |built| ensures TellsPreserved(built[k], activities, input.prefix[k]) {
      OwnPlace(built[k], activities, input.prefix[k].id);
    }
  }

  /** The assembler's context belongs to the plan. */
  ghost predicate ContextOf(c: Context, ds: seq<Decision>, canonical: seq<Decision>)
  {
    && c.input.Valid() && T.TripsOwn(c.input, c.activities) && Known(c.input, ds) && Known(c.input, Visits(ds))
    && T.PlanShape(c.input, canonical, Visits(ds)) && SameMembers(ds, canonical)
    && var common := CommonOrder(c.input, Visits(ds));
       Distinct(common) && c.baseline == IdsAt(c.input, PlanOrder(common, |c.input.remaining|))
       && c.candidate == IdsAt(c.input, common)
  }

  lemma {:induction false} ChangedIff(c: Context, ds: seq<Decision>, canonical: seq<Decision>, k: nat)
    requires ContextOf(c, ds, canonical) && k < |canonical|
    ensures var i := c.input.IndexOf(canonical[k].ordinal).value;
      SegmentChanged(c.input.remaining[i].segment, SegmentsOf(c.input, canonical)[k], c.baseline, c.candidate) <==> Differs(c.input, ds, i)
  {
    var d := canonical[k];
    assert d in canonical;
    if k >= |Visits(ds)| {
      SkippedIsNotCommon(c.input, ds, d);
    } else {
      assert d == Visits(ds)[k];
    }
    SegmentAgrees(c, ds, d);
    ChangedIffDiffers(c.input, ds, c.input.IndexOf(d.ordinal).value);
  }

  lemma {:induction false} VisitTells(c: Context, ds: seq<Decision>, canonical: seq<Decision>, k: nat)
    requires ContextOf(c, ds, canonical) && T.AllNamed(c, SegmentsOf(c.input, canonical)) && k < |Visits(ds)|
    ensures SuffixSegments(c, SegmentsOf(c.input, canonical)[..k]).Some?
    ensures TellsVisit(T.SegmentAt(c, SegmentsOf(c.input, canonical), k), c.input, ds, c.activities, c.reasons, k)
  {
    var visits, suffix := Visits(ds), SegmentsOf(c.input, canonical);
    assert canonical[k] == visits[k];
    T.VisitsMatch(c, canonical, visits);
    T.AtBeforeVisit(c, suffix, visits, k);
    T.SuffixNamed(c.input, c.activities, canonical, k);
    ChangedIff(c, ds, canonical, k);
    OwnPlace(T.SegmentAt(c, suffix, k), c.activities, suffix[k].id);
  }

  lemma {:induction false} SkipTells(c: Context, ds: seq<Decision>, canonical: seq<Decision>, k: nat)
    requires ContextOf(c, ds, canonical) && T.AllNamed(c, SegmentsOf(c.input, canonical)) && |Visits(ds)| <= k < |canonical|
    ensures SuffixSegments(c, SegmentsOf(c.input, canonical)[..k]).Some?
    ensures TellsDropped(T.SegmentAt(c, SegmentsOf(c.input, canonical), k), c.input, ds, c.activities, c.reasons,
                         c.input.IndexOf(canonical[k].ordinal).value)
  {
    var suffix, d := SegmentsOf(c.input, canonical), canonical[k];
    T.FrontIsNamed(c, suffix, k);
    T.SuffixExists(c, suffix[..k]);
    T.SuffixNamed(c.input, c.activities, canonical, k);
    assert d in canonical;
    var j :| 0 <= j < |ds| && ds[j] == d;
    OwnPlace(T.SegmentAt(c, suffix, k), c.activities, suffix[k].id);
  }

  ghost function LeftOut(input: SearchInput, canonical: seq<Decision>, from: nat): (r: seq<nat>)
    requires Known(input, canonical) && from <= |canonical|
    ensures |r| == |canonical| - from
  {
    seq(|canonical| - from, j requires 0 <= j < |canonical| - from && Known(input, canonical) =>
      input.IndexOf(canonical[from + j].ordinal).value)
  }

  lemma {:induction false} LeftOutAscends(c: Context, ds: seq<Decision>, canonical: seq<Decision>)
    requires ContextOf(c, ds, canonical) && CanonicallyOrdered(canonical)
    ensures ByOrdinals(c.input, LeftOut(c.input, canonical, |Visits(ds)|))
  {
    var left, n := LeftOut(c.input, canonical, |Visits(ds)|), |Visits(ds)|;
    forall i, j | 0 <= i < j < |left|
      ensures left[i] < |c.input.remaining| && left[j] < |c.input.remaining|
        && c.input.remaining[left[i]].ordinal < c.input.remaining[left[j]].ordinal
    {
      assert canonical[n + i].kind == 1 && canonical[n + i].ordinal < canonical[n + j].ordinal;
    }
  }

  lemma {:induction false} BuiltVisit(c: Context, ds: seq<Decision>, canonical: seq<Decision>, k: nat, s: ProposalSegment)
    requires ContextOf(c, ds, canonical) && k < |Visits(ds)| && SuffixSegments(c, SegmentsOf(c.input, canonical)).Some?
    requires k < |SuffixSegments(c, SegmentsOf(c.input, canonical)).value.segments|
    requires s == SuffixSegments(c, SegmentsOf(c.input, canonical)).value.segments[k]
    ensures TellsVisit(s, c.input, ds, c.activities, c.reasons, k)
  {
    T.PlanIsNamed(c, canonical);
    T.SuffixPointwise(c, SegmentsOf(c.input, canonical), k);
    VisitTells(c, ds, canonical, k);
  }

  lemma {:induction false} BuiltSkip(c: Context, ds: seq<Decision>, canonical: seq<Decision>, k: nat, s: ProposalSegment)
    requires ContextOf(c, ds, canonical) && |Visits(ds)| <= k < |canonical| && SuffixSegments(c, SegmentsOf(c.input, canonical)).Some?
    requires k < |SuffixSegments(c, SegmentsOf(c.input, canonical)).value.segments|
    requires s == SuffixSegments(c, SegmentsOf(c.input, canonical)).value.segments[k]
    ensures TellsDropped(s, c.input, ds, c.activities, c.reasons, c.input.IndexOf(canonical[k].ordinal).value)
  {
    T.PlanIsNamed(c, canonical);
    T.SuffixPointwise(c, SegmentsOf(c.input, canonical), k);
    SkipTells(c, ds, canonical, k);
  }

  lemma {:induction false} BuiltLength(c: Context, canonical: seq<Decision>)
    requires c.input.Valid() && T.TripsOwn(c.input, c.activities) && Known(c.input, canonical)
    ensures SuffixSegments(c, SegmentsOf(c.input, canonical)).Some?
    ensures |SuffixSegments(c, SegmentsOf(c.input, canonical)).value.segments| == |canonical|
  {
    T.PlanIsNamed(c, canonical);
    T.SuffixExists(c, SegmentsOf(c.input, canonical));
  }

  lemma {:induction false} SuffixTellsVisits(c: Context, ds: seq<Decision>, canonical: seq<Decision>, p: PlanProposal)
    requires ContextOf(c, ds, canonical) && SuffixSegments(c, SegmentsOf(c.input, canonical)).Some?
    requires p.suffix == SuffixSegments(c, SegmentsOf(c.input, canonical)).value.segments
    ensures |Visits(ds)| <= |p.suffix| == |canonical| && TellsVisits(p, c.input, ds, c.activities, c.reasons)
  {
    BuiltLength(c, canonical);
    forall k | 0 <= k < |Visits(ds)| ensures TellsVisit(p.suffix[k], c.input, ds, c.activities, c.reasons, k) {
      BuiltVisit(c, ds, canonical, k, p.suffix[k]);
    }
  }

  lemma {:induction false} SuffixTellsSkips(c: Context, ds: seq<Decision>, canonical: seq<Decision>, p: PlanProposal)
    requires ContextOf(c, ds, canonical) && CanonicallyOrdered(canonical) && SuffixSegments(c, SegmentsOf(c.input, canonical)).Some?
    requires p.suffix == SuffixSegments(c, SegmentsOf(c.input, canonical)).value.segments
    ensures TellsSkips(p, c.input, ds, c.activities, c.reasons, LeftOut(c.input, canonical, |Visits(ds)|))
  {
    BuiltLength(c, canonical);
    LeftOutAscends(c, ds, canonical);
    SkipsTold(c, ds, canonical, p, LeftOut(c.input, canonical, |Visits(ds)|), |Visits(ds)|);
  }

  /** What was built and what is left out, folded. */
  ghost predicate Built(c: Context, ds: seq<Decision>, canonical: seq<Decision>, built: seq<ProposalSegment>, left: seq<nat>, n: nat) {
    forall now {:trigger Ask(now)} :: Ask(now) ==>
      ContextOf(c, ds, canonical) && n == |Visits(ds)| && left == LeftOut(c.input, canonical, n) && |built| == |canonical|
      && SuffixSegments(c, SegmentsOf(c.input, canonical)).Some?
      && built == SuffixSegments(c, SegmentsOf(c.input, canonical)).value.segments
  }

  lemma {:induction false} SkipsTold(c: Context, ds: seq<Decision>, canonical: seq<Decision>, p: PlanProposal, left: seq<nat>, n: nat)
    requires Built(c, ds, canonical, p.suffix, left, n) && |p.suffix| == n + |left|
    ensures forall j | 0 <= j < |left| :: TellsLeft(p.suffix[n + j], c.input, ds, c.activities, c.reasons, left[j])
  {
    forall j | 0 <= j < |left| ensures TellsLeft(p.suffix[n + j], c.input, ds, c.activities, c.reasons, left[j]) {
      SkipTold(c, ds, canonical, p.suffix, left, n, j);
    }
  }

  lemma {:induction false} SkipTold(c: Context, ds: seq<Decision>, canonical: seq<Decision>, built: seq<ProposalSegment>, left: seq<nat>,
                                    n: nat, j: nat)
    requires Built(c, ds, canonical, built, left, n) && |built| == n + |left| && j < |left|
    ensures TellsLeft(built[n + j], c.input, ds, c.activities, c.reasons, left[j])
  {
    assert Ask(true);
    var k := n + j;
    LeftAt(c.input, canonical, n, j, k);
    BuiltLeft(c, ds, canonical, k, built[k], left[j]);
  }

  lemma {:induction false} LeftAt(input: SearchInput, canonical: seq<Decision>, n: nat, j: nat, k: nat)
    requires Known(input, canonical) && n <= |canonical| && j < |canonical| - n && k == n + j
    ensures LeftOut(input, canonical, n)[j] == input.IndexOf(canonical[k].ordinal).value
  {
  }

  lemma {:induction false} BuiltLeft(c: Context, ds: seq<Decision>, canonical: seq<Decision>, k: nat, s: ProposalSegment, i: nat)
    requires ContextOf(c, ds, canonical) && |Visits(ds)| <= k < |canonical| && SuffixSegments(c, SegmentsOf(c.input, canonical)).Some?
    requires k < |SuffixSegments(c, SegmentsOf(c.input, canonical)).value.segments|
    requires s == SuffixSegments(c, SegmentsOf(c.input, canonical)).value.segments[k]
    requires i == c.input.IndexOf(canonical[k].ordinal).value
    ensures TellsLeft(s, c.input, ds, c.activities, c.reasons, i)
  {
    BuiltSkip(c, ds, canonical, k, s);
  }

  lemma {:induction false} ContextBelongs(input: SearchInput, ds: seq<Decision>, activities: seq<Activity>, reasons: bool -> seq<Reason>)
    requires CompletePlan(input, ds) && T.TripsOwn(input, activities)
    ensures Known(input, CanonicalForm(ds))
    ensures ContextOf(ContextFor(input, activities, SegmentsOf(input, CanonicalForm(ds)), reasons), ds, CanonicalForm(ds))
    ensures CanonicallyOrdered(CanonicalForm(ds))
  {
    T.PlanHasShape(input, ds);
    CanonicalHalves(ds);
    CanonicalIsOrdered(input, ds);
    KnownVisits(input, ds);
    ContextIsCommon(input, CanonicalForm(ds), Visits(ds), activities, reasons);
  }

  lemma {:induction false} AssembledFrom(input: SearchInput, ds: seq<Decision>, suffix: seq<Segment>, activities: seq<Activity>,
                                         source: ProposalSource, reasons: bool -> seq<Reason>, c: Context)
    requires ReconstructItinerary(input, ds) == Some(Itinerary(input.prefix, suffix)) && input.Valid()
    requires c == ContextFor(input, activities, suffix, reasons) && AssembleProposal(input, ds, activities, source, reasons).Some?
    ensures var p := AssembleProposal(input, ds, activities, source, reasons).value.proposal;
      && TellsSource(p, source) && PrefixSegments(activities, input.prefix) == Some(p.prefix)
      && SuffixSegments(c, suffix).Some? && p.suffix == SuffixSegments(c, suffix).value.segments
  {
  }

  // ----- whether anything changes -----

  lemma {:induction false} SomeDiffers(input: SearchInput, ds: seq<Decision>, n: nat)
    requires Named(input, Visits(ds)) && n <= |input.remaining|
    ensures Sum(Differences(input, ds, n)) >= 0
    ensures Sum(Differences(input, ds, n)) > 0 <==> exists i | 0 <= i < n :: Differs(input, ds, i)
  {
    if n > 0 {
      SomeDiffers(input, ds, n - 1);
      var amount := if Differs(input, ds, n - 1) then 1 else 0;
      assert Differences(input, ds, n) == Differences(input, ds, n - 1) + [amount];
      SumAppend(Differences(input, ds, n - 1), amount);
    }
  }

  /** What the proposal of a complete plan says, and when it is said to change
      the current plan. */
  lemma {:induction false} ProposalTellsPlan(input: SearchInput, ds: seq<Decision>, activities: seq<Activity>, source: ProposalSource,
                                             reasons: bool -> seq<Reason>)
    requires CompletePlan(input, ds) && T.TripsOwn(input, activities)
    requires AssembleProposal(input, ds, activities, source, reasons).Some?
    ensures Named(input, Visits(ds))
    ensures TellsPlan(AssembleProposal(input, ds, activities, source, reasons).value.proposal, input, ds, activities, source, reasons)
    ensures AssembleProposal(input, ds, activities, source, reasons).value.changesCurrentPlan
      <==> exists i | 0 <= i < |input.remaining| :: Differs(input, ds, i)
  {
    var p, canonical := AssembleProposal(input, ds, activities, source, reasons).value.proposal, CanonicalForm(ds);
    ReconstructionSucceeds(input, ds);
    CanonicalHalves(ds);
    ContextBelongs(input, ds, activities, reasons);
    var suffix := SegmentsOf(input, canonical);
    var c := ContextFor(input, activities, suffix, reasons);
    AssembledFrom(input, ds, suffix, activities, source, reasons, c);
    PrefixTells(input, activities, p.prefix);
    SuffixTellsVisits(c, ds, canonical, p);
    SuffixTellsSkips(c, ds, canonical, p);
    ChangesIffCounted(input, ds, activities, source, reasons);
    ScoreCountsDifferences(input, ds);
    SomeDiffers(input, ds, |input.remaining|);
  }
}

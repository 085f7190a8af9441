/** From the winning decisions to an itinerary: the preserved prefix unchanged,
    the visits in route order, then the omitted activities by ordinal. */
module Itineraries {
  import opened Domain
  import opened Sorting
  import opened PlannerInput
  import opened CandidateScores
  import opened Scoring
  import opened SearchSpace
  import opened Canonical

  datatype Itinerary = Itinerary(prefix: seq<Segment>, suffix: seq<Segment>)

  function SegmentOf(input: SearchInput, d: Decision): Segment
    requires input.IndexOf(d.ordinal).Some?
  {
    var id := input.remaining[input.IndexOf(d.ordinal).value].activity.id;
    if d.kind == 0 then Segment(id, EntryState.Scheduled, Some(d.start), Some(d.end)) else Segment(id, Omitted, None, None)
  }

  function SegmentsOf(input: SearchInput, ds: seq<Decision>): seq<Segment>
    requires Known(input, ds)
  {
    seq(|ds|, k requires 0 <= k < |ds| => SegmentOf(input, ds[k]))
  }

  /** Reads a suffix segment back as a decision. */
  function DecisionFrom(input: SearchInput, s: Segment): Decision
    requires s.Valid() && input.IndexOfId(s.id).Some?
  {
    var ordinal := input.remaining[input.IndexOfId(s.id).value].ordinal;
    if s.state.Scheduled? then Decision(ordinal, 0, s.start.value, s.end.value) else Decision(ordinal, 1, 0, 0)
  }

  /** Reads a whole suffix back; nothing if a segment is malformed or unknown,
      or an omitted entry is out of place. */
  function ReadBack(input: SearchInput, suffix: seq<Segment>): Option<seq<Decision>> {
    if suffix == [] then Some([])
    else
      var front, last := ReadBack(input, suffix[..|suffix| - 1]), suffix[|suffix| - 1];
      if front.None? || !last.Valid() || input.IndexOfId(last.id).None? then None
      else
        var d := DecisionFrom(input, last);
        var ds := front.value;
        if ds != [] && ds[|ds| - 1].kind == 1 && (d.kind == 0 || d.ordinal <= ds[|ds| - 1].ordinal) then None
        else Some(ds + [d])
  }

  /** `CandidateItinerary::is_valid_for`. */
  predicate ValidItinerary(input: SearchInput, it: Itinerary) {
    && input.Valid()
    && it.prefix == input.prefix
    && |it.suffix| == |input.remaining|
    && ReadBack(input, it.suffix).Some?
    && ScoreCandidate(input, ReadBack(input, it.suffix).value).Some?
  }

  function ReconstructItinerary(input: SearchInput, ds: seq<Decision>): Option<Itinerary> {
    if !input.Valid() || |ds| != |input.remaining| || ScoreCandidate(input, ds).None? then None
    else
      KnownCanonical(input, ds);
      var it := Itinerary(input.prefix, SegmentsOf(input, CanonicalForm(ds)));
      if ValidItinerary(input, it) then Some(it) else None
  }

  lemma {:induction false} KnownCanonical(input: SearchInput, ds: seq<Decision>)
    requires Known(input, ds)
    ensures Known(input, CanonicalForm(ds))
  {
    CanonicalHalves(ds);
    KnownCarriesOver(input, ds, CanonicalForm(ds));
  }

  // ----- reading back what was written -----

  lemma {:induction false} AcceptedVisitsAreIntervals(input: SearchInput, ds: seq<Decision>)
    requires Accepted(input, ds)
    ensures forall k | 0 <= k < |ds| :: ds[k].kind == 0 ==> ds[k].start < ds[k].end
    ensures forall k | 0 <= k < |ds| :: ds[k].kind == 1 ==> ds[k].start == 0 && ds[k].end == 0
  {
    if ds != [] {
      var front, last := ds[..|ds| - 1], ds[|ds| - 1];
      assert ds == front + [last];
      AcceptedAppend(input, front, last);
      AcceptedVisitsAreIntervals(input, front);
      forall k | 0 <= k < |front| ensures ds[k] == front[k] {}
    }
  }

  /** The visits come first and the skips ascend. */
  ghost predicate CanonicallyOrdered(ds: seq<Decision>) {
    && (forall i, j | 0 <= i < j < |ds| :: ds[i].kind == 1 ==> ds[j].kind == 1 && ds[i].ordinal < ds[j].ordinal)
    && (forall k | 0 <= k < |ds| :: ds[k].kind == 0 ==> ds[k].start < ds[k].end)
    && (forall k | 0 <= k < |ds| :: ds[k].kind == 1 ==> ds[k].start == 0 && ds[k].end == 0)
  }

  lemma {:induction false} SegmentRoundTrip(input: SearchInput, d: Decision)
    requires input.Valid() && input.IndexOf(d.ordinal).Some? && d.kind <= 1
    requires d.kind == 0 ==> d.start < d.end
    requires d.kind == 1 ==> d.start == 0 && d.end == 0
    ensures SegmentOf(input, d).Valid() && input.IndexOfId(SegmentOf(input, d).id) == input.IndexOf(d.ordinal)
    ensures DecisionFrom(input, SegmentOf(input, d)) == d
  {
    IndexOfIsInverse(input, input.IndexOf(d.ordinal).value);
  }

  /** One more segment reads as one more decision. */
  lemma {:induction false} ReadBackOneMore(input: SearchInput, segments: seq<Segment>, front: seq<Decision>, last: Decision)
    requires segments != [] && ReadBack(input, segments[..|segments| - 1]) == Some(front)
    requires var s := segments[|segments| - 1]; s.Valid() && input.IndexOfId(s.id).Some? && DecisionFrom(input, s) == last
    requires front != [] && front[|front| - 1].kind == 1 ==> last.kind == 1 && front[|front| - 1].ordinal < last.ordinal
    requires last.kind <= 1
    ensures ReadBack(input, segments) == Some(front + [last])
  {
  }

  /** Writing decisions as segments and reading them back gives the decisions. */
  lemma {:induction false} ReadBackInverts(input: SearchInput, ds: seq<Decision>)
    requires input.Valid() && Known(input, ds) && CanonicallyOrdered(ds)
    ensures ReadBack(input, SegmentsOf(input, ds)) == Some(ds)
  {
    if ds != [] {
      var front, last := ds[..|ds| - 1], ds[|ds| - 1];
      SegmentsSplit(input, ds, front, last);
      OrderedSplit(ds, front, last);
      ReadBackInverts(input, front);
      SegmentRoundTrip(input, last);
      ReadBackOneMore(input, SegmentsOf(input, ds), front, last);
    }
  }

  lemma {:induction false} OrderedSplit(ds: seq<Decision>, front: seq<Decision>, last: Decision)
    requires CanonicallyOrdered(ds) && ds != [] && front == ds[..|ds| - 1] && last == ds[|ds| - 1]
    ensures ds == front + [last] && CanonicallyOrdered(front)
    ensures front != [] && front[|front| - 1].kind == 1 ==> last.kind == 1 && front[|front| - 1].ordinal < last.ordinal
    ensures (last.kind == 0 ==> last.start < last.end) && (last.kind == 1 ==> last.start == 0 && last.end == 0)
  {
  }

  lemma {:induction false} SegmentsSplit(input: SearchInput, ds: seq<Decision>, front: seq<Decision>, last: Decision)
    requires Known(input, ds) && ds != [] && front == ds[..|ds| - 1] && last == ds[|ds| - 1]
    ensures Known(input, front) && input.IndexOf(last.ordinal).Some? && last.kind <= 1
    ensures var segments := SegmentsOf(input, ds);
      && segments != [] && segments[..|segments| - 1] == SegmentsOf(input, front)
      && segments[|segments| - 1] == SegmentOf(input, last)
  {
    assert ds == front + [last];
    KnownAppend(input, front, last);
  }

  lemma {:induction false} OrderedHalves(visits: seq<Decision>, skips: seq<Decision>)
    requires forall k | 0 <= k < |visits| :: visits[k].kind == 0 && visits[k].start < visits[k].end
    requires forall k | 0 <= k < |skips| :: skips[k].kind == 1 && skips[k].start == 0 && skips[k].end == 0
    requires OrdinalsAscend(skips)
    ensures CanonicallyOrdered(visits + skips)
  {
  }

  lemma {:induction false} HalfMember(input: SearchInput, ds: seq<Decision>, d: Decision)
    requires Accepted(input, ds)
    ensures d in Visits(ds) ==> d.kind == 0 && d.start < d.end
    ensures d in Skips(ds) ==> d.kind == 1 && d.start == 0 && d.end == 0
  {
    VisitsMembers(ds);
    AcceptedVisitsAreIntervals(input, ds);
    if d in ds {
      var k :| 0 <= k < |ds| && ds[k] == d;
    }
  }

  lemma {:induction false} CanonicalIsOrdered(input: SearchInput, ds: seq<Decision>)
    requires Accepted(input, ds)
    ensures CanonicallyOrdered(CanonicalForm(ds))
  {
    var visits, skips := Visits(ds), Sort(ByOrdinal, Skips(ds));
    SameElements(skips, Skips(ds));
    forall k | 0 <= k < |visits| ensures visits[k].kind == 0 && visits[k].start < visits[k].end {
      assert visits[k] in Visits(ds);
      HalfMember(input, ds, visits[k]);
    }
    forall k | 0 <= k < |skips| ensures skips[k].kind == 1 && skips[k].start == 0 && skips[k].end == 0 {
      assert skips[k] in skips;
      HalfMember(input, ds, skips[k]);
    }
    CanonicalSkipsAscend(input, ds);
    OrderedHalves(visits, skips);
  }

  /** Reconstruction succeeds on every complete accepted sequence: its own
      validity check never fails. */
  lemma {:induction false} ReconstructionSucceeds(input: SearchInput, ds: seq<Decision>)
    requires CompletePlan(input, ds)
    ensures Known(input, CanonicalForm(ds))
    ensures ReconstructItinerary(input, ds) == Some(Itinerary(input.prefix, SegmentsOf(input, CanonicalForm(ds))))
    ensures ReadBack(input, SegmentsOf(input, CanonicalForm(ds))) == Some(CanonicalForm(ds))
  {
    KnownCanonical(input, ds);
    CanonicalHalves(ds);
    CanonicalIsOrdered(input, ds);
    ReadBackInverts(input, CanonicalForm(ds));
    CanonicalFormScoresTheSame(input, ds);
  }

  // ----- the loops -----

  /** The validation loop over the suffix. */
  method ReadSuffix(input: SearchInput, suffix: seq<Segment>) returns (r: Option<seq<Decision>>)
    ensures r == ReadBack(input, suffix)
  {
    var decisions: seq<Decision> := [];
    var priorSkipped: Option<nat> := None;
    for i := 0 to |suffix|
      invariant ReadBack(input, suffix[..i]) == Some(decisions)
      invariant forall k | 0 <= k < |decisions| :: decisions[k].kind <= 1
      invariant priorSkipped == if decisions != [] && decisions[|decisions| - 1].kind == 1
                                then Some(decisions[|decisions| - 1].ordinal) else None
    {
      var segment := suffix[i];
      assert suffix[..i + 1][..i] == suffix[..i];
      if !segment.Valid() || input.IndexOfId(segment.id).None? {
        NoReadBack(input, suffix, i + 1);
        return None;
      }
      var ordinal := input.remaining[input.IndexOfId(segment.id).value].ordinal;
      if priorSkipped.Some? && (segment.state.Scheduled? || ordinal <= priorSkipped.value) {
        NoReadBack(input, suffix, i + 1);
        return None;
      }
      if segment.state.Scheduled? {
        decisions := decisions + [Decision(ordinal, 0, segment.start.value, segment.end.value)];
      } else {
        priorSkipped := Some(ordinal);
        decisions := decisions + [Decision(ordinal, 1, 0, 0)];
      }
    }
    assert suffix[..|suffix|] == suffix;
    r := Some(decisions);
  }

  method CheckItinerary(input: SearchInput, it: Itinerary) returns (ok: bool)
    ensures ok <==> ValidItinerary(input, it)
  {
    if !input.Valid() || |it.prefix| != |input.prefix| || |it.suffix| != |input.remaining| {
      return false;
    }
    for i := 0 to |it.prefix|
      invariant it.prefix[..i] == input.prefix[..i]
    {
      if it.prefix[i] != input.prefix[i] {
        return false;
      }
    }
    assert it.prefix[..|it.prefix|] == it.prefix && input.prefix[..|it.prefix|] == input.prefix;
    var decisions := ReadSuffix(input, it.suffix);
    ok := decisions.Some? && ScoreCandidate(input, decisions.value).Some?;
  }

  lemma {:induction false} NoReadBack(input: SearchInput, suffix: seq<Segment>, k: nat)
    requires k <= |suffix| && ReadBack(input, suffix[..k]).None?
    ensures ReadBack(input, suffix).None?
    decreases |suffix|
  {
    if k < |suffix| {
      NoReadBack(input, suffix[..|suffix| - 1], k) by { assert suffix[..|suffix| - 1][..k] == suffix[..k]; }
    } else {
      assert suffix[..k] == suffix;
    }
  }

  lemma {:induction false} OneMoreDecision(input: SearchInput, ds: seq<Decision>, k: nat)
    requires Known(input, ds) && k < |ds| && Known(input, Visits(ds[..k]))
    ensures input.IndexOf(ds[k].ordinal).Some? && Known(input, Visits(ds[..k + 1]))
    ensures Skips(ds[..k + 1]) == if ds[k].kind == 0 then Skips(ds[..k]) else Skips(ds[..k]) + [ds[k]]
    ensures SegmentsOf(input, Visits(ds[..k + 1]))
         == if ds[k].kind == 0 then SegmentsOf(input, Visits(ds[..k])) + [SegmentOf(input, ds[k])] else SegmentsOf(input, Visits(ds[..k]))
  {
    assert ds[..k + 1] == ds[..k] + [ds[k]];
    VisitsAppend(ds[..k], ds[k]);
    KnownTake(input, ds, k + 1);
    KnownVisits(input, ds[..k + 1]);
    if ds[k].kind == 0 {
      SegmentsJoin(input, Visits(ds[..k]), ds[k], Visits(ds[..k + 1]));
    }
  }

  lemma {:induction false} SegmentsJoin(input: SearchInput, front: seq<Decision>, d: Decision, all: seq<Decision>)
    requires Known(input, front) && Known(input, all) && all == front + [d]
    ensures input.IndexOf(d.ordinal).Some? && SegmentsOf(input, all) == SegmentsOf(input, front) + [SegmentOf(input, d)]
  {
    assert all[|front|] == d;
  }

  /** Splits the decisions into scheduled segments and skips. */
  method SplitDecisions(input: SearchInput, ds: seq<Decision>) returns (scheduled: seq<Segment>, skipped: seq<Decision>)
    requires Known(input, ds)
    ensures Known(input, Visits(ds)) && scheduled == SegmentsOf(input, Visits(ds)) && skipped == Skips(ds)
  {
    scheduled, skipped := [], [];
    for k := 0 to |ds|
      invariant skipped == Skips(ds[..k])
      invariant Known(input, Visits(ds[..k])) && scheduled == SegmentsOf(input, Visits(ds[..k]))
    {
      var d := ds[k];
      OneMoreDecision(input, ds, k);
      if d.kind == 0 {
        scheduled := scheduled + [SegmentOf(input, d)];
      } else {
        skipped := skipped + [d];
      }
    }
    assert ds[..|ds|] == ds;
  }

  method BuildItinerary(input: SearchInput, ds: seq<Decision>) returns (r: Option<Itinerary>)
    ensures r == ReconstructItinerary(input, ds)
  {
    if !input.Valid() || |ds| != |input.remaining| || ScoreCandidate(input, ds).None? {
      return None;
    }
    var scheduled, skipped := SplitDecisions(input, ds);
    KnownCanonical(input, ds);
    skipped := Sort(ByOrdinal, skipped);
    var suffix := AppendOmitted(input, scheduled, Visits(ds), skipped);
    var itinerary := Itinerary(input.prefix, suffix);
    var ok := CheckItinerary(input, itinerary);
    r := if ok then Some(itinerary) else None;
  }

  method AppendOmitted(input: SearchInput, scheduled: seq<Segment>, ghost visits: seq<Decision>, skipped: seq<Decision>)
    returns (suffix: seq<Segment>)
    requires Known(input, visits) && Known(input, visits + skipped) && scheduled == SegmentsOf(input, visits)
    ensures suffix == SegmentsOf(input, visits + skipped)
  {
    suffix := scheduled;
    for k := 0 to |skipped|
      invariant suffix == SegmentsOf(input, visits + skipped)[..|visits| + k]
    {
      assert (visits + skipped)[|visits| + k] == skipped[k];
      suffix := suffix + [SegmentOf(input, skipped[k])];
    }
  }
}

/** The loops that look at one path: where it stands, when it would reach an
    activity, and whether the lower bound lets it live. */
module Expansion {
  import opened Domain
  import opened Folding
  import opened PlannerInput
  import opened Alternatives
  import opened CandidateScores
  import opened Scoring
  import opened SearchSpace
  import opened PlannerColumns
  import opened ScoreLoop
  import opened TripSearch

  /** Scans the decisions backwards for the last scheduled one. */
  lemma {:induction false} StandingBefore(input: SearchInput, ds: seq<Decision>, k: nat)
    requires Known(input, ds) && 0 < k <= |ds|
    ensures Known(input, ds[..k - 1]) && Known(input, ds[..k]) && input.IndexOf(ds[k - 1].ordinal).Some?
    ensures Standing(input, ds[..k])
         == if ds[k - 1].kind == 0 then (input.IndexOf(ds[k - 1].ordinal).value + 1, ds[k - 1].end)
            else Standing(input, ds[..k - 1])
  {
    KnownTake(input, ds, k - 1);
    KnownTake(input, ds, k);
    assert ds[..k] == ds[..k - 1] + [ds[k - 1]];
    StandingAppend(input, ds[..k - 1], ds[k - 1]);
  }

  method LastScheduled(input: SearchInput, columns: Option<Columns>, ds: seq<Decision>) returns (r: (nat, int64))
    requires Usable(input, columns) && Known(input, ds)
    ensures r == Standing(input, ds)
  {
    assert ds[..|ds|] == ds;
    var k := |ds|;
    while k > 0
      invariant 0 <= k <= |ds| && Known(input, ds[..k])
      invariant Standing(input, ds[..k]) == Standing(input, ds)
    {
      var d := ds[k - 1];
      StandingBefore(input, ds, k);
      if d.kind == 0 {
        var index := LookUp(input, columns, d.ordinal);
        return (index.value + 1, d.end);
      }
      k := k - 1;
    }
    r := (0, input.SuffixStart());
  }

  method ArrivalOf(input: SearchInput, columns: Option<Columns>, ds: seq<Decision>, index: nat) returns (r: int64)
    requires Usable(input, columns) && Known(input, ds) && index < |input.remaining|
    ensures r == ArrivalFrom(input, ds, index)
  {
    var last := LastScheduled(input, columns, ds);
    var facts := ReadFacts(input, columns, index);
    var travel := input.TravelMs(last.0, facts.matrixIndex);
    var arrival := if travel.Some? then CheckedAdd(last.1, travel.value) else None;
    r := arrival.GetOr(input.horizonEnd);
  }

  /** Marks the activities a path decides.  Whatever the buffer held before is overwritten. */
  method MarkDecided(input: SearchInput, columns: Option<Columns>, ds: seq<Decision>, buffer: seq<bool>)
    returns (decided: seq<bool>)
    requires Usable(input, columns) && Known(input, ds)
    ensures |decided| == |input.remaining|
    ensures forall i | 0 <= i < |decided| :: decided[i] <==> Decided(ds, input.remaining[i].ordinal)
  {
    var n := |input.remaining|;
    decided := if |buffer| < n then buffer + seq(n - |buffer|, _ => false) else buffer[..n];
    decided := seq(|decided|, _ => false);
    for k := 0 to |ds|
      invariant |decided| == n
      invariant forall i | 0 <= i < n :: decided[i] <==> Decided(ds[..k], input.remaining[i].ordinal)
    {
      var index := LookUp(input, columns, ds[k].ordinal);
      MarkOne(input, ds, k, index.value);
      decided := decided[index.value := true];
    }
    assert ds[..|ds|] == ds;
  }

  lemma {:induction false} MarkOne(input: SearchInput, ds: seq<Decision>, k: nat, index: nat)
    requires input.Valid() && k < |ds| && input.IndexOf(ds[k].ordinal) == Some(index)
    ensures forall i | 0 <= i < |input.remaining| ::
      Decided(ds[..k + 1], input.remaining[i].ordinal) <==> Decided(ds[..k], input.remaining[i].ordinal) || i == index
  {
    assert ds[..k + 1] == ds[..k] + [ds[k]];
    forall i | 0 <= i < |input.remaining|
      ensures Decided(ds[..k + 1], input.remaining[i].ordinal) <==> Decided(ds[..k], input.remaining[i].ordinal) || i == index
    {
      DecidedAppend(ds[..k], ds[k], input.remaining[i].ordinal);
      IndexOfIsInverse(input, i);
    }
  }

  method CheckReach(input: SearchInput, ghost ds: seq<Decision>, i: nat, decided: bool, time: int64, validateInput: bool)
    returns (ok: bool)
    requires input.Valid() && Known(input, ds) && i < |input.remaining|
    requires time == Standing(input, ds).1 && decided == Decided(ds, input.remaining[i].ordinal)
    ensures ok <==> WithinReach(input, ds, i)
  {
    var a := input.remaining[i];
    if decided || (!a.activity.timing.mandatory && a.activity.timing.canSkip) {
      return true;
    }
    var alternatives := GenerateAlternatives(input, a, time, validateInput);
    ok := OffersAny(alternatives);
  }

  // ----- the bound -----

  /** Which activities are within the path's reach. */
  ghost function ReachMarks(input: SearchInput, ds: seq<Decision>): seq<bool>
    requires input.Valid() && Known(input, ds)
  {
    seq(|input.remaining|, i requires 0 <= i < |input.remaining| => WithinReach(input, ds, i))
  }

  lemma {:induction false} MarksPass(input: SearchInput, ds: seq<Decision>, reach: seq<bool>)
    requires input.Valid() && Known(input, ds) && reach == ReachMarks(input, ds)
    ensures |reach| == |input.remaining| && (PassesLowerBound(input, ds) <==> forall i | 0 <= i < |reach| :: reach[i])
  {
    forall i | 0 <= i < |reach| ensures reach[i] == WithinReach(input, ds, i) {
    }
  }

  /** The marks and the time are the path's; folded, as the scan only hands them on. */
  ghost predicate Prepared(input: SearchInput, ds: seq<Decision>, decided: seq<bool>, time: int64, reach: seq<bool>) {
    forall now {:trigger Ask(now)} :: Ask(now) ==>
      && input.Valid() && Known(input, ds) && |decided| == |input.remaining| && time == Standing(input, ds).1
      && reach == ReachMarks(input, ds)
      && forall i | 0 <= i < |decided| :: decided[i] <==> Decided(ds, input.remaining[i].ordinal)
  }

  method CheckOne(input: SearchInput, ghost ds: seq<Decision>, i: nat, decided: seq<bool>, time: int64, validateInput: bool,
                  ghost reach: seq<bool>)
    returns (ok: bool)
    requires Prepared(input, ds, decided, time, reach) && i < |decided| == |input.remaining| == |reach|
    ensures ok == reach[i]
  {
    assert Ask(true);
    ok := CheckReach(input, ds, i, decided[i], time, validateInput);
  }

  method ScanActivities(input: SearchInput, ghost ds: seq<Decision>, decided: seq<bool>, time: int64, validateInput: bool,
                        ghost reach: seq<bool>)
    returns (ok: bool)
    requires Prepared(input, ds, decided, time, reach) && |decided| == |input.remaining| == |reach|
    ensures ok <==> forall i | 0 <= i < |reach| :: reach[i]
  {
    for i := 0 to |input.remaining|
      invariant forall j | 0 <= j < i :: reach[j]
    {
      var reached := CheckOne(input, ds, i, decided, time, validateInput, reach);
      if !reached {
        return false;
      }
    }
    ok := true;
  }

  /** `passes_protected_activity_lower_bound`, with a fresh or a reused buffer. */
  method PassesBound(input: SearchInput, ds: seq<Decision>, buffer: seq<bool>, validateInput: bool)
    returns (ok: bool, decided: seq<bool>)
    requires input.Valid() && Known(input, ds)
    ensures ok <==> PassesLowerBound(input, ds)
  {
    decided := MarkDecided(input, None, ds, buffer);
    var last := LastScheduled(input, None, ds);
    ghost var reach := ReachMarks(input, ds);
    MarksPass(input, ds, reach);
    ok := ScanActivities(input, ds, decided, last.1, validateInput, reach);
  }
}

/** The bookkeeping of the scoring loop: what each buffer holds after a prefix
    of the decisions, and how one more decision updates it. */
module ScoreState {
  import opened Domain
  import opened Sorting
  import opened PlannerInput
  import opened CandidateScores
  import opened Scoring

  /** The buffers of the loop. */
  datatype State = State(
    decided: seq<bool>,
    changed: seq<bool>,
    common: seq<bool>,
    commonOrder: seq<nat>,
    skipCounts: seq<int>,
    utility: int64,
    chain: Chain,
    visits: seq<Decision>,
    skipped: seq<int>)

  /** Changed for a reason other than its place in the common order. */
  predicate DirectlyChanged(input: SearchInput, ds: seq<Decision>, index: nat)
    requires input.Valid() && index < |input.remaining|
  {
    var a := input.remaining[index];
    if a.BaselineScheduled() then
      || SkippedIn(ds, a.ordinal)
      || (ScheduledIn(ds, a.ordinal) && !ScheduledAt(ds, a.ordinal, a.segment.start.value, a.segment.end.value))
    else ScheduledIn(ds, a.ordinal)
  }

  ghost predicate Flags(input: SearchInput, ds: seq<Decision>, st: State)
    requires input.Valid()
  {
    var n := |input.remaining|;
    && |st.decided| == n && |st.changed| == n && |st.common| == n
    && (forall i | 0 <= i < n :: st.decided[i] <==> Decided(ds, input.remaining[i].ordinal))
    && (forall i | 0 <= i < n :: st.changed[i] <==> DirectlyChanged(input, ds, i))
    && (forall i | 0 <= i < n :: st.common[i] <==> i in st.commonOrder)
  }

  /** The buffers describe the decisions taken so far. */
  ghost predicate Represents(input: SearchInput, ds: seq<Decision>, st: State) {
    && Accepted(input, ds)
    && ChainOf(input, ds) == Some(st.chain)
    && Flags(input, ds, st)
    && VisitsAre(input, ds, st)
    && st.skipCounts == SkipCounts(input, ds, Ranks(input))
    && st.utility == KeptUtility(input, ds, |input.remaining|)
  }

  ghost predicate VisitsAre(input: SearchInput, ds: seq<Decision>, st: State) {
    && st.visits == Visits(ds)
    && st.skipped == OrdinalsOf(Skips(ds))
    && (forall k | 0 <= k < |st.visits| :: input.IndexOf(st.visits[k].ordinal).Some?)
    && st.commonOrder == CommonOrder(input, st.visits)
  }

  function Bump(counts: seq<int>, position: nat): seq<int>
    requires position < |counts|
  {
    counts[position := counts[position] + 1]
  }

  function SkipUpdate(input: SearchInput, st: State, index: nat, position: nat, ordinal: nat, utility: int64): State
    requires input.Valid() && index < |input.remaining| && position < |st.skipCounts|
    requires |st.decided| == |st.changed| == |input.remaining|
  {
    st.(decided := st.decided[index := true],
        changed := if input.remaining[index].BaselineScheduled() then st.changed[index := true] else st.changed,
        skipCounts := Bump(st.skipCounts, position),
        utility := utility,
        skipped := st.skipped + [ordinal])
  }

  function VisitUpdate(input: SearchInput, st: State, index: nat, d: Decision, chain: Chain): State
    requires input.Valid() && index < |input.remaining|
    requires |st.decided| == |st.changed| == |st.common| == |input.remaining|
  {
    var a := input.remaining[index];
    var baseline := a.BaselineScheduled();
    var differs := !baseline || a.segment.start.value != d.start || a.segment.end.value != d.end;
    st.(decided := st.decided[index := true],
        changed := if differs then st.changed[index := true] else st.changed,
        common := if baseline then st.common[index := true] else st.common,
        commonOrder := if baseline then st.commonOrder + [index] else st.commonOrder,
        chain := chain,
        visits := st.visits + [d])
  }

  // ----- how each quantity grows -----

  lemma {:induction false} MembershipAppend(ds: seq<Decision>, d: Decision, ordinal: nat, start: int64, end: int64)
    ensures SkippedIn(ds + [d], ordinal) <==> SkippedIn(ds, ordinal) || (d.kind != 0 && d.ordinal == ordinal)
    ensures ScheduledIn(ds + [d], ordinal) <==> ScheduledIn(ds, ordinal) || (d.kind == 0 && d.ordinal == ordinal)
    ensures ScheduledAt(ds + [d], ordinal, start, end) <==>
            ScheduledAt(ds, ordinal, start, end) || (d.kind == 0 && d.ordinal == ordinal && d.start == start && d.end == end)
    ensures Decided(ds + [d], ordinal) <==> Decided(ds, ordinal) || d.ordinal == ordinal
  {
    assert forall x :: x in ds + [d] <==> x in ds || x == d;
  }

  lemma {:induction false} UndecidedIsNothing(ds: seq<Decision>, ordinal: nat, start: int64, end: int64)
    requires !Decided(ds, ordinal)
    ensures !SkippedIn(ds, ordinal) && !ScheduledIn(ds, ordinal) && !ScheduledAt(ds, ordinal, start, end)
  {
  }

  lemma {:induction false} UtilityAppend(input: SearchInput, ds: seq<Decision>, d: Decision, index: nat, limit: nat)
    requires input.Valid() && limit <= |input.remaining| && input.IndexOf(d.ordinal) == Some(index) && !Decided(ds, d.ordinal)
    ensures KeptUtility(input, ds + [d], limit)
         == KeptUtility(input, ds, limit) - (if d.kind != 0 && index < limit then input.remaining[index].activity.utility else 0)
  {
    if limit > 0 {
      UtilityAppend(input, ds, d, index, limit - 1);
      MembershipAppend(ds, d, input.remaining[limit - 1].ordinal, 0, 0);
      IndexOfIsInverse(input, limit - 1);
      UndecidedIsNothing(ds, d.ordinal, 0, 0);
    }
  }

  lemma {:induction false} SkipCountAppend(input: SearchInput, ds: seq<Decision>, d: Decision, index: nat, rank: int, limit: nat)
    requires input.Valid() && limit <= |input.remaining| && input.IndexOf(d.ordinal) == Some(index) && !Decided(ds, d.ordinal)
    ensures SkipCount(input, ds + [d], rank, limit)
         == SkipCount(input, ds, rank, limit)
            + (if d.kind != 0 && index < limit && input.remaining[index].activity.priorityRank == rank then 1 else 0)
  {
    if limit > 0 {
      SkipCountAppend(input, ds, d, index, rank, limit - 1);
      MembershipAppend(ds, d, input.remaining[limit - 1].ordinal, 0, 0);
      IndexOfIsInverse(input, limit - 1);
      UndecidedIsNothing(ds, d.ordinal, 0, 0);
    }
  }

  lemma {:induction false} SkipCountBound(input: SearchInput, ds: seq<Decision>, rank: int, limit: nat)
    requires limit <= |input.remaining|
    ensures SkipCount(input, ds, rank, limit) <= limit
  {
    if limit > 0 { SkipCountBound(input, ds, rank, limit - 1); }
  }

  lemma {:induction false} UtilityBound(input: SearchInput, ds: seq<Decision>, limit: nat)
    requires limit <= |input.remaining|
    ensures -0x8000_0000 * limit <= KeptUtility(input, ds, limit) <= 0x8000_0000 * limit
  {
    if limit > 0 { UtilityBound(input, ds, limit - 1); }
  }

  lemma {:induction false} DirectlyChangedAppend(input: SearchInput, ds: seq<Decision>, d: Decision, index: nat, i: nat)
    requires input.Valid() && input.IndexOf(d.ordinal) == Some(index) && !Decided(ds, d.ordinal) && i < |input.remaining|
    ensures i != index ==> (DirectlyChanged(input, ds + [d], i) <==> DirectlyChanged(input, ds, i))
    ensures !DirectlyChanged(input, ds, index)
    ensures var a := input.remaining[index];
      DirectlyChanged(input, ds + [d], index) <==>
      if d.kind != 0 then a.BaselineScheduled()
      else !a.BaselineScheduled() || a.segment.start.value != d.start || a.segment.end.value != d.end
  {
    var a, b := input.remaining[i], input.remaining[index];
    IndexOfIsInverse(input, i);
    MembershipAppend(ds, d, a.ordinal, a.segment.start.GetOr(0), a.segment.end.GetOr(0));
    MembershipAppend(ds, d, b.ordinal, b.segment.start.GetOr(0), b.segment.end.GetOr(0));
    UndecidedIsNothing(ds, d.ordinal, b.segment.start.GetOr(0), b.segment.end.GetOr(0));
  }

  // ----- the ranks -----

  ghost predicate StrictlyAscending(s: seq<int>) {
    forall i, j | 0 <= i < j < |s| :: s[i] < s[j]
  }

  lemma {:induction false} DedupeKeeps(s: seq<int>, x: int)
    ensures x in Dedupe(s) <==> x in s
  {
    if s != [] {
      var front := s[..|s| - 1];
      DedupeKeeps(front, x);
      assert s == front + [s[|s| - 1]];
    }
  }

  lemma {:induction false} DedupeAscends(s: seq<int>)
    requires forall i, j | 0 <= i < j < |s| :: s[i] <= s[j]
    ensures StrictlyAscending(Dedupe(s))
  {
    if s != [] {
      var front := s[..|s| - 1];
      DedupeAscends(front);
    }
  }

  lemma {:induction false} RanksAreRanks(input: SearchInput)
    ensures StrictlyAscending(Ranks(input))
    ensures forall i | 0 <= i < |input.remaining| :: input.remaining[i].activity.priorityRank in Ranks(input)
  {
    var list := RankList(input);
    var sorted := Sort(IntLess, list);
    IntOrder();
    SortSorts(IntLess, list);
    SameElements(list, sorted);
    forall i, j | 0 <= i < j < |sorted| ensures sorted[i] <= sorted[j] {
      assert !IntLess(sorted[j], sorted[i]);
    }
    DedupeAscends(sorted);
    forall i | 0 <= i < |input.remaining| ensures input.remaining[i].activity.priorityRank in Ranks(input) {
      assert list[i] in list;
      DedupeKeeps(sorted, list[i]);
    }
  }

  lemma {:induction false} IntOrder()
    ensures StrictOrder(IntLess)
  {
  }

  lemma {:induction false} SkipCountsAppend(input: SearchInput, ds: seq<Decision>, d: Decision, index: nat, position: nat)
    requires input.Valid() && input.IndexOf(d.ordinal) == Some(index) && !Decided(ds, d.ordinal) && d.kind != 0
    requires position < |Ranks(input)| && Ranks(input)[position] == input.remaining[index].activity.priorityRank
    ensures SkipCounts(input, ds + [d], Ranks(input)) == Bump(SkipCounts(input, ds, Ranks(input)), position)
  {
    var ranks := Ranks(input);
    RanksAreRanks(input);
    forall r | 0 <= r < |ranks|
      ensures SkipCounts(input, ds + [d], ranks)[r] == Bump(SkipCounts(input, ds, ranks), position)[r]
    {
      SkipCountAppend(input, ds, d, index, ranks[r], |input.remaining|);
    }
  }

  lemma {:induction false} SkipCountsUnchanged(input: SearchInput, ds: seq<Decision>, d: Decision, index: nat)
    requires input.Valid() && input.IndexOf(d.ordinal) == Some(index) && !Decided(ds, d.ordinal) && d.kind == 0
    ensures SkipCounts(input, ds + [d], Ranks(input)) == SkipCounts(input, ds, Ranks(input))
  {
    var ranks := Ranks(input);
    forall r | 0 <= r < |ranks| ensures SkipCounts(input, ds + [d], ranks)[r] == SkipCounts(input, ds, ranks)[r] {
      SkipCountAppend(input, ds, d, index, ranks[r], |input.remaining|);
    }
  }

  // ----- one decision -----

  lemma {:induction false} OrdinalsAppend(ds: seq<Decision>, d: Decision)
    ensures OrdinalsOf(ds + [d]) == OrdinalsOf(ds) + [d.ordinal]
  {
  }

  lemma {:induction false} CommonAppend(input: SearchInput, visits: seq<Decision>, d: Decision)
    requires forall k | 0 <= k < |visits| :: input.IndexOf(visits[k].ordinal).Some?
    requires input.IndexOf(d.ordinal).Some?
    ensures forall k | 0 <= k < |visits + [d]| :: input.IndexOf((visits + [d])[k].ordinal).Some?
    ensures CommonOrder(input, visits + [d])
         == if input.remaining[input.IndexOf(d.ordinal).value].BaselineScheduled()
            then CommonOrder(input, visits) + [input.IndexOf(d.ordinal).value] else CommonOrder(input, visits)
  {
    assert (visits + [d])[..|visits|] == visits;
  }

  lemma {:induction false} FlagsAppend(input: SearchInput, ds: seq<Decision>, d: Decision, index: nat, st: State, next: State)
    requires input.Valid() && Flags(input, ds, st)
    requires input.IndexOf(d.ordinal) == Some(index) && !Decided(ds, d.ordinal)
    requires next.decided == st.decided[index := true]
    requires |next.changed| == |next.common| == |input.remaining|
    requires forall i | 0 <= i < |input.remaining| && i != index :: next.changed[i] == st.changed[i]
    requires next.changed[index] == (st.changed[index] || DirectlyChanged(input, ds + [d], index))
    requires forall i | 0 <= i < |input.remaining| :: next.common[i] <==> i in next.commonOrder
    ensures Flags(input, ds + [d], next)
  {
    forall i | 0 <= i < |input.remaining|
      ensures next.decided[i] <==> Decided(ds + [d], input.remaining[i].ordinal)
      ensures next.changed[i] <==> DirectlyChanged(input, ds + [d], i)
    {
      IndexOfIsInverse(input, i);
      MembershipAppend(ds, d, input.remaining[i].ordinal, 0, 0);
      DirectlyChangedAppend(input, ds, d, index, i);
    }
  }

  lemma {:induction false} SkipStep(input: SearchInput, ds: seq<Decision>, d: Decision, index: nat, position: nat, st: State,
                                    utility: int64)
    requires Represents(input, ds, st) && Accepted(input, ds + [d]) && d.kind == 1
    requires input.IndexOf(d.ordinal) == Some(index) && !Decided(ds, d.ordinal)
    requires position < |Ranks(input)| && Ranks(input)[position] == input.remaining[index].activity.priorityRank
    requires utility == st.utility - input.remaining[index].activity.utility
    ensures Represents(input, ds + [d], SkipUpdate(input, st, index, position, d.ordinal, utility))
  {
    var next := SkipUpdate(input, st, index, position, d.ordinal, utility);
    ChainAppend(input, ds, d);
    DirectlyChangedAppend(input, ds, d, index, index);
    FlagsAppend(input, ds, d, index, st, next);
    VisitsAppend(ds, d);
    OrdinalsAppend(Skips(ds), d);
    SkipCountsAppend(input, ds, d, index, position);
    UtilityAppend(input, ds, d, index, |input.remaining|);
  }

  lemma {:induction false} VisitsStep(input: SearchInput, ds: seq<Decision>, d: Decision, index: nat, st: State, next: State)
    requires input.Valid() && VisitsAre(input, ds, st) && d.kind == 0 && input.IndexOf(d.ordinal) == Some(index)
    requires next.visits == st.visits + [d] && next.skipped == st.skipped
    requires next.commonOrder == if input.remaining[index].BaselineScheduled() then st.commonOrder + [index] else st.commonOrder
    ensures VisitsAre(input, ds + [d], next)
  {
    VisitsAppend(ds, d);
    CommonAppend(input, st.visits, d);
  }

  lemma {:induction false} VisitFlags(input: SearchInput, ds: seq<Decision>, d: Decision, index: nat, st: State, chain: Chain)
    requires input.Valid() && Flags(input, ds, st) && d.kind == 0
    requires input.IndexOf(d.ordinal) == Some(index) && !Decided(ds, d.ordinal)
    ensures Flags(input, ds + [d], VisitUpdate(input, st, index, d, chain))
  {
    DirectlyChangedAppend(input, ds, d, index, index);
    FlagsAppend(input, ds, d, index, st, VisitUpdate(input, st, index, d, chain));
  }

  lemma {:induction false} VisitStep(input: SearchInput, ds: seq<Decision>, d: Decision, index: nat, st: State, chain: Chain)
    requires Represents(input, ds, st) && Accepted(input, ds + [d]) && d.kind == 0
    requires input.IndexOf(d.ordinal) == Some(index) && !Decided(ds, d.ordinal)
    requires Leg(input, st.chain, d) == Some(chain)
    ensures Represents(input, ds + [d], VisitUpdate(input, st, index, d, chain))
  {
    var next := VisitUpdate(input, st, index, d, chain);
    ChainAppend(input, ds, d);
    VisitFlags(input, ds, d, index, st, chain);
    VisitsStep(input, ds, d, index, st, next);
    SkipCountsUnchanged(input, ds, d, index);
    UtilityAppend(input, ds, d, index, |input.remaining|);
  }
}

/** The columnar view of the suffix: the same facts, one array per field, with a
    sorted index so that an ordinal is found by binary search. */
module PlannerColumns {
  import opened Domain
  import opened Sorting
  import opened PlannerInput
  import opened Alternatives

  const BASELINE_SCHEDULED: bv16 := 1
  const MANDATORY: bv16 := 2
  const MOVABLE: bv16 := 4
  const SKIPPABLE: bv16 := 8
  const RESERVATION_PRESENT: bv16 := 16
  const DEADLINE_PRESENT: bv16 := 32
  const FOUND_CLOSED: bv16 := 64

  /** The columns that scoring and expansion read. */
  datatype Columns = Columns(
    ordinals: seq<nat>,
    matrixIndices: seq<nat>,
    ranks: seq<int>,
    utilities: seq<int32>,
    preferredMs: seq<int64>,
    baselineStart: seq<int64>,
    baselineEnd: seq<int64>,
    reservationStart: seq<int64>,
    flags: seq<bv16>,
    sortedOrdinals: seq<nat>,
    sortedIndices: seq<nat>)

  predicate Has(flags: bv16, bit: bv16) { flags & bit != 0 }

  function FlagIf(condition: bool, bit: bv16): bv16 { if condition then bit else 0 }

  function FlagsOf(a: PlanningActivity): bv16 {
    FlagIf(a.BaselineScheduled(), BASELINE_SCHEDULED) | FlagIf(a.activity.timing.mandatory, MANDATORY)
    | FlagIf(a.activity.timing.canMove, MOVABLE) | FlagIf(a.activity.timing.canSkip, SKIPPABLE)
    | FlagIf(a.activity.timing.reservation.Some?, RESERVATION_PRESENT)
    | FlagIf(a.activity.timing.deadline.Some?, DEADLINE_PRESENT)
    | FlagIf(a.activity.foundClosedAt.Some?, FOUND_CLOSED)
  }

  /** Each flag can be read back from the packed word. */
  lemma {:induction false} FlagsReadBack(a: PlanningActivity)
    ensures Has(FlagsOf(a), BASELINE_SCHEDULED) <==> a.BaselineScheduled()
    ensures Has(FlagsOf(a), MANDATORY) <==> a.activity.timing.mandatory
    ensures Has(FlagsOf(a), SKIPPABLE) <==> a.activity.timing.canSkip
    ensures Has(FlagsOf(a), RESERVATION_PRESENT) <==> a.activity.timing.reservation.Some?
  {
  }

  /** One row of the columns holds the facts of one activity. */
  ghost predicate RowOf(a: PlanningActivity, c: Columns, i: nat)
    requires i < |c.ordinals| == |c.matrixIndices| == |c.ranks| == |c.utilities| == |c.preferredMs|
    requires |c.ordinals| == |c.baselineStart| == |c.baselineEnd| == |c.reservationStart| == |c.flags|
  {
    && c.ordinals[i] == a.ordinal
    && c.matrixIndices[i] == i + 1
    && c.ranks[i] == a.activity.priorityRank
    && c.utilities[i] == a.activity.utility
    && c.preferredMs[i] == Milliseconds(a.activity.timing.preferredSeconds)
    && c.baselineStart[i] == a.segment.start.GetOr(0)
    && c.baselineEnd[i] == a.segment.end.GetOr(0)
    && c.reservationStart[i] == a.activity.timing.reservation.GetOr(0)
    && c.flags[i] == FlagsOf(a)
  }

  ghost predicate RowsOf(input: SearchInput, c: Columns, count: nat)
    requires count <= |input.remaining|
  {
    && |c.ordinals| == count && |c.matrixIndices| == count && |c.ranks| == count && |c.utilities| == count
    && |c.preferredMs| == count && |c.baselineStart| == count && |c.baselineEnd| == count
    && |c.reservationStart| == count && |c.flags| == count
    && (forall i | 0 <= i < count :: RowOf(input.remaining[i], c, i))
  }

  /** The sorted index lists every position, by ascending ordinal. */
  ghost predicate IndexOfColumns(input: SearchInput, c: Columns) {
    && |c.sortedIndices| == |input.remaining| && |c.sortedOrdinals| == |input.remaining|
    && (forall i: nat | i < |input.remaining| :: i in c.sortedIndices)
    && (forall p | 0 <= p < |c.sortedIndices| ::
          c.sortedIndices[p] < |input.remaining| && c.sortedOrdinals[p] == input.remaining[c.sortedIndices[p]].ordinal)
    && (forall p, q | 0 <= p < q < |c.sortedOrdinals| :: c.sortedOrdinals[p] <= c.sortedOrdinals[q])
  }

  ghost predicate ColumnsOf(input: SearchInput, c: Columns) {
    RowsOf(input, c, |input.remaining|) && IndexOfColumns(input, c)
  }

  /** `std::lower_bound` over ascending integers. */
  method LowerBound(s: seq<int>, x: int) returns (p: nat)
    requires forall i, j | 0 <= i < j < |s| :: s[i] <= s[j]
    ensures p <= |s|
    ensures forall k | 0 <= k < p :: s[k] < x
    ensures forall k | p <= k < |s| :: x <= s[k]
  {
    p := 0;
    var high := |s|;
    while p < high
      invariant p <= high <= |s|
      invariant forall k | 0 <= k < p :: s[k] < x
      invariant forall k | high <= k < |s| :: x <= s[k]
    {
      var middle := (p + high) / 2;
      if s[middle] < x {
        p := middle + 1;
      } else {
        high := middle;
      }
    }
  }

  /** Binary search in the sorted index agrees with the linear scan. */
  method FindOrdinal(ghost input: SearchInput, c: Columns, ordinal: nat) returns (r: Option<nat>)
    requires input.Valid() && ColumnsOf(input, c)
    ensures r == input.IndexOf(ordinal)
  {
    var p := LowerBound(c.sortedOrdinals, ordinal);
    if p == |c.sortedOrdinals| || c.sortedOrdinals[p] != ordinal {
      forall i: nat | i < |input.remaining| ensures input.remaining[i].ordinal != ordinal {
        assert i in c.sortedIndices;
        var q :| 0 <= q < |c.sortedIndices| && c.sortedIndices[q] == i;
        assert c.sortedOrdinals[q] != ordinal;
      }
      return None;
    }
    IndexOfIsInverse(input, c.sortedIndices[p]);
    r := Some(c.sortedIndices[p]);
  }

  function EmptyColumns(): Columns {
    Columns([], [], [], [], [], [], [], [], [], [], [])
  }

  function AppendRow(c: Columns, a: PlanningActivity): Columns {
    c.(ordinals := c.ordinals + [a.ordinal],
       matrixIndices := c.matrixIndices + [|c.matrixIndices| + 1],
       ranks := c.ranks + [a.activity.priorityRank],
       utilities := c.utilities + [a.activity.utility],
       preferredMs := c.preferredMs + [Milliseconds(a.activity.timing.preferredSeconds)],
       baselineStart := c.baselineStart + [a.segment.start.GetOr(0)],
       baselineEnd := c.baselineEnd + [a.segment.end.GetOr(0)],
       reservationStart := c.reservationStart + [a.activity.timing.reservation.GetOr(0)],
       flags := c.flags + [FlagsOf(a)])
  }

  lemma {:induction false} AppendRowKeepsRows(input: SearchInput, c: Columns, count: nat)
    requires count < |input.remaining| && RowsOf(input, c, count)
    ensures RowsOf(input, AppendRow(c, input.remaining[count]), count + 1)
  {
    var next := AppendRow(c, input.remaining[count]);
    forall i | 0 <= i < count + 1 ensures RowOf(input.remaining[i], next, i) {
      if i < count { assert RowOf(input.remaining[i], c, i); }
    }
  }

  /** `prepare_activity_columns`: it fails exactly when some activity's own
      times overflow on being combined. */
  method PrepareColumns(input: SearchInput) returns (r: Option<Columns>)
    requires input.Valid()
    ensures r.Some? <==> forall i | 0 <= i < |input.remaining| :: Representable(input.remaining[i])
    ensures r.Some? ==> ColumnsOf(input, r.value)
  {
    var c := EmptyColumns();
    for index := 0 to |input.remaining|
      invariant RowsOf(input, c, index)
      invariant forall i | 0 <= i < index :: Representable(input.remaining[i])
    {
      var a := input.remaining[index];
      if FixedDuration(a).None? {
        return None;
      }
      var timing := a.activity.timing;
      if timing.reservation.Some? && CheckedAdd(timing.reservation.value, Milliseconds(timing.graceSeconds)).None? {
        return None;
      }
      AppendRowKeepsRows(input, c, index);
      c := AppendRow(c, a);
    }
    var indices := SortedIndices(input);
    var sortedOrdinals: seq<nat> := [];
    for p := 0 to |indices|
      invariant |sortedOrdinals| == p
      invariant forall q | 0 <= q < p :: sortedOrdinals[q] == input.remaining[indices[q]].ordinal
    {
      assert RowOf(input.remaining[indices[p]], c, indices[p]);
      sortedOrdinals := sortedOrdinals + [c.ordinals[indices[p]]];
    }
    ghost var rows := c;
    c := c.(sortedIndices := indices, sortedOrdinals := sortedOrdinals);
    forall i | 0 <= i < |input.remaining| ensures RowOf(input.remaining[i], c, i) {
      assert RowOf(input.remaining[i], rows, i);
    }
    r := Some(c);
  }

  /** The positions 0, 1, ... sorted by ordinal. */
  method SortedIndices(input: SearchInput) returns (indices: seq<nat>)
    ensures |indices| == |input.remaining|
    ensures forall i: nat | i < |input.remaining| :: i in indices
    ensures forall p | 0 <= p < |indices| :: indices[p] < |input.remaining|
    ensures forall p, q | 0 <= p < q < |indices| :: input.remaining[indices[p]].ordinal <= input.remaining[indices[q]].ordinal
  {
    var positions := Positions(|input.remaining|);
    indices := Sort<nat>(OrdinalOrder(input), positions);
    SameElements(positions, indices);
    forall i: nat | i < |input.remaining| ensures i in indices { assert positions[i] in positions; }
    forall p | 0 <= p < |indices| ensures indices[p] < |input.remaining| { assert indices[p] in indices; }
    SortSorts(OrdinalOrder(input), positions);
    forall p, q | 0 <= p < q < |indices|
      ensures input.remaining[indices[p]].ordinal <= input.remaining[indices[q]].ordinal
    {
      assert !OrdinalOrder(input)(indices[q], indices[p]);
    }
  }
}

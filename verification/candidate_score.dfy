/** Scores of candidate plans and the fixed lexicographic objective. */
module CandidateScores {
  import opened Domain
  import opened Sorting

  /** One step of a search path: schedule an activity (kind 0) or skip it (kind 1). */
  datatype Decision = Decision(ordinal: nat, kind: uint8, start: int64, end: int64)

  datatype Entry = Entry(ordinal: nat, start: int64, end: int64)

  datatype PlanKey = PlanKey(order: seq<int>, entries: seq<Entry>, skipped: seq<int>) {
    predicate Valid() {
      && |order| == |entries|
      && (forall i, j | 0 <= i < j < |skipped| :: skipped[i] < skipped[j])
      && (forall i | 0 <= i < |entries| ::
            order[i] == entries[i].ordinal && entries[i].start < entries[i].end && entries[i].ordinal !in skipped)
      && Distinct(order)
    }
  }

  datatype Score = Score(
    skips: seq<int>,
    utility: int,
    lateness: int,
    shortfall: int,
    travel: int,
    changed: int,
    shift: int,
    finalEnd: int,
    key: PlanKey)
  {
    predicate Valid() {
      0 <= lateness && 0 <= shortfall && 0 <= travel && 0 <= changed && 0 <= shift && key.Valid()
    }
  }

  datatype Candidate = Candidate(decisions: seq<Decision>, score: Score)

  // ----- comparisons -----

  predicate LexLess<T(==)>(lt: (T, T) -> bool, a: seq<T>, b: seq<T>) {
    b != [] && (a == [] || if a[0] != b[0] then lt(a[0], b[0]) else LexLess(lt, a[1..], b[1..]))
  }

  predicate IntLess(a: int, b: int) { a < b }

  predicate EntryLess(a: Entry, b: Entry) {
    LexLess(IntLess, [a.ordinal, a.start, a.end], [b.ordinal, b.start, b.end])
  }

  predicate DecisionLess(a: Decision, b: Decision) {
    LexLess(IntLess, [a.ordinal, a.kind, a.start, a.end], [b.ordinal, b.kind, b.start, b.end])
  }

  predicate KeyLess(a: PlanKey, b: PlanKey) {
    if a.order != b.order then LexLess(IntLess, a.order, b.order)
    else if a.entries != b.entries then LexLess(EntryLess, a.entries, b.entries)
    else LexLess(IntLess, a.skipped, b.skipped)
  }

  function Costs(s: Score): seq<int> {
    [s.lateness, s.shortfall, s.travel, s.changed, s.shift, s.finalEnd]
  }

  /** `is_better_complete`: fewer important skips, then more utility, then
      smaller costs in order, then the smaller canonical key. */
  predicate Better(a: Score, b: Score) {
    if a.skips != b.skips then LexLess(IntLess, a.skips, b.skips)
    else if a.utility != b.utility then a.utility > b.utility
    else if Costs(a) != Costs(b) then LexLess(IntLess, Costs(a), Costs(b))
    else KeyLess(a.key, b.key)
  }

  /** `is_better_partial`: equal scores are told apart by their decisions. */
  predicate BetterPartial(a: Candidate, b: Candidate) {
    if Better(a.score, b.score) then true
    else if Better(b.score, a.score) then false
    else LexLess(DecisionLess, a.decisions, b.decisions)
  }

  // ----- every comparison is a strict total order -----

  ghost predicate StrictTotal<T(!new)>(lt: (T, T) -> bool) {
    && (forall a :: !lt(a, a))
    && (forall a, b, c :: lt(a, b) && lt(b, c) ==> lt(a, c))
    && (forall a, b :: a != b ==> lt(a, b) || lt(b, a))
  }

  lemma {:induction false} StrictTotalIsStrictOrder<T(!new)>(lt: (T, T) -> bool)
    requires StrictTotal(lt)
    ensures StrictOrder(lt)
  {
  }

  lemma {:induction false} LexIrreflexive<T(!new)>(lt: (T, T) -> bool, a: seq<T>)
    ensures !LexLess(lt, a, a)
  {
    if a != [] { LexIrreflexive(lt, a[1..]); }
  }

  lemma {:induction false} LexTransitive<T(!new)>(lt: (T, T) -> bool, a: seq<T>, b: seq<T>, c: seq<T>)
    requires StrictTotal(lt) && LexLess(lt, a, b) && LexLess(lt, b, c)
    ensures LexLess(lt, a, c)
  {
    if a != [] {
      var x, y, z := a[0], b[0], c[0];
      if x == y && y == z {
        LexTransitive(lt, a[1..], b[1..], c[1..]);
      } else {
        assert x != y && y != z ==> lt(x, y) && lt(y, z) && lt(x, z);
        assert x == z ==> !lt(x, z);
      }
    }
  }

  lemma {:induction false} LexTotal<T(!new)>(lt: (T, T) -> bool, a: seq<T>, b: seq<T>)
    requires StrictTotal(lt) && a != b
    ensures LexLess(lt, a, b) || LexLess(lt, b, a)
  {
    if a != [] && b != [] {
      if a[0] == b[0] {
        assert a == [a[0]] + a[1..] && b == [b[0]] + b[1..];
        LexTotal(lt, a[1..], b[1..]);
      } else {
        var x, y := a[0], b[0];
        assert lt(x, y) || lt(y, x);
      }
    }
  }

  lemma {:induction false} EntryStrictTotal()
    ensures StrictTotal(EntryLess)
  {
    forall a: Entry, b: Entry | a != b ensures EntryLess(a, b) || EntryLess(b, a) {
      LexTotal(IntLess, [a.ordinal, a.start, a.end], [b.ordinal, b.start, b.end]);
    }
    forall a ensures !EntryLess(a, a) {
      LexIrreflexive(IntLess, [a.ordinal, a.start, a.end]);
    }
    forall a, b, c | EntryLess(a, b) && EntryLess(b, c) ensures EntryLess(a, c) {
      LexTransitive(IntLess, [a.ordinal, a.start, a.end], [b.ordinal, b.start, b.end], [c.ordinal, c.start, c.end]);
    }
  }

  function DecisionTuple(d: Decision): seq<int> { [d.ordinal, d.kind, d.start, d.end] }

  lemma {:induction false} DecisionStrictTotal()
    ensures StrictTotal(DecisionLess)
  {
    forall a: Decision, b: Decision | a != b ensures DecisionLess(a, b) || DecisionLess(b, a) {
      assert DecisionTuple(a) != DecisionTuple(b) by {
        assert a.ordinal == DecisionTuple(a)[0] && a.kind == DecisionTuple(a)[1]
            && a.start == DecisionTuple(a)[2] && a.end == DecisionTuple(a)[3];
        assert b.ordinal == DecisionTuple(b)[0] && b.kind == DecisionTuple(b)[1]
            && b.start == DecisionTuple(b)[2] && b.end == DecisionTuple(b)[3];
      }
      LexTotal(IntLess, DecisionTuple(a), DecisionTuple(b));
    }
    forall a ensures !DecisionLess(a, a) {
      LexIrreflexive(IntLess, DecisionTuple(a));
    }
    forall a, b, c | DecisionLess(a, b) && DecisionLess(b, c) ensures DecisionLess(a, c) {
      LexTransitive(IntLess, DecisionTuple(a), DecisionTuple(b), DecisionTuple(c));
    }
  }

  lemma {:induction false} IntStrictTotal()
    ensures StrictTotal(IntLess)
  {
  }

  lemma {:induction false} KeyTotal(a: PlanKey, b: PlanKey)
    requires a != b
    ensures KeyLess(a, b) || KeyLess(b, a)
  {
    IntStrictTotal();
    EntryStrictTotal();
    if a.order != b.order { LexTotal(IntLess, a.order, b.order); }
    else if a.entries != b.entries { LexTotal(EntryLess, a.entries, b.entries); }
    else { LexTotal(IntLess, a.skipped, b.skipped); }
  }

  lemma {:induction false} KeyTransitive(a: PlanKey, b: PlanKey, c: PlanKey)
    requires KeyLess(a, b) && KeyLess(b, c)
    ensures KeyLess(a, c)
  {
    if a.order != b.order || b.order != c.order {
      if a.order != b.order && b.order != c.order { LexTransitive(IntLess, a.order, b.order, c.order); }
      LexIrreflexive(IntLess, a.order);
    } else if a.entries != b.entries || b.entries != c.entries {
      EntryStrictTotal();
      if a.entries != b.entries && b.entries != c.entries {
        LexTransitive(EntryLess, a.entries, b.entries, c.entries);
      }
      LexIrreflexive(EntryLess, a.entries);
    } else {
      LexTransitive(IntLess, a.skipped, b.skipped, c.skipped);
    }
  }

  lemma {:induction false} BetterIrreflexive(a: Score)
    ensures !Better(a, a)
  {
    LexIrreflexive(IntLess, a.key.skipped);
  }

  /** The objective ranks any two different scores. */
  lemma {:induction false} BetterTotal(a: Score, b: Score)
    requires a != b
    ensures Better(a, b) || Better(b, a)
  {
    IntStrictTotal();
    if a.skips != b.skips { LexTotal(IntLess, a.skips, b.skips); }
    else if a.utility != b.utility {}
    else if Costs(a) != Costs(b) { LexTotal(IntLess, Costs(a), Costs(b)); }
    else {
      assert Costs(a)[0] == Costs(b)[0] && Costs(a)[1] == Costs(b)[1] && Costs(a)[2] == Costs(b)[2]
          && Costs(a)[3] == Costs(b)[3] && Costs(a)[4] == Costs(b)[4] && Costs(a)[5] == Costs(b)[5];
      KeyTotal(a.key, b.key);
    }
  }

  lemma {:induction false} BetterTransitive(a: Score, b: Score, c: Score)
    requires Better(a, b) && Better(b, c)
    ensures Better(a, c)
  {
    if a.skips != b.skips || b.skips != c.skips {
      if a.skips != b.skips && b.skips != c.skips { LexTransitive(IntLess, a.skips, b.skips, c.skips); }
      LexIrreflexive(IntLess, a.skips);
    } else if a.utility != b.utility || b.utility != c.utility {
    } else if Costs(a) != Costs(b) || Costs(b) != Costs(c) {
      if Costs(a) != Costs(b) && Costs(b) != Costs(c) { LexTransitive(IntLess, Costs(a), Costs(b), Costs(c)); }
      LexIrreflexive(IntLess, Costs(a));
    } else {
      KeyTransitive(a.key, b.key, c.key);
    }
  }

  lemma {:induction false} BetterStrictTotal()
    ensures StrictTotal(Better)
  {
    forall a ensures !Better(a, a) { BetterIrreflexive(a); }
    forall a, b, c | Better(a, b) && Better(b, c) ensures Better(a, c) { BetterTransitive(a, b, c); }
    forall a, b | a != b ensures Better(a, b) || Better(b, a) { BetterTotal(a, b); }
  }

  /** Beam retention ranks any two different candidates, so it depends on
      neither insertion order nor the sorting algorithm. */
  lemma {:induction false} BetterPartialStrictTotal()
    ensures StrictTotal(BetterPartial)
  {
    BetterStrictTotal();
    DecisionStrictTotal();
    forall a ensures !BetterPartial(a, a) {
      LexIrreflexive(DecisionLess, a.decisions);
    }
    forall a: Candidate, b: Candidate | a != b ensures BetterPartial(a, b) || BetterPartial(b, a) {
      if a.score == b.score { LexTotal(DecisionLess, a.decisions, b.decisions); }
    }
    forall a: Candidate, b: Candidate, c: Candidate | BetterPartial(a, b) && BetterPartial(b, c) ensures BetterPartial(a, c) {
      if a.score == b.score && b.score == c.score {
        LexTransitive(DecisionLess, a.decisions, b.decisions, c.decisions);
      }
    }
  }
}

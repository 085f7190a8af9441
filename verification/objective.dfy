/** The direction of the objective: the first part in which two scores differ
    decides, and there fewer skips, more utility and smaller costs win. */
module Objective {
  import opened CandidateScores

  /** The first difference is at `r`, and is smaller on the left. */
  ghost predicate LowerAt(a: seq<int>, b: seq<int>, r: nat) {
    r < |a| && r < |b| && a[..r] == b[..r] && a[r] < b[r]
  }

  lemma {:induction false} FirstDifference<T(!new)>(lt: (T, T) -> bool, a: seq<T>, b: seq<T>, r: nat)
    requires r < |a| && r < |b| && a[..r] == b[..r] && a[r] != b[r] && lt(a[r], b[r])
    ensures LexLess(lt, a, b)
  {
    if r > 0 {
      assert a[0] == a[..r][0] == b[..r][0] == b[0];
      assert a[1..][..r - 1] == a[..r][1..] && b[1..][..r - 1] == b[..r][1..];
      FirstDifference(lt, a[1..], b[1..], r - 1);
    }
  }

  /** The costs, in the order in which they count. */
  ghost function CostAt(s: Score, k: nat): int {
    if k == 0 then s.lateness
    else if k == 1 then s.shortfall
    else if k == 2 then s.travel
    else if k == 3 then s.changed
    else if k == 4 then s.shift
    else s.finalEnd
  }

  ghost predicate SameValue(a: Score, b: Score) { a.skips == b.skips && a.utility == b.utility }

  /** The costs are the same up to `k`, and the next is smaller on the left. */
  ghost predicate CheaperAt(a: Score, b: Score, k: nat) {
    k < 6 && (forall i: nat | i < k :: CostAt(a, i) == CostAt(b, i)) && CostAt(a, k) < CostAt(b, k)
  }

  ghost predicate SameCosts(a: Score, b: Score) { forall k: nat | k < 6 :: CostAt(a, k) == CostAt(b, k) }

  /** The visits are the same up to `k`, and the next is to an earlier ordinal. */
  ghost predicate EarlierVisitAt(a: PlanKey, b: PlanKey, k: nat) { LowerAt(a.order, b.order, k) }

  /** The same visits in the same order, and at the first that is at another time
      it starts earlier, or ends earlier from the same start. */
  ghost predicate EarlierTimeAt(a: PlanKey, b: PlanKey, k: nat) {
    && a.order == b.order && k < |a.entries| && k < |b.entries| && a.entries[..k] == b.entries[..k]
    && a.entries[k].ordinal == b.entries[k].ordinal
    && (a.entries[k].start < b.entries[k].start
        || (a.entries[k].start == b.entries[k].start && a.entries[k].end < b.entries[k].end))
  }

  ghost predicate LowerSkipAt(a: PlanKey, b: PlanKey, k: nat) {
    a.order == b.order && a.entries == b.entries && LowerAt(a.skipped, b.skipped, k)
  }

  lemma {:induction false} CostsBy(a: Score, b: Score, k: nat)
    requires CheaperAt(a, b, k)
    ensures LexLess(IntLess, Costs(a), Costs(b))
  {
    assert forall i | 0 <= i < 6 :: Costs(a)[i] == CostAt(a, i) && Costs(b)[i] == CostAt(b, i);
    FirstDifference(IntLess, Costs(a), Costs(b), k);
  }

  lemma {:induction false} EntriesBy(a: PlanKey, b: PlanKey, k: nat)
    requires EarlierTimeAt(a, b, k)
    ensures LexLess(EntryLess, a.entries, b.entries)
  {
    var x, y := a.entries[k], b.entries[k];
    FirstDifference(IntLess, [x.ordinal, x.start, x.end], [y.ordinal, y.start, y.end], if x.start < y.start then 1 else 2);
    FirstDifference(EntryLess, a.entries, b.entries, k);
  }

  /** What makes a score better, part by part.  Whichever of two different scores
      differs first to its advantage is the better one. */
  lemma {:induction false} BetterWhen(a: Score, b: Score, k: nat)
    ensures LowerAt(a.skips, b.skips, k) ==> Better(a, b)
    ensures a.skips == b.skips && a.utility > b.utility ==> Better(a, b)
    ensures SameValue(a, b) && CheaperAt(a, b, k) ==> Better(a, b)
    ensures SameValue(a, b) && SameCosts(a, b) && EarlierVisitAt(a.key, b.key, k) ==> Better(a, b)
    ensures SameValue(a, b) && SameCosts(a, b) && EarlierTimeAt(a.key, b.key, k) ==> Better(a, b)
    ensures SameValue(a, b) && SameCosts(a, b) && LowerSkipAt(a.key, b.key, k) ==> Better(a, b)
  {
    if LowerAt(a.skips, b.skips, k) {
      FirstDifference(IntLess, a.skips, b.skips, k);
    }
    if CheaperAt(a, b, k) {
      CostsBy(a, b, k);
      CostsDiffer(a, b, k);
    }
    if SameCosts(a, b) {
      CostsAgree(a, b);
      KeyBy(a.key, b.key, k);
    }
  }

  lemma {:induction false} CostsDiffer(a: Score, b: Score, k: nat)
    requires CheaperAt(a, b, k)
    ensures Costs(a) != Costs(b)
  {
    assert Costs(a)[k] == CostAt(a, k) && Costs(b)[k] == CostAt(b, k);
  }

  lemma {:induction false} CostsAgree(a: Score, b: Score)
    requires SameCosts(a, b)
    ensures Costs(a) == Costs(b)
  {
    assert CostAt(a, 0) == CostAt(b, 0) && CostAt(a, 1) == CostAt(b, 1) && CostAt(a, 2) == CostAt(b, 2);
    assert CostAt(a, 3) == CostAt(b, 3) && CostAt(a, 4) == CostAt(b, 4) && CostAt(a, 5) == CostAt(b, 5);
  }

  lemma {:induction false} KeyBy(a: PlanKey, b: PlanKey, k: nat)
    ensures EarlierVisitAt(a, b, k) || EarlierTimeAt(a, b, k) || LowerSkipAt(a, b, k) ==> KeyLess(a, b)
  {
    if LowerAt(a.order, b.order, k) {
      FirstDifference(IntLess, a.order, b.order, k);
    }
    if EarlierTimeAt(a, b, k) {
      EntriesBy(a, b, k);
    }
    if LowerAt(a.skipped, b.skipped, k) {
      FirstDifference(IntLess, a.skipped, b.skipped, k);
    }
  }

  // ----- no worse and somewhere better -----

  /** No more skips of any rank, no less utility and no greater cost. */
  ghost predicate NoWorse(a: Score, b: Score) {
    && |a.skips| == |b.skips| && (forall r | 0 <= r < |a.skips| :: a.skips[r] <= b.skips[r])
    && a.utility >= b.utility && forall k: nat | k < 6 :: CostAt(a, k) <= CostAt(b, k)
  }

  lemma {:induction false} FirstLower(a: seq<int>, b: seq<int>, n: nat) returns (r: nat)
    requires |a| == |b| && n <= |a| && a[..n] == b[..n] && a != b && forall i | 0 <= i < |a| :: a[i] <= b[i]
    ensures LowerAt(a, b, r)
    decreases |a| - n
  {
    assert a[..|a|] == a && b[..|b|] == b;
    assert n < |a|;
    if a[n] < b[n] {
      r := n;
    } else {
      assert a[..n + 1] == a[..n] + [a[n]] && b[..n + 1] == b[..n] + [b[n]];
      r := FirstLower(a, b, n + 1);
    }
  }

  lemma {:induction false} FirstCheaper(a: Score, b: Score, n: nat) returns (k: nat)
    requires n <= 6 && (forall i: nat | i < n :: CostAt(a, i) == CostAt(b, i)) && !SameCosts(a, b)
    requires forall i: nat | i < 6 :: CostAt(a, i) <= CostAt(b, i)
    ensures CheaperAt(a, b, k)
    decreases 6 - n
  {
    if CostAt(a, n) < CostAt(b, n) && n < 6 {
      k := n;
    } else {
      k := FirstCheaper(a, b, n + 1);
    }
  }

  /** A score that is no worse in any part and better in one is better. */
  lemma {:induction false} DominatingIsBetter(a: Score, b: Score)
    requires NoWorse(a, b) && !(SameValue(a, b) && SameCosts(a, b))
    ensures Better(a, b)
  {
    var k := 0;
    if a.skips != b.skips {
      k := FirstLower(a.skips, b.skips, 0);
    } else if a.utility == b.utility {
      k := FirstCheaper(a, b, 0);
    }
    BetterWhen(a, b, k);
  }

  // ----- partial candidates -----

  ghost predicate DecidesEarlier(a: Decision, b: Decision) {
    || a.ordinal < b.ordinal
    || (a.ordinal == b.ordinal && a.kind < b.kind)
    || (a.ordinal == b.ordinal && a.kind == b.kind && a.start < b.start)
    || (a.ordinal == b.ordinal && a.kind == b.kind && a.start == b.start && a.end < b.end)
  }

  /** The decisions are the same up to `k`, and the next is earlier on the left. */
  ghost predicate DecidesEarlierAt(a: seq<Decision>, b: seq<Decision>, k: nat) {
    k < |a| && k < |b| && a[..k] == b[..k] && DecidesEarlier(a[k], b[k])
  }

  lemma {:induction false} DecisionsBy(a: Decision, b: Decision)
    requires DecidesEarlier(a, b)
    ensures DecisionLess(a, b)
  {
    FirstDifference(IntLess, [a.ordinal, a.kind, a.start, a.end], [b.ordinal, b.kind, b.start, b.end],
                    if a.ordinal < b.ordinal then 0 else if a.kind < b.kind then 1 else if a.start < b.start then 2 else 3);
  }

  /** The better score first; between equal scores the first decision that differs. */
  lemma {:induction false} BetterPartialWhen(a: Candidate, b: Candidate, k: nat)
    ensures Better(a.score, b.score) ==> BetterPartial(a, b)
    ensures a.score == b.score && DecidesEarlierAt(a.decisions, b.decisions, k) ==> BetterPartial(a, b)
  {
    BetterIrreflexive(a.score);
    if DecidesEarlierAt(a.decisions, b.decisions, k) {
      DecisionsBy(a.decisions[k], b.decisions[k]);
      FirstDifference(DecisionLess, a.decisions, b.decisions, k);
    }
  }
}

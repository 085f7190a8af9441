/** Moving the skips to the end, in ordinal order, changes nothing about a
    score, so a plan and its canonical form are worth the same. */
module Canonical {
  import opened Domain
  import opened Sorting
  import opened PlannerInput
  import opened CandidateScores
  import opened Scoring

  predicate ByOrdinal(l: Decision, r: Decision) { l.ordinal < r.ordinal }

  /** The visits in route order, then the skips by ascending ordinal. */
  function CanonicalForm(ds: seq<Decision>): seq<Decision> {
    Visits(ds) + Sort(ByOrdinal, Skips(ds))
  }

  ghost predicate SameMembers(a: seq<Decision>, b: seq<Decision>) {
    forall d :: d in a <==> d in b
  }

  lemma {:induction false} CanonicalHalves(ds: seq<Decision>)
    ensures Visits(CanonicalForm(ds)) == Visits(ds)
    ensures Skips(CanonicalForm(ds)) == Sort(ByOrdinal, Skips(ds))
    ensures |CanonicalForm(ds)| == |ds|
    ensures SameMembers(ds, CanonicalForm(ds))
  {
    var visits, skips := Visits(ds), Sort(ByOrdinal, Skips(ds));
    VisitsMembers(ds);
    SameElements(skips, Skips(ds));
    forall k | 0 <= k < |visits| ensures visits[k].kind == 0 { assert visits[k] in visits; }
    forall k | 0 <= k < |skips| ensures skips[k].kind != 0 { assert skips[k] in skips; }
    VisitsThenSkips(visits, skips);
  }

  // ----- being known does not depend on the order -----

  lemma {:induction false} SizeIsDistinct(s: seq<int>)
    requires |set x | x in s| == |s|
    ensures Distinct(s)
  {
    if s != [] {
      var front, last := s[..|s| - 1], s[|s| - 1];
      var all, most := set x | x in s, set x | x in front;
      assert s == front + [last];
      assert all == most + {last};
      SetSizeBound(front);
      assert last !in most;
      SizeIsDistinct(front);
    }
  }

  lemma {:induction false} SetSizeBound(s: seq<int>)
    ensures |set x | x in s| <= |s|
  {
    if s != [] {
      var front, last := s[..|s| - 1], s[|s| - 1];
      SetSizeBound(front);
      assert s == front + [last];
      assert (set x | x in s) == (set x | x in front) + {last};
    }
  }

  lemma {:induction false} OrdinalSets(a: seq<Decision>, b: seq<Decision>)
    requires SameMembers(a, b)
    ensures (set x | x in OrdinalsOf(a)) == (set x | x in OrdinalsOf(b))
  {
    forall x | x in OrdinalsOf(a) ensures x in OrdinalsOf(b) { OrdinalMember(a, b, x); }
    forall x | x in OrdinalsOf(b) ensures x in OrdinalsOf(a) { OrdinalMember(b, a, x); }
  }

  lemma {:induction false} OrdinalMember(a: seq<Decision>, b: seq<Decision>, x: int)
    requires SameMembers(a, b) && x in OrdinalsOf(a)
    ensures x in OrdinalsOf(b)
  {
    var k :| 0 <= k < |a| && a[k].ordinal == x;
    assert a[k] in b;
    var m :| 0 <= m < |b| && b[m] == a[k];
    assert OrdinalsOf(b)[m] == x;
  }

  lemma {:induction false} KnownCarriesOver(input: SearchInput, a: seq<Decision>, b: seq<Decision>)
    requires |a| == |b| && SameMembers(a, b) && Known(input, a)
    ensures Known(input, b)
    ensures SkipsAllowed(input, a) ==> SkipsAllowed(input, b)
  {
    assert Distinct(OrdinalsOf(a));
    DistinctSize(OrdinalsOf(a));
    OrdinalSets(a, b);
    SizeIsDistinct(OrdinalsOf(b));
    forall i, j | 0 <= i < j < |b| ensures b[i].ordinal != b[j].ordinal {
      assert OrdinalsOf(b)[i] != OrdinalsOf(b)[j];
    }
    forall k | 0 <= k < |b| ensures b[k] in a { assert b[k] in b; }
  }

  lemma {:induction false} AcceptableCarriesOver(input: SearchInput, a: seq<Decision>, b: seq<Decision>)
    requires |a| == |b| && SameMembers(a, b)
    ensures Acceptable(input, a) <==> Acceptable(input, b)
  {
    if Known(input, a) { KnownCarriesOver(input, a, b); }
    if Known(input, b) { KnownCarriesOver(input, b, a); }
  }

  // ----- every part of the score -----

  lemma {:induction false} MembershipTests(a: seq<Decision>, b: seq<Decision>, ordinal: nat, start: int64, end: int64)
    requires SameMembers(a, b)
    ensures SkippedIn(a, ordinal) <==> SkippedIn(b, ordinal)
    ensures ScheduledIn(a, ordinal) <==> ScheduledIn(b, ordinal)
    ensures ScheduledAt(a, ordinal, start, end) <==> ScheduledAt(b, ordinal, start, end)
  {
  }

  lemma {:induction false} UtilityCarriesOver(input: SearchInput, a: seq<Decision>, b: seq<Decision>, limit: nat)
    requires SameMembers(a, b) && limit <= |input.remaining|
    ensures KeptUtility(input, a, limit) == KeptUtility(input, b, limit)
  {
    if limit > 0 {
      UtilityCarriesOver(input, a, b, limit - 1);
      MembershipTests(a, b, input.remaining[limit - 1].ordinal, 0, 0);
    }
  }

  lemma {:induction false} SkipCountCarriesOver(input: SearchInput, a: seq<Decision>, b: seq<Decision>, rank: int, limit: nat)
    requires SameMembers(a, b) && limit <= |input.remaining|
    ensures SkipCount(input, a, rank, limit) == SkipCount(input, b, rank, limit)
  {
    if limit > 0 {
      SkipCountCarriesOver(input, a, b, rank, limit - 1);
      MembershipTests(a, b, input.remaining[limit - 1].ordinal, 0, 0);
    }
  }

  lemma {:induction false} SkipCountsCarryOver(input: SearchInput, a: seq<Decision>, b: seq<Decision>, ranks: seq<int>)
    requires SameMembers(a, b)
    ensures SkipCounts(input, a, ranks) == SkipCounts(input, b, ranks)
  {
    forall r | 0 <= r < |ranks|
      ensures SkipCount(input, a, ranks[r], |input.remaining|) == SkipCount(input, b, ranks[r], |input.remaining|)
    {
      SkipCountCarriesOver(input, a, b, ranks[r], |input.remaining|);
    }
  }

  lemma {:induction false} ChangedCountCarriesOver(input: SearchInput, a: seq<Decision>, b: seq<Decision>, limit: nat)
    requires input.Valid() && Known(input, a) && Known(input, b) && limit <= |input.remaining|
    requires SameMembers(a, b) && Visits(a) == Visits(b)
    ensures ChangedCount(input, a, limit) == ChangedCount(input, b, limit)
  {
    if limit > 0 {
      ChangedCountCarriesOver(input, a, b, limit - 1);
      var x := input.remaining[limit - 1];
      MembershipTests(a, b, x.ordinal, x.segment.start.GetOr(0), x.segment.end.GetOr(0));
    }
  }

  lemma {:induction false} InsertOrdinals(d: Decision, s: seq<Decision>)
    ensures multiset(OrdinalsOf(Insert(ByOrdinal, d, s))) == multiset(OrdinalsOf(s)) + multiset{d.ordinal}
  {
    if s == [] || ByOrdinal(d, s[0]) {
      assert OrdinalsOf([d] + s) == [d.ordinal] + OrdinalsOf(s);
    } else {
      var rest := Insert(ByOrdinal, d, s[1..]);
      InsertOrdinals(d, s[1..]);
      assert OrdinalsOf([s[0]] + rest) == [s[0].ordinal] + OrdinalsOf(rest);
      assert OrdinalsOf(s) == [s[0].ordinal] + OrdinalsOf(s[1..]);
    }
  }

  lemma {:induction false} SortOrdinals(s: seq<Decision>)
    ensures multiset(OrdinalsOf(Sort(ByOrdinal, s))) == multiset(OrdinalsOf(s))
  {
    if s != [] {
      SortOrdinals(s[1..]);
      InsertOrdinals(s[0], Sort(ByOrdinal, s[1..]));
      assert OrdinalsOf(s) == [s[0].ordinal] + OrdinalsOf(s[1..]);
    }
  }

  lemma {:induction false} KeyCarriesOver(ds: seq<Decision>)
    ensures KeyOf(CanonicalForm(ds)) == KeyOf(ds)
  {
    CanonicalHalves(ds);
    var before, after := OrdinalsOf(Skips(ds)), OrdinalsOf(Sort(ByOrdinal, Skips(ds)));
    SortOrdinals(Skips(ds));
    IntStrictTotal();
    StrictTotalIsStrictOrder(IntLess);
    SortSorts(IntLess, before);
    SortIsTheSortedPermutation(IntLess, after, Sort(IntLess, before));
  }

  lemma {:induction false} ScoreOfCarriesOver(input: SearchInput, a: seq<Decision>, b: seq<Decision>, chain: Chain)
    requires Acceptable(input, a) && Acceptable(input, b) && SameMembers(a, b)
    requires Visits(a) == Visits(b) && KeyOf(a) == KeyOf(b)
    ensures ScoreOf(input, a, chain) == ScoreOf(input, b, chain)
  {
    UtilityCarriesOver(input, a, b, |input.remaining|);
    SkipCountsCarryOver(input, a, b, Ranks(input));
    ChangedCountCarriesOver(input, a, b, |input.remaining|);
  }

  /** The score, canonical key included, is invariant under canonical reordering. */
  lemma {:induction false} CanonicalFormScoresTheSame(input: SearchInput, ds: seq<Decision>)
    ensures ScoreCandidate(input, CanonicalForm(ds)) == ScoreCandidate(input, ds)
  {
    var canonical := CanonicalForm(ds);
    CanonicalHalves(ds);
    AcceptableCarriesOver(input, ds, canonical);
    if Acceptable(input, ds) {
      KeyCarriesOver(ds);
      if ChainOf(input, ds).Some? {
        ScoreOfCarriesOver(input, ds, canonical, ChainOf(input, ds).value);
      }
    }
  }

  ghost predicate OrdinalsAscend(s: seq<Decision>) {
    forall i, j | 0 <= i < j < |s| :: s[i].ordinal < s[j].ordinal
  }

  /** Skips are in strictly ascending ordinal order after the visits. */
  lemma {:induction false} CanonicalSkipsAscend(input: SearchInput, ds: seq<Decision>)
    requires Known(input, ds)
    ensures OrdinalsAscend(Sort(ByOrdinal, Skips(ds)))
  {
    var skips := Sort(ByOrdinal, Skips(ds));
    SortSorts(ByOrdinal, Skips(ds));
    CanonicalHalves(ds);
    KnownCarriesOver(input, ds, CanonicalForm(ds));
    HalvesAreKnown(input, CanonicalForm(ds));
    forall i, j | 0 <= i < j < |skips| ensures skips[i].ordinal < skips[j].ordinal {
      assert !ByOrdinal(skips[j], skips[i]);
    }
  }
}

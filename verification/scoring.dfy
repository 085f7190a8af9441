/** What a sequence of decisions is worth.  The score is defined here from its
    two independent halves: the chain of scheduled visits, whose order matters,
    and the set of skipped activities, whose order does not. */
module Scoring {
  import opened Domain
  import opened Sorting
  import opened PlannerInput
  import opened Alternatives
  import opened CandidateScores

  // ----- the two halves of a decision sequence -----

  function Visits(ds: seq<Decision>): seq<Decision> {
    if ds == [] then []
    else
      var front, last := Visits(ds[..|ds| - 1]), ds[|ds| - 1];
      if last.kind == 0 then front + [last] else front
  }

  function Skips(ds: seq<Decision>): seq<Decision> {
    if ds == [] then []
    else
      var front, last := Skips(ds[..|ds| - 1]), ds[|ds| - 1];
      if last.kind == 0 then front else front + [last]
  }

  /** Each decision names a suffix activity, and no activity is decided twice. */
  predicate Known(input: SearchInput, ds: seq<Decision>) {
    && (forall k | 0 <= k < |ds| :: input.IndexOf(ds[k].ordinal).Some? && ds[k].kind <= 1)
    && (forall i, j | 0 <= i < j < |ds| :: ds[i].ordinal != ds[j].ordinal)
  }

  predicate SkipAllowed(input: SearchInput, d: Decision)
    requires input.IndexOf(d.ordinal).Some?
  {
    d.start == 0 && d.end == 0 && !input.remaining[input.IndexOf(d.ordinal).value].Protected()
  }

  predicate SkipsAllowed(input: SearchInput, ds: seq<Decision>)
    requires Known(input, ds)
  {
    forall k | 0 <= k < |ds| && ds[k].kind != 0 :: SkipAllowed(input, ds[k])
  }

  // ----- the chain of scheduled visits -----

  /** Where the traveller stands after some visits, and the totals so far. */
  datatype Chain = Chain(at: nat, end: int64, travel: int64, shortfall: int64, lateness: int64, shift: int64)

  function ChainStart(input: SearchInput): Chain {
    Chain(0, input.SuffixStart(), 0, 0, 0, 0)
  }

  function Accumulate(total: int64, amount: Option<int64>): Option<int64> {
    if amount.None? then None else CheckedAdd(total, amount.value)
  }

  function ArrivalAt(input: SearchInput, at: nat, end: int64, index: nat): Option<int64>
    requires input.Valid() && at <= |input.remaining| && index < |input.remaining|
  {
    var travel := input.TravelMs(at, index + 1);
    if travel.None? then None else CheckedAdd(end, travel.value)
  }

  function LatenessAnchor(a: PlanningActivity): Option<int64> {
    if a.activity.timing.reservation.Some? then a.activity.timing.reservation
    else if a.BaselineScheduled() then a.segment.start
    else None
  }

  function LatenessOf(a: PlanningActivity, start: int64): Option<int64> {
    var anchor := LatenessAnchor(a);
    if anchor.Some? && start > anchor.value then CheckedSubtract(start, anchor.value) else Some(0)
  }

  function ShortfallOf(a: PlanningActivity, start: int64, end: int64): Option<int64> {
    var duration := CheckedSubtract(end, start);
    var preferred := Milliseconds(a.activity.timing.preferredSeconds);
    if duration.None? || preferred <= 0 then None
    else if duration.value < preferred then
      CheckedArithmeticIsExact(end, start);
      CheckedSubtract(preferred, duration.value)
    else Some(0)
  }

  function ShiftOf(a: PlanningActivity, start: int64): Option<int64>
    requires a.Valid()
  {
    if a.BaselineScheduled() then CheckedAbsoluteDifference(start, a.segment.start.value) else Some(0)
  }

  /** The chain with one visit's costs added, or nothing on overflow. */
  function WithCosts(c: Chain, d: Decision, index: nat, a: PlanningActivity, travelMs: Option<int64>): (r: Option<Chain>)
    requires a.Valid()
    ensures r.Some? ==> r.value.at == index + 1
  {
    var travel := Accumulate(c.travel, travelMs);
    var shortfall := Accumulate(c.shortfall, ShortfallOf(a, d.start, d.end));
    var lateness := Accumulate(c.lateness, LatenessOf(a, d.start));
    var shift := Accumulate(c.shift, ShiftOf(a, d.start));
    if travel.None? || shortfall.None? || lateness.None? || shift.None? then None
    else Some(Chain(index + 1, d.end, travel.value, shortfall.value, lateness.value, shift.value))
  }

  /** Visits one more activity; nothing if the visit is not one of the offered
      intervals or a total overflows. */
  function Leg(input: SearchInput, c: Chain, d: Decision): (r: Option<Chain>)
    requires input.Valid() && c.at <= |input.remaining| && input.IndexOf(d.ordinal).Some?
    ensures r.Some? ==> r.value.at <= |input.remaining|
  {
    var index := input.IndexOf(d.ordinal).value;
    var a := input.remaining[index];
    var arrival := ArrivalAt(input, c.at, c.end, index);
    if d.start >= d.end || arrival.None? || !Offers(AlternativesFor(input, a, arrival.value), d.start, d.end) then None
    else WithCosts(c, d, index, a, input.TravelMs(c.at, index + 1))
  }

  function Run(input: SearchInput, visits: seq<Decision>): (r: Option<Chain>)
    requires input.Valid()
    requires forall k | 0 <= k < |visits| :: input.IndexOf(visits[k].ordinal).Some?
    ensures r.Some? ==> r.value.at <= |input.remaining|
  {
    if visits == [] then Some(ChainStart(input))
    else
      var before := Run(input, visits[..|visits| - 1]);
      if before.None? then None else Leg(input, before.value, visits[|visits| - 1])
  }

  // ----- what the decisions do to each activity -----

  predicate SkippedIn(ds: seq<Decision>, ordinal: nat) {
    exists d | d in ds :: d.kind != 0 && d.ordinal == ordinal
  }

  predicate ScheduledIn(ds: seq<Decision>, ordinal: nat) {
    exists d | d in ds :: d.kind == 0 && d.ordinal == ordinal
  }

  predicate ScheduledAt(ds: seq<Decision>, ordinal: nat, start: int64, end: int64) {
    exists d | d in ds :: d.kind == 0 && d.ordinal == ordinal && d.start == start && d.end == end
  }

  /** Suffix positions scheduled both by the current plan and by the visits, in visiting order. */
  function CommonOrder(input: SearchInput, visits: seq<Decision>): (r: seq<nat>)
    requires forall k | 0 <= k < |visits| :: input.IndexOf(visits[k].ordinal).Some?
    ensures forall k | 0 <= k < |r| :: r[k] < |input.remaining|
  {
    if visits == [] then []
    else
      var front := CommonOrder(input, visits[..|visits| - 1]);
      var index := input.IndexOf(visits[|visits| - 1].ordinal).value;
      if input.remaining[index].BaselineScheduled() then front + [index] else front
  }

  /** How many members of a list of positions lie below a position. */
  function CountBelow(positions: seq<nat>, limit: nat): nat {
    if limit == 0 then 0
    else CountBelow(positions, limit - 1) + if limit - 1 in positions then 1 else 0
  }

  /** The activity's place among the activities both plans schedule differs. */
  predicate OutOfPlace(common: seq<nat>, index: nat) {
    exists p | 0 <= p < |common| :: common[p] == index && p != CountBelow(common, index)
  }

  predicate ChangedBy(input: SearchInput, ds: seq<Decision>, index: nat)
    requires input.Valid() && Known(input, ds) && index < |input.remaining|
  {
    VisitsKnown(input, ds);
    var a := input.remaining[index];
    if a.BaselineScheduled() then
      || SkippedIn(ds, a.ordinal)
      || (ScheduledIn(ds, a.ordinal) && !ScheduledAt(ds, a.ordinal, a.segment.start.value, a.segment.end.value))
      || OutOfPlace(CommonOrder(input, Visits(ds)), index)
    else ScheduledIn(ds, a.ordinal)
  }

  // ----- totals over the suffix -----

  function KeptUtility(input: SearchInput, ds: seq<Decision>, limit: nat): int
    requires limit <= |input.remaining|
  {
    if limit == 0 then 0
    else
      var a := input.remaining[limit - 1];
      KeptUtility(input, ds, limit - 1) + if SkippedIn(ds, a.ordinal) then 0 else a.activity.utility
  }

  function SkipCount(input: SearchInput, ds: seq<Decision>, rank: int, limit: nat): nat
    requires limit <= |input.remaining|
  {
    if limit == 0 then 0
    else
      var a := input.remaining[limit - 1];
      SkipCount(input, ds, rank, limit - 1) +
      if SkippedIn(ds, a.ordinal) && a.activity.priorityRank == rank then 1 else 0
  }

  function ChangedCount(input: SearchInput, ds: seq<Decision>, limit: nat): nat
    requires input.Valid() && Known(input, ds) && limit <= |input.remaining|
  {
    if limit == 0 then 0
    else ChangedCount(input, ds, limit - 1) + if ChangedBy(input, ds, limit - 1) then 1 else 0
  }

  function RankList(input: SearchInput): seq<int> {
    seq(|input.remaining|, i requires 0 <= i < |input.remaining| => input.remaining[i].activity.priorityRank)
  }

  function Dedupe(s: seq<int>): (r: seq<int>)
    ensures s == [] <==> r == []
    ensures s != [] ==> r[|r| - 1] == s[|s| - 1]
  {
    if s == [] then []
    else
      var kept := Dedupe(s[..|s| - 1]);
      if kept != [] && kept[|kept| - 1] == s[|s| - 1] then kept else kept + [s[|s| - 1]]
  }

  /** The distinct priority ranks of the suffix, most important first. */
  function Ranks(input: SearchInput): seq<int> {
    Dedupe(Sort(IntLess, RankList(input)))
  }

  function SkipCounts(input: SearchInput, ds: seq<Decision>, ranks: seq<int>): seq<int> {
    seq(|ranks|, r requires 0 <= r < |ranks| => SkipCount(input, ds, ranks[r], |input.remaining|))
  }

  function OrdinalsOf(ds: seq<Decision>): seq<int> {
    seq(|ds|, k requires 0 <= k < |ds| => ds[k].ordinal)
  }

  function EntriesOf(ds: seq<Decision>): seq<Entry> {
    seq(|ds|, k requires 0 <= k < |ds| => Entry(ds[k].ordinal, ds[k].start, ds[k].end))
  }

  function KeyOf(ds: seq<Decision>): PlanKey {
    PlanKey(OrdinalsOf(Visits(ds)), EntriesOf(Visits(ds)), Sort(IntLess, OrdinalsOf(Skips(ds))))
  }

  predicate Acceptable(input: SearchInput, ds: seq<Decision>) {
    input.Valid() && |ds| <= |input.remaining| && Known(input, ds) && SkipsAllowed(input, ds)
  }

  function ScoreOf(input: SearchInput, ds: seq<Decision>, chain: Chain): Score
    requires Acceptable(input, ds)
  {
    var n := |input.remaining|;
    Score(SkipCounts(input, ds, Ranks(input)), KeptUtility(input, ds, n), chain.lateness, chain.shortfall,
          chain.travel, ChangedCount(input, ds, n), chain.shift, chain.end, KeyOf(ds))
  }

  /** The decisions are legal so far and no total overflowed. */
  predicate Accepted(input: SearchInput, ds: seq<Decision>) {
    Acceptable(input, ds) && ChainOf(input, ds).Some?
  }

  function ChainOf(input: SearchInput, ds: seq<Decision>): (r: Option<Chain>)
    requires input.Valid() && Known(input, ds)
    ensures r.Some? ==> r.value.at <= |input.remaining|
  {
    VisitsKnown(input, ds);
    Run(input, Visits(ds))
  }

  /** The score of a decision sequence, or nothing if it is not accepted. */
  function ScoreCandidate(input: SearchInput, ds: seq<Decision>): Option<Score> {
    if Accepted(input, ds) then Some(ScoreOf(input, ds, ChainOf(input, ds).value)) else None
  }

  // ----- basic facts -----

  lemma {:induction false} VisitsMembers(ds: seq<Decision>)
    ensures forall d :: d in Visits(ds) <==> d in ds && d.kind == 0
    ensures forall d :: d in Skips(ds) <==> d in ds && d.kind != 0
    ensures |Visits(ds)| + |Skips(ds)| == |ds|
  {
    if ds != [] {
      VisitsMembers(ds[..|ds| - 1]);
      assert ds == ds[..|ds| - 1] + [ds[|ds| - 1]];
    }
  }

  lemma {:induction false} VisitsKnown(input: SearchInput, ds: seq<Decision>)
    requires Known(input, ds)
    ensures forall k | 0 <= k < |Visits(ds)| :: input.IndexOf(Visits(ds)[k].ordinal).Some?
  {
    VisitsMembers(ds);
    forall k | 0 <= k < |Visits(ds)| ensures input.IndexOf(Visits(ds)[k].ordinal).Some? {
      assert Visits(ds)[k] in ds;
    }
  }

  lemma {:induction false} VisitsAppend(ds: seq<Decision>, d: Decision)
    ensures Visits(ds + [d]) == if d.kind == 0 then Visits(ds) + [d] else Visits(ds)
    ensures Skips(ds + [d]) == if d.kind == 0 then Skips(ds) else Skips(ds) + [d]
  {
    assert (ds + [d])[..|ds|] == ds;
  }

  lemma {:induction false} RunAppend(input: SearchInput, front: seq<Decision>, last: Decision)
    requires input.Valid() && input.IndexOf(last.ordinal).Some?
    requires forall k | 0 <= k < |front| :: input.IndexOf(front[k].ordinal).Some?
    ensures forall k | 0 <= k < |front + [last]| :: input.IndexOf((front + [last])[k].ordinal).Some?
    ensures Run(input, front + [last])
         == if Run(input, front).None? then None else Leg(input, Run(input, front).value, last)
  {
    assert (front + [last])[..|front|] == front;
  }

  /** The last leg of a run starts where the run before it ends. */
  lemma {:induction false} RunLast(input: SearchInput, visits: seq<Decision>, front: seq<Decision>)
    requires input.Valid() && visits != [] && front == visits[..|visits| - 1]
    requires forall j | 0 <= j < |visits| :: input.IndexOf(visits[j].ordinal).Some?
    requires Run(input, visits).Some?
    ensures forall j | 0 <= j < |front| :: input.IndexOf(front[j].ordinal).Some?
    ensures Run(input, front).Some? && Run(input, visits) == Leg(input, Run(input, front).value, visits[|visits| - 1])
  {
  }

  lemma {:induction false} RunPrefix(input: SearchInput, visits: seq<Decision>, shorter: seq<Decision>)
    requires input.Valid() && shorter <= visits
    requires forall j | 0 <= j < |visits| :: input.IndexOf(visits[j].ordinal).Some?
    requires Run(input, visits).Some?
    ensures Run(input, shorter).Some?
    decreases |visits|
  {
    if |shorter| == |visits| {
      assert shorter == visits;
    } else {
      var front := visits[..|visits| - 1];
      assert shorter <= front;
      RunLast(input, visits, front);
      RunPrefix(input, front, shorter);
    }
  }

  lemma {:induction false} RunTake(input: SearchInput, visits: seq<Decision>, k: nat)
    requires input.Valid() && k <= |visits|
    requires forall j | 0 <= j < |visits| :: input.IndexOf(visits[j].ordinal).Some?
    requires Run(input, visits).Some?
    ensures Run(input, visits[..k]).Some?
  {
    RunPrefix(input, visits, visits[..k]);
  }

  /** The chain grows by one leg per scheduled decision. */
  lemma {:induction false} ChainAppend(input: SearchInput, ds: seq<Decision>, d: Decision)
    requires input.Valid() && Known(input, ds) && Known(input, ds + [d])
    ensures input.IndexOf(d.ordinal).Some?
    ensures ChainOf(input, ds + [d])
         == if d.kind != 0 then ChainOf(input, ds)
            else if ChainOf(input, ds).None? then None
            else Leg(input, ChainOf(input, ds).value, d)
  {
    VisitsAppend(ds, d);
    VisitsKnown(input, ds);
    VisitsKnown(input, ds + [d]);
    assert (ds + [d])[|ds|] == d;
    if d.kind == 0 {
      assert (Visits(ds) + [d])[..|Visits(ds)|] == Visits(ds);
    }
  }

  lemma {:induction false} KnownAppend(input: SearchInput, ds: seq<Decision>, d: Decision)
    ensures Known(input, ds + [d]) <==>
            Known(input, ds) && input.IndexOf(d.ordinal).Some? && d.kind <= 1 && !Decided(ds, d.ordinal)
  {
    var all := ds + [d];
    if Known(input, all) {
      assert all[|ds|] == d;
      forall k | 0 <= k < |ds| ensures input.IndexOf(ds[k].ordinal).Some? && ds[k].kind <= 1 { assert all[k] == ds[k]; }
      forall i, j | 0 <= i < j < |ds| ensures ds[i].ordinal != ds[j].ordinal { assert all[i] == ds[i] && all[j] == ds[j]; }
      forall k | 0 <= k < |ds| ensures ds[k].ordinal != d.ordinal { assert all[k] == ds[k]; }
    }
    if Known(input, ds) && input.IndexOf(d.ordinal).Some? && d.kind <= 1 && !Decided(ds, d.ordinal) {
      forall i, j | 0 <= i < j < |all| ensures all[i].ordinal != all[j].ordinal {
        if j == |ds| { assert ds[i] in ds; }
      }
    }
  }

  predicate Decided(ds: seq<Decision>, ordinal: nat) {
    exists d | d in ds :: d.ordinal == ordinal
  }

  lemma {:induction false} SkipsAllowedAppend(input: SearchInput, ds: seq<Decision>, d: Decision)
    requires Known(input, ds) && Known(input, ds + [d])
    ensures input.IndexOf(d.ordinal).Some?
    ensures SkipsAllowed(input, ds + [d]) <==> SkipsAllowed(input, ds) && (d.kind != 0 ==> SkipAllowed(input, d))
  {
    var all := ds + [d];
    assert all[|ds|] == d;
    if SkipsAllowed(input, all) {
      forall k | 0 <= k < |ds| && ds[k].kind != 0 ensures SkipAllowed(input, ds[k]) { assert all[k] == ds[k]; }
    }
  }

  /** Accepting one more decision is accepting the prefix and then either one
      leg from where it stands or one permitted skip. */
  lemma {:induction false} AcceptedAppend(input: SearchInput, ds: seq<Decision>, d: Decision)
    ensures Accepted(input, ds + [d]) <==>
            && Accepted(input, ds)
            && |ds| < |input.remaining|
            && input.IndexOf(d.ordinal).Some?
            && !Decided(ds, d.ordinal)
            && d.kind <= 1
            && (d.kind == 1 ==> SkipAllowed(input, d))
            && (d.kind == 0 ==> Leg(input, ChainOf(input, ds).value, d).Some?)
  {
    KnownAppend(input, ds, d);
    if input.Valid() && Known(input, ds) && Known(input, ds + [d]) {
      SkipsAllowedAppend(input, ds, d);
      ChainAppend(input, ds, d);
    }
  }

  lemma {:induction false} VisitsOnly(visits: seq<Decision>)
    requires forall k | 0 <= k < |visits| :: visits[k].kind == 0
    ensures Visits(visits) == visits && Skips(visits) == []
  {
    if visits != [] {
      var front, last := visits[..|visits| - 1], visits[|visits| - 1];
      VisitsOnly(front);
      VisitsAppend(front, last);
      assert visits == front + [last];
    }
  }

  lemma {:induction false} VisitsThenSkips(visits: seq<Decision>, skips: seq<Decision>)
    requires forall k | 0 <= k < |visits| :: visits[k].kind == 0
    requires forall k | 0 <= k < |skips| :: skips[k].kind != 0
    ensures Visits(visits + skips) == visits && Skips(visits + skips) == skips
  {
    if skips == [] {
      assert visits + skips == visits;
      VisitsOnly(visits);
    } else {
      var front, last := skips[..|skips| - 1], skips[|skips| - 1];
      VisitsThenSkips(visits, front);
      VisitsAppend(visits + front, last);
      assert visits + skips == (visits + front) + [last] && skips == front + [last];
    }
  }

  /** Both halves of a known sequence name distinct activities, and share none. */
  lemma {:induction false} HalvesAreKnown(input: SearchInput, ds: seq<Decision>)
    requires Known(input, ds)
    ensures forall i, j | 0 <= i < j < |Visits(ds)| :: Visits(ds)[i].ordinal != Visits(ds)[j].ordinal
    ensures forall i, j | 0 <= i < j < |Skips(ds)| :: Skips(ds)[i].ordinal != Skips(ds)[j].ordinal
    ensures forall i, j | 0 <= i < |Visits(ds)| && 0 <= j < |Skips(ds)| :: Visits(ds)[i].ordinal != Skips(ds)[j].ordinal
  {
    if ds != [] {
      var front, last := ds[..|ds| - 1], ds[|ds| - 1];
      assert ds == front + [last];
      KnownAppend(input, front, last);
      HalvesAreKnown(input, front);
      VisitsMembers(front);
      forall k | 0 <= k < |Visits(front)| ensures Visits(front)[k].ordinal != last.ordinal {
        assert Visits(front)[k] in front;
      }
      forall k | 0 <= k < |Skips(front)| ensures Skips(front)[k].ordinal != last.ordinal {
        assert Skips(front)[k] in front;
      }
    }
  }

  lemma {:induction false} KnownTake(input: SearchInput, ds: seq<Decision>, k: nat)
    requires Known(input, ds) && k <= |ds|
    ensures Known(input, ds[..k])
  {
    assert forall i | 0 <= i < k :: ds[..k][i] == ds[i];
  }

  lemma {:induction false} KnownVisits(input: SearchInput, ds: seq<Decision>)
    requires Known(input, ds)
    ensures Known(input, Visits(ds))
  {
    VisitsKnown(input, ds);
    HalvesAreKnown(input, ds);
    VisitsMembers(ds);
    forall k | 0 <= k < |Visits(ds)| ensures Visits(ds)[k].kind <= 1 { assert Visits(ds)[k] in Visits(ds); }
  }

  /** The members of a list of positions that lie below a limit, ascending. */
  function PlanOrder(common: seq<nat>, limit: nat): (r: seq<nat>)
    ensures forall k | 0 <= k < |r| :: r[k] < limit
    ensures |r| == CountBelow(common, limit)
  {
    if limit == 0 then []
    else if limit - 1 in common then PlanOrder(common, limit - 1) + [limit - 1]
    else PlanOrder(common, limit - 1)
  }

  lemma {:induction false} PlanOrderPosition(common: seq<nat>, limit: nat, i: nat)
    requires i < limit && i in common
    ensures CountBelow(common, i) < |PlanOrder(common, limit)| && PlanOrder(common, limit)[CountBelow(common, i)] == i
    ensures Distinct(PlanOrder(common, limit))
  {
    PlanOrderDistinct(common, limit);
    if i < limit - 1 {
      PlanOrderPosition(common, limit - 1, i);
    }
  }

  lemma {:induction false} PlanOrderDistinct(common: seq<nat>, limit: nat)
    ensures Distinct(PlanOrder(common, limit))
  {
    if limit > 0 { PlanOrderDistinct(common, limit - 1); }
  }
}

/** The finite set of start times offered for one activity, and why looking at
    no other start time loses nothing. */
module Alternatives {
  import opened Domain
  import opened PlannerInput
  import opened Sorting

  /** A scheduled interval, or dropping the activity (with both times zero). */
  datatype Alternative = Alternative(scheduled: bool, ordinal: nat, start: int64, end: int64, exact: bool)

  // ----- what the hard constraints ask of an interval -----

  /** The planning contract's hard constraints on where one activity may sit,
      over unbounded integers and without reference to how starts are found. */
  ghost predicate MayOccupy(input: SearchInput, a: PlanningActivity, start: int, end: int) {
    var t := a.activity.timing;
    && a.activity.foundClosedAt.None?
    && start < end
    && end - start == ContractDuration(a)
    && t.minSeconds * 1000 <= end - start <= t.maxSeconds * 1000
    && input.horizonStart <= start && end <= input.horizonEnd
    && (t.reservation.Some? ==>
          t.reservation.value <= start <= t.reservation.value + t.graceSeconds * 1000)
    && (t.deadline.Some? ==> end <= t.deadline.value)
    && (exists w | w in t.windows :: w.opens <= start && end <= w.closes)
    && (!t.canMove ==> AtBaseline(a, start, end))
    && (a.activity.activityClass.Fixed? ==> AtBaseline(a, start, end) || (t.reservation.Some? && a.segment.state.Omitted?))
  }

  /** A scheduled activity keeps its length; one added back takes its preferred
      duration, at least a second. */
  ghost function ContractDuration(a: PlanningActivity): int {
    if a.BaselineScheduled() && a.segment.start.Some? && a.segment.end.Some?
    then a.segment.end.value - a.segment.start.value
    else Max(1, a.activity.timing.preferredSeconds) * 1000
  }

  predicate MustKeepInterval(a: PlanningActivity) {
    !a.activity.timing.canMove || (a.activity.activityClass.Fixed? && a.BaselineScheduled())
  }

  ghost predicate AtBaseline(a: PlanningActivity, start: int, end: int) {
    a.BaselineScheduled() && a.segment.start == Some(start) && a.segment.end == Some(end)
  }

  // ----- the checks of the implementation -----

  predicate InReservationRange(t: Timing, start: int64) {
    t.reservation.None? ||
    var latest := CheckedAdd(t.reservation.value, Milliseconds(t.graceSeconds));
    latest.Some? && t.reservation.value <= start <= latest.value
  }

  function ContainingWindow(windows: seq<Window>, start: int64): Option<Window> {
    if windows == [] then None
    else if windows[0].opens <= start < windows[0].closes then Some(windows[0])
    else ContainingWindow(windows[1..], start)
  }

  predicate LocallyFeasible(input: SearchInput, a: PlanningActivity, arrival: int64, start: int64, end: int64) {
    var t := a.activity.timing;
    var duration := CheckedSubtract(end, start);
    var window := ContainingWindow(t.windows, start);
    && a.activity.foundClosedAt.None?
    && start < end
    && arrival <= start
    && input.horizonStart <= start
    && end <= input.horizonEnd
    && InReservationRange(t, start)
    && (t.deadline.Some? ==> end <= t.deadline.value)
    && duration.Some?
    && Milliseconds(t.minSeconds) <= duration.value <= Milliseconds(t.maxSeconds)
    && window.Some? && end <= window.value.closes
  }

  predicate HasRoom(input: SearchInput, a: PlanningActivity, w: Window, start: int64) {
    var t := a.activity.timing;
    && InReservationRange(t, start)
    && input.horizonStart <= start < input.horizonEnd
    && start < w.closes
    && (t.deadline.Some? ==> start < t.deadline.value)
  }

  function FixedDuration(a: PlanningActivity): Option<int64>
    requires a.Valid()
  {
    if a.BaselineScheduled() then CheckedSubtract(a.segment.end.value, a.segment.start.value)
    else Some(Milliseconds(Max(1, a.activity.timing.preferredSeconds)))
  }

  function GeneratedInterval(input: SearchInput, a: PlanningActivity, arrival: int64, w: Window, start: int64)
    : seq<Alternative>
    requires a.Valid()
  {
    if !HasRoom(input, a, w, start) then []
    else
      var duration := FixedDuration(a);
      var end := if duration.Some? then CheckedAdd(start, duration.value) else None;
      if end.None? || !LocallyFeasible(input, a, arrival, start, end.value) then []
      else [Alternative(true, a.ordinal, start, end.value, false)]
  }

  function ExactInterval(input: SearchInput, a: PlanningActivity, arrival: int64): seq<Alternative>
    requires a.Valid()
  {
    if a.BaselineScheduled() && LocallyFeasible(input, a, arrival, a.segment.start.value, a.segment.end.value)
    then [Alternative(true, a.ordinal, a.segment.start.value, a.segment.end.value, true)]
    else []
  }

  function EarliestStart(a: PlanningActivity, arrival: int64, w: Window): int64 {
    var t := a.activity.timing;
    var reachable := Max(arrival, w.opens);
    if t.reservation.Some? then Max(reachable, t.reservation.value) else reachable
  }

  predicate OffersBaselineStart(a: PlanningActivity) {
    a.activity.activityClass.Flexible? && a.BaselineScheduled()
  }

  function WindowIntervals(input: SearchInput, a: PlanningActivity, arrival: int64, w: Window): seq<Alternative>
    requires a.Valid()
  {
    var earliest := EarliestStart(a, arrival, w);
    GeneratedInterval(input, a, arrival, w, earliest) +
    if OffersBaselineStart(a) && a.segment.start.value != earliest && arrival <= a.segment.start.value
       && w.opens <= a.segment.start.value < w.closes
    then GeneratedInterval(input, a, arrival, w, a.segment.start.value)
    else []
  }

  function AllWindowIntervals(input: SearchInput, a: PlanningActivity, arrival: int64, windows: seq<Window>)
    : seq<Alternative>
    requires a.Valid()
  {
    if windows == [] then []
    else
      AllWindowIntervals(input, a, arrival, windows[..|windows| - 1]) +
      WindowIntervals(input, a, arrival, windows[|windows| - 1])
  }

  function RawIntervals(input: SearchInput, a: PlanningActivity, arrival: int64): seq<Alternative>
    requires a.Valid()
  {
    if MustKeepInterval(a) then ExactInterval(input, a, arrival)
    else if a.activity.activityClass.Flexible? || a.activity.timing.reservation.Some? then
      AllWindowIntervals(input, a, arrival, a.activity.timing.windows) +
      if OffersBaselineStart(a) then ExactInterval(input, a, arrival) else []
    else []
  }

  /** Ascending start; at one start the unchanged interval first, then the longer. */
  predicate AlternativeLess(l: Alternative, r: Alternative) {
    if l.start != r.start then l.start < r.start
    else if l.exact != r.exact then l.exact
    else l.end > r.end
  }

  predicate SameInterval(l: Alternative, r: Alternative) {
    l.scheduled == r.scheduled && l.ordinal == r.ordinal && l.start == r.start && l.end == r.end
  }

  /** Drops each element equal to the one kept before it. */
  function Unique(s: seq<Alternative>): (r: seq<Alternative>)
    ensures s == [] <==> r == []
    ensures s != [] ==> SameInterval(r[|r| - 1], s[|s| - 1])
  {
    if s == [] then []
    else
      var kept := Unique(s[..|s| - 1]);
      if kept != [] && SameInterval(kept[|kept| - 1], s[|s| - 1]) then kept else kept + [s[|s| - 1]]
  }

  function SkipAlternative(a: PlanningActivity): seq<Alternative> {
    if a.Protected() then [] else [Alternative(false, a.ordinal, 0, 0, false)]
  }

  /** The alternatives of one activity, in the order a parent considers them. */
  function AlternativesFor(input: SearchInput, a: PlanningActivity, arrival: int64): seq<Alternative>
    requires a.Valid()
  {
    Unique(Sort(AlternativeLess, RawIntervals(input, a, arrival))) + SkipAlternative(a)
  }

  predicate Offers(alternatives: seq<Alternative>, start: int64, end: int64) {
    exists k | 0 <= k < |alternatives| ::
      alternatives[k].scheduled && alternatives[k].start == start && alternatives[k].end == end
  }

  predicate OffersAny(alternatives: seq<Alternative>) {
    exists k | 0 <= k < |alternatives| :: alternatives[k].scheduled
  }

  /** One round of the generator's window loop. */
  method AddWindowIntervals(input: SearchInput, a: PlanningActivity, arrival: int64, w: Window,
                            alternatives: seq<Alternative>)
    returns (extended: seq<Alternative>)
    requires a.Valid()
    ensures extended == alternatives + WindowIntervals(input, a, arrival, w)
  {
    extended := alternatives;
    var earliest := Max(arrival, w.opens);
    if a.activity.timing.reservation.Some? {
      earliest := Max(earliest, a.activity.timing.reservation.value);
    }
    if HasRoom(input, a, w, earliest) {
      extended := extended + GeneratedInterval(input, a, arrival, w, earliest);
    }
    if OffersBaselineStart(a) {
      var current := a.segment.start.value;
      if current != earliest && arrival <= current && w.opens <= current < w.closes
         && HasRoom(input, a, w, current) {
        extended := extended + GeneratedInterval(input, a, arrival, w, current);
      }
    }
  }

  method GenerateAlternatives(input: SearchInput, a: PlanningActivity, arrival: int64, validateInput: bool)
    returns (alternatives: seq<Alternative>)
    ensures alternatives ==
            if (validateInput && !input.Valid()) || !a.Valid() then [] else AlternativesFor(input, a, arrival)
  {
    alternatives := [];
    if (validateInput && !input.Valid()) || !a.Valid() {
      return;
    }
    var windows := a.activity.timing.windows;
    if MustKeepInterval(a) {
      alternatives := ExactInterval(input, a, arrival);
    } else if a.activity.activityClass.Flexible? || a.activity.timing.reservation.Some? {
      for i := 0 to |windows|
        invariant alternatives == AllWindowIntervals(input, a, arrival, windows[..i])
      {
        alternatives := AddWindowIntervals(input, a, arrival, windows[i], alternatives);
        assert windows[..i + 1][..i] == windows[..i];
      }
      assert windows[..|windows|] == windows;
      if OffersBaselineStart(a) {
        alternatives := alternatives + ExactInterval(input, a, arrival);
      }
    }
    assert alternatives == RawIntervals(input, a, arrival);
    alternatives := Unique(Sort(AlternativeLess, alternatives));
    if !a.activity.timing.mandatory && a.activity.timing.canSkip {
      alternatives := alternatives + SkipAlternative(a);
    }
  }

  // ----- what is offered -----

  /** The intervals offered after arriving at a given time, stated without the
      generator's lists: the earliest legal start of some window, or the
      baseline interval where it may be kept. */
  ghost predicate Offered(input: SearchInput, a: PlanningActivity, arrival: int64, start: int64, end: int64)
    requires a.Valid()
  {
    && LocallyFeasible(input, a, arrival, start, end)
    && FixedDuration(a) == Some(end - start)
    && if MustKeepInterval(a) then AtBaseline(a, start, end)
       else
         && (a.activity.activityClass.Flexible? || a.activity.timing.reservation.Some?)
         && ((OffersBaselineStart(a) && AtBaseline(a, start, end)) || IsEarliest(a, arrival, start))
  }

  ghost predicate IsEarliest(a: PlanningActivity, arrival: int64, start: int64) {
    exists w | w in a.activity.timing.windows :: w.opens <= start < w.closes && start == EarliestStart(a, arrival, w)
  }

  /** The loop, sort and duplicate removal offer exactly these intervals. */
  lemma {:induction false} OfferedIffGenerated(input: SearchInput, a: PlanningActivity, arrival: int64, start: int64, end: int64)
    requires a.Valid()
    ensures Offers(AlternativesFor(input, a, arrival), start, end) <==> Offered(input, a, arrival, start, end)
  {
    var raw := RawIntervals(input, a, arrival);
    var sorted := Sort(AlternativeLess, raw);
    SameElements(raw, sorted);
    OffersUnchanged(raw, sorted, start, end);
    OffersUnchanged(sorted, raw, start, end);
    UniqueOffers(sorted, start, end);
    var unique := Unique(sorted);
    assert AlternativesFor(input, a, arrival) == unique + SkipAlternative(a);
    OffersConcat(unique, SkipAlternative(a), start, end);
    assert Offers(AlternativesFor(input, a, arrival), start, end) <==> Offers(raw, start, end);
    RawOffers(input, a, arrival, start, end);
  }

  lemma {:induction false} OffersUnchanged(a: seq<Alternative>, b: seq<Alternative>, start: int64, end: int64)
    requires forall x :: x in a ==> x in b
    ensures Offers(a, start, end) ==> Offers(b, start, end)
  {
    if Offers(a, start, end) {
      var k :| 0 <= k < |a| && a[k].scheduled && a[k].start == start && a[k].end == end;
      assert a[k] in b;
      var m :| 0 <= m < |b| && b[m] == a[k];
    }
  }

  lemma {:induction false} OffersConcat(a: seq<Alternative>, b: seq<Alternative>, start: int64, end: int64)
    ensures Offers(a + b, start, end) <==> Offers(a, start, end) || Offers(b, start, end)
  {
    OffersUnchanged(a, a + b, start, end);
    OffersUnchanged(b, a + b, start, end);
  }

  lemma {:induction false} UniqueOffers(s: seq<Alternative>, start: int64, end: int64)
    ensures Offers(Unique(s), start, end) <==> Offers(s, start, end)
  {
    if s != [] {
      var front, last := s[..|s| - 1], s[|s| - 1];
      UniqueOffers(front, start, end);
      OffersConcat(Unique(front), [last], start, end);
      assert s == front + [last];
      OffersConcat(front, [last], start, end);
      var kept := Unique(front);
      if kept != [] && SameInterval(kept[|kept| - 1], last) {
        assert kept == Unique(front) && Unique(s) == kept;
        if Offers([last], start, end) {
          assert kept[|kept| - 1].scheduled;
        }
      }
    }
  }

  lemma {:induction false} IntervalOffers(input: SearchInput, a: PlanningActivity, arrival: int64, w: Window, s: int64,
                       start: int64, end: int64)
    requires a.Valid()
    ensures Offers(GeneratedInterval(input, a, arrival, w, s), start, end) <==>
            s == start && HasRoom(input, a, w, start) && FixedDuration(a) == Some(end - start)
            && LocallyFeasible(input, a, arrival, start, end)
  {
    var generated := GeneratedInterval(input, a, arrival, w, s);
    if generated != [] {
      assert generated[0].start == s;
    }
    if FixedDuration(a).Some? {
      CheckedArithmeticIsExact(s, FixedDuration(a).value);
    }
  }

  ghost predicate SomeWindowOffers(input: SearchInput, a: PlanningActivity, arrival: int64, windows: seq<Window>, start: int64, end: int64)
    requires a.Valid()
  {
    exists w | w in windows :: Offers(WindowIntervals(input, a, arrival, w), start, end)
  }

  lemma {:induction false} OneMoreWindow(input: SearchInput, a: PlanningActivity, arrival: int64, front: seq<Window>, last: Window,
                                         start: int64, end: int64)
    requires a.Valid()
    ensures SomeWindowOffers(input, a, arrival, front + [last], start, end) <==>
            SomeWindowOffers(input, a, arrival, front, start, end) || Offers(WindowIntervals(input, a, arrival, last), start, end)
  {
    var windows := front + [last];
    assert windows[|front|] == last;
    assert forall w :: w in windows <==> w in front || w == last;
  }

  lemma {:induction false} WindowsOffer(input: SearchInput, a: PlanningActivity, arrival: int64,
                                        windows: seq<Window>, start: int64, end: int64)
    requires a.Valid()
    ensures Offers(AllWindowIntervals(input, a, arrival, windows), start, end) <==>
            SomeWindowOffers(input, a, arrival, windows, start, end)
  {
    if windows != [] {
      var front, last := windows[..|windows| - 1], windows[|windows| - 1];
      WindowsOffer(input, a, arrival, front, start, end);
      OffersConcat(AllWindowIntervals(input, a, arrival, front), WindowIntervals(input, a, arrival, last), start, end);
      OneMoreWindow(input, a, arrival, front, last, start, end);
      assert windows == front + [last];
    }
  }

  lemma {:induction false} ExactOffers(input: SearchInput, a: PlanningActivity, arrival: int64, start: int64, end: int64)
    requires a.Valid()
    ensures Offers(ExactInterval(input, a, arrival), start, end) <==>
            AtBaseline(a, start, end) && LocallyFeasible(input, a, arrival, start, end)
    ensures AtBaseline(a, start, end) && LocallyFeasible(input, a, arrival, start, end) ==>
            FixedDuration(a) == Some(end - start)
  {
    CheckedArithmeticIsExact(end, start);
    var exact := ExactInterval(input, a, arrival);
    if exact != [] {
      assert exact[0].scheduled;
    }
  }

  lemma {:induction false} WindowOffers(input: SearchInput, a: PlanningActivity, arrival: int64, w: Window, start: int64, end: int64)
    requires a.Valid() && w.opens < w.closes
    ensures Offers(WindowIntervals(input, a, arrival, w), start, end) ==>
            && LocallyFeasible(input, a, arrival, start, end)
            && FixedDuration(a) == Some(end - start)
            && ((w.opens <= start < w.closes && start == EarliestStart(a, arrival, w))
                || (OffersBaselineStart(a) && AtBaseline(a, start, end)))
    ensures LocallyFeasible(input, a, arrival, start, end) && FixedDuration(a) == Some(end - start)
            && w.opens <= start < w.closes && start == EarliestStart(a, arrival, w) ==>
            Offers(WindowIntervals(input, a, arrival, w), start, end)
  {
    var earliest := EarliestStart(a, arrival, w);
    var first := GeneratedInterval(input, a, arrival, w, earliest);
    IntervalOffers(input, a, arrival, w, earliest, start, end);
    var second := WindowIntervals(input, a, arrival, w)[|first|..];
    assert WindowIntervals(input, a, arrival, w) == first + second;
    OffersConcat(first, second, start, end);
    if second != [] {
      IntervalOffers(input, a, arrival, w, a.segment.start.value, start, end);
      CheckedArithmeticIsExact(a.segment.end.value, a.segment.start.value);
    }
  }

  lemma {:induction false} RawOffers(input: SearchInput, a: PlanningActivity, arrival: int64, start: int64, end: int64)
    requires a.Valid()
    ensures Offers(RawIntervals(input, a, arrival), start, end) <==> Offered(input, a, arrival, start, end)
  {
    ExactOffers(input, a, arrival, start, end);
    if !MustKeepInterval(a) && (a.activity.activityClass.Flexible? || a.activity.timing.reservation.Some?) {
      var windows := a.activity.timing.windows;
      var generated := AllWindowIntervals(input, a, arrival, windows);
      var exact := if OffersBaselineStart(a) then ExactInterval(input, a, arrival) else [];
      OffersConcat(generated, exact, start, end);
      WindowsOffer(input, a, arrival, windows, start, end);
      forall w | w in windows ensures w.opens < w.closes {
        var k :| 0 <= k < |windows| && windows[k] == w;
      }
      forall w | w in windows {
        WindowOffers(input, a, arrival, w, start, end);
      }
    }
  }

  // ----- soundness and dominance -----

  lemma {:induction false} ContainingWindowIsOne(windows: seq<Window>, start: int64)
    ensures var w := ContainingWindow(windows, start);
            w.Some? ==> w.value in windows && w.value.opens <= start < w.value.closes
  {
    if windows != [] { ContainingWindowIsOne(windows[1..], start); }
  }

  lemma {:induction false} LaterWindowsOpenLater(windows: seq<Window>, i: nat)
    requires NormalizedWindows(windows) && i < |windows|
    ensures windows[0].opens <= windows[i].opens
    ensures i > 0 ==> windows[0].closes <= windows[i].opens
    decreases i
  {
    if i > 0 {
      LaterWindowsOpenLater(windows, i - 1);
    }
  }

  /** Normalized windows do not overlap, so the first window holding a start is the only one. */
  lemma {:induction false} ContainingWindowIsUnique(windows: seq<Window>, start: int64, w: Window)
    requires NormalizedWindows(windows) && w in windows && w.opens <= start < w.closes
    ensures ContainingWindow(windows, start) == Some(w)
  {
    var i :| 0 <= i < |windows| && windows[i] == w;
    if i > 0 {
      LaterWindowsOpenLater(windows, i);
      assert windows[1..][i - 1] == w;
      ContainingWindowIsUnique(windows[1..], start, w);
    }
  }

  /** Every offered interval meets the contract's hard constraints. */
  lemma {:induction false} OfferedIsLegal(input: SearchInput, a: PlanningActivity, arrival: int64, start: int64, end: int64)
    requires a.Valid() && Offered(input, a, arrival, start, end)
    ensures MayOccupy(input, a, start, end) && arrival <= start
  {
    ContainingWindowIsOne(a.activity.timing.windows, start);
    CheckedArithmeticIsExact(end, start);
    if a.BaselineScheduled() {
      CheckedArithmeticIsExact(a.segment.end.value, a.segment.start.value);
    }
    if a.activity.timing.reservation.Some? {
      CheckedArithmeticIsExact(a.activity.timing.reservation.value, Milliseconds(a.activity.timing.graceSeconds));
    }
  }

  /** The activity's own times do not overflow when they are combined. */
  predicate Representable(a: PlanningActivity)
    requires a.Valid()
  {
    && (a.segment.state.Scheduled? ==> InInt64(a.segment.end.value - a.segment.start.value))
    && (a.activity.timing.reservation.Some? ==>
          InInt64(a.activity.timing.reservation.value + a.activity.timing.graceSeconds * 1000))
  }

  /** The same placement, begun at the earliest start of its window, is still legal. */
  lemma {:induction false} ShiftedIsFeasible(input: SearchInput, a: PlanningActivity, arrival: int64, start: int64, end: int64, w: Window)
    requires a.Valid() && Representable(a) && MayOccupy(input, a, start, end)
    requires input.horizonStart <= arrival <= start
    requires w in a.activity.timing.windows && w.opens <= start && end <= w.closes
    ensures var s := EarliestStart(a, arrival, w);
            s <= start && LocallyFeasible(input, a, arrival, s, s + (end - start))
            && FixedDuration(a) == Some(end - start) && w.opens <= s < w.closes
  {
    var s := EarliestStart(a, arrival, w);
    var e := s + (end - start);
    var t := a.activity.timing;
    assert FixedDuration(a) == Some(end - start) by {
      if a.BaselineScheduled() {
        CheckedArithmeticIsExact(a.segment.end.value, a.segment.start.value);
      }
    }
    ContainingWindowIsUnique(t.windows, s, w);
    CheckedArithmeticIsExact(e, s);
    if t.reservation.Some? {
      CheckedArithmeticIsExact(t.reservation.value, Milliseconds(t.graceSeconds));
    }
  }

  /** Earliest-start dominance: if the activity may occupy any interval after
      the arrival, the generator offers one of the same length that starts no
      later. */
  lemma {:induction false} EarliestStartDominates(input: SearchInput, a: PlanningActivity, arrival: int64, start: int64, end: int64)
    returns (s: int64, e: int64)
    requires a.Valid() && Representable(a) && MayOccupy(input, a, start, end)
    requires input.horizonStart <= arrival <= start
    ensures Offered(input, a, arrival, s, e) && arrival <= s <= start && e - s == end - start
  {
    var w :| w in a.activity.timing.windows && w.opens <= start && end <= w.closes;
    if MustKeepInterval(a) {
      s, e := start, end;
      ContainingWindowIsUnique(a.activity.timing.windows, start, w);
      CheckedArithmeticIsExact(end, start);
      if a.activity.timing.reservation.Some? {
        CheckedArithmeticIsExact(a.activity.timing.reservation.value, Milliseconds(a.activity.timing.graceSeconds));
      }
    } else {
      ShiftedIsFeasible(input, a, arrival, start, end, w);
      s := EarliestStart(a, arrival, w);
      e := s + (end - start);
    }
  }

  lemma {:induction false} OffersAnyIffOffered(input: SearchInput, a: PlanningActivity, arrival: int64)
    requires a.Valid()
    ensures OffersAny(AlternativesFor(input, a, arrival)) <==>
            exists start: int64, end: int64 :: Offered(input, a, arrival, start, end)
  {
    var alternatives := AlternativesFor(input, a, arrival);
    if OffersAny(alternatives) {
      var k :| 0 <= k < |alternatives| && alternatives[k].scheduled;
      OfferedIffGenerated(input, a, arrival, alternatives[k].start, alternatives[k].end);
      assert Offers(alternatives, alternatives[k].start, alternatives[k].end);
    }
    if start: int64, end: int64 :| Offered(input, a, arrival, start, end) {
      OfferedIffGenerated(input, a, arrival, start, end);
      assert Offers(alternatives, start, end);
    }
  }

  /** Arriving earlier never leaves an activity without a start: the pruning
      test is monotone in the arrival. */
  lemma {:induction false} EarlierArrivalStillOffers(input: SearchInput, a: PlanningActivity, earlier: int64, later: int64)
    requires a.Valid() && input.horizonStart <= earlier <= later
    requires OffersAny(AlternativesFor(input, a, later))
    ensures OffersAny(AlternativesFor(input, a, earlier))
  {
    OffersAnyIffOffered(input, a, later);
    var start: int64, end: int64 :| Offered(input, a, later, start, end);
    OfferedIsLegal(input, a, later, start, end);
    var s, e := EarliestStartDominates(input, a, earlier, start, end);
    OffersAnyIffOffered(input, a, earlier);
  }

  // ----- order of the alternatives -----

  ghost predicate Uniform(a: PlanningActivity, s: seq<Alternative>)
    requires a.Valid()
  {
    forall k | 0 <= k < |s| ::
      s[k].scheduled && s[k].ordinal == a.ordinal && s[k].start < s[k].end
      && FixedDuration(a) == Some(s[k].end - s[k].start)
  }

  lemma {:induction false} WindowIntervalsAreUniform(input: SearchInput, a: PlanningActivity, arrival: int64,
                                                     windows: seq<Window>)
    requires a.Valid()
    ensures Uniform(a, AllWindowIntervals(input, a, arrival, windows))
  {
    if windows != [] {
      var front, w := windows[..|windows| - 1], windows[|windows| - 1];
      WindowIntervalsAreUniform(input, a, arrival, front);
      WindowIsUniform(input, a, arrival, w);
      UniformConcat(a, AllWindowIntervals(input, a, arrival, front), WindowIntervals(input, a, arrival, w));
    }
  }

  lemma {:induction false} WindowIsUniform(input: SearchInput, a: PlanningActivity, arrival: int64, w: Window)
    requires a.Valid()
    ensures Uniform(a, WindowIntervals(input, a, arrival, w))
  {
    GeneratedIsUniform(input, a, arrival, w, EarliestStart(a, arrival, w));
    if a.BaselineScheduled() {
      GeneratedIsUniform(input, a, arrival, w, a.segment.start.value);
    }
  }

  lemma {:induction false} GeneratedIsUniform(input: SearchInput, a: PlanningActivity, arrival: int64, w: Window, start: int64)
    requires a.Valid()
    ensures Uniform(a, GeneratedInterval(input, a, arrival, w, start))
  {
    if FixedDuration(a).Some? {
      CheckedArithmeticIsExact(start, FixedDuration(a).value);
    }
  }

  lemma {:induction false} RawIsUniform(input: SearchInput, a: PlanningActivity, arrival: int64)
    requires a.Valid()
    ensures Uniform(a, RawIntervals(input, a, arrival))
  {
    var generated := AllWindowIntervals(input, a, arrival, a.activity.timing.windows);
    var exact := ExactInterval(input, a, arrival);
    WindowIntervalsAreUniform(input, a, arrival, a.activity.timing.windows);
    ExactIsUniform(input, a, arrival);
    UniformConcat(a, generated, exact);
    assert RawIntervals(input, a, arrival) in [exact, generated + exact, generated + [], []];
  }

  lemma {:induction false} UniformConcat(a: PlanningActivity, s: seq<Alternative>, t: seq<Alternative>)
    requires a.Valid() && Uniform(a, s) && Uniform(a, t)
    ensures Uniform(a, s + t) && Uniform(a, s + [])
  {
  }

  lemma {:induction false} ExactIsUniform(input: SearchInput, a: PlanningActivity, arrival: int64)
    requires a.Valid()
    ensures Uniform(a, ExactInterval(input, a, arrival))
  {
    if a.BaselineScheduled() {
      CheckedArithmeticIsExact(a.segment.end.value, a.segment.start.value);
    }
  }

  ghost predicate Ascending(s: seq<Alternative>) {
    forall i, j | 0 <= i < j < |s| :: s[i].start < s[j].start
  }

  lemma {:induction false} UniqueAscends(a: PlanningActivity, s: seq<Alternative>)
    requires a.Valid() && Uniform(a, s)
    requires forall i, j | 0 <= i < j < |s| :: s[i].start <= s[j].start
    ensures Ascending(Unique(s)) && Uniform(a, Unique(s))
  {
    if s != [] {
      var front, last := s[..|s| - 1], s[|s| - 1];
      UniqueAscends(a, front);
      var kept := Unique(front);
      if kept != [] {
        var previous := kept[|kept| - 1];
        assert previous.start == front[|front| - 1].start <= last.start;
        if previous.start == last.start {
          assert SameInterval(previous, last);
        }
      }
    }
  }

  lemma {:induction false} UniformCarriesOver(a: PlanningActivity, raw: seq<Alternative>, sorted: seq<Alternative>)
    requires a.Valid() && Uniform(a, raw) && multiset(raw) == multiset(sorted)
    ensures Uniform(a, sorted)
  {
    SameElements(raw, sorted);
    forall k | 0 <= k < |sorted| ensures sorted[k] in raw {
      assert sorted[k] in sorted;
    }
  }

  lemma {:induction false} SortedStartsAscend(sorted: seq<Alternative>)
    requires Sorted(AlternativeLess, sorted) && forall k | 0 <= k < |sorted| :: sorted[k].scheduled
    ensures forall i, j | 0 <= i < j < |sorted| :: sorted[i].start <= sorted[j].start
  {
    forall i, j | 0 <= i < j < |sorted| ensures sorted[i].start <= sorted[j].start {
      assert !AlternativeLess(sorted[j], sorted[i]);
    }
  }

  lemma {:induction false} ScheduledAscend(input: SearchInput, a: PlanningActivity, arrival: int64)
    requires a.Valid()
    ensures var scheduled := Unique(Sort(AlternativeLess, RawIntervals(input, a, arrival)));
            Ascending(scheduled) && Uniform(a, scheduled)
  {
    var raw := RawIntervals(input, a, arrival);
    var sorted := Sort(AlternativeLess, raw);
    RawIsUniform(input, a, arrival);
    UniformCarriesOver(a, raw, sorted);
    SortSorts(AlternativeLess, raw);
    SortedStartsAscend(sorted);
    UniqueAscends(a, sorted);
  }

  /** Scheduled alternatives come first, with strictly ascending starts and one
      common length; a skip, when there is one, comes last.  So no two
      alternatives of an activity give the same decision. */
  ghost predicate Ordered(a: PlanningActivity, alternatives: seq<Alternative>)
    requires a.Valid()
  {
    && (forall k | 0 <= k < |alternatives| :: alternatives[k].ordinal == a.ordinal)
    && (forall i, j | 0 <= i < j < |alternatives| ::
          alternatives[i].scheduled && (alternatives[j].scheduled ==> alternatives[i].start < alternatives[j].start))
    && (forall k | 0 <= k < |alternatives| && alternatives[k].scheduled ::
          alternatives[k].start < alternatives[k].end
          && FixedDuration(a) == Some(alternatives[k].end - alternatives[k].start))
    && (forall k | 0 <= k < |alternatives| && !alternatives[k].scheduled ::
          !a.Protected() && alternatives[k].start == 0 && alternatives[k].end == 0)
    && (!a.Protected() ==> alternatives != [] && !alternatives[|alternatives| - 1].scheduled)
  }

  lemma {:induction false} AppendSkipIsOrdered(a: PlanningActivity, scheduled: seq<Alternative>)
    requires a.Valid() && Ascending(scheduled) && Uniform(a, scheduled)
    ensures Ordered(a, scheduled + SkipAlternative(a))
  {
  }

  lemma {:induction false} AlternativesAreOrdered(input: SearchInput, a: PlanningActivity, arrival: int64)
    requires a.Valid()
    ensures Ordered(a, AlternativesFor(input, a, arrival))
  {
    ScheduledAscend(input, a, arrival);
    AppendSkipIsOrdered(a, Unique(Sort(AlternativeLess, RawIntervals(input, a, arrival))));
  }
}

/** What is offered, said of the contract alone: the traveller's current interval
    is always among the offers if it is still lawful, and every other offer
    starts as early as its window, the arrival and the reservation allow. */
module OfferLaws {
  import opened Domain
  import opened PlannerInput
  import opened Alternatives

  /** The current interval is offered whenever it may be kept. */
  lemma {:induction false} CurrentIntervalIsOffered(input: SearchInput, a: PlanningActivity, arrival: int64, start: int64, end: int64)
    requires a.Valid() && Representable(a)
    requires AtBaseline(a, start, end) && MayOccupy(input, a, start, end) && arrival <= start
    ensures Offers(AlternativesFor(input, a, arrival), start, end)
  {
    LawfulIsFeasible(input, a, arrival, start, end);
    OfferedIffGenerated(input, a, arrival, start, end);
  }

  lemma {:induction false} LawfulIsFeasible(input: SearchInput, a: PlanningActivity, arrival: int64, start: int64, end: int64)
    requires a.Valid() && Representable(a) && MayOccupy(input, a, start, end) && arrival <= start
    ensures LocallyFeasible(input, a, arrival, start, end) && FixedDuration(a) == Some(end - start)
  {
    var t := a.activity.timing;
    var w :| w in t.windows && w.opens <= start && end <= w.closes;
    ContainingWindowIsUnique(t.windows, start, w);
    CheckedArithmeticIsExact(end, start);
    if a.BaselineScheduled() {
      CheckedArithmeticIsExact(a.segment.end.value, a.segment.start.value);
    }
    if t.reservation.Some? {
      CheckedArithmeticIsExact(t.reservation.value, Milliseconds(t.graceSeconds));
    }
  }

  /** The start is the latest of the arrival, the opening and the reservation. */
  ghost predicate StartsWithWindow(t: Timing, arrival: int, w: Window, start: int) {
    && arrival <= start && w.opens <= start && (t.reservation.Some? ==> t.reservation.value <= start)
    && (start == arrival || start == w.opens || t.reservation == Some(start))
  }

  /** As soon as some window that holds the interval allows. */
  ghost predicate AsSoonAsOpen(a: PlanningActivity, arrival: int, start: int, end: int) {
    exists w | w in a.activity.timing.windows :: end <= w.closes && StartsWithWindow(a.activity.timing, arrival, w, start)
  }

  /** Exactly the lawful intervals after the arrival that are the current one or
      start as soon as their window, the arrival and the reservation allow. */
  lemma {:induction false} OffersExactly(input: SearchInput, a: PlanningActivity, arrival: int64, start: int64, end: int64)
    requires a.Valid() && Representable(a)
    ensures Offers(AlternativesFor(input, a, arrival), start, end) <==>
      arrival <= start && MayOccupy(input, a, start, end) && (AtBaseline(a, start, end) || AsSoonAsOpen(a, arrival, start, end))
  {
    OfferedIffGenerated(input, a, arrival, start, end);
    if Offered(input, a, arrival, start, end) {
      OfferedIsLegal(input, a, arrival, start, end);
      if !AtBaseline(a, start, end) {
        EarliestIsSoon(input, a, arrival, start, end);
      }
    } else if arrival <= start && MayOccupy(input, a, start, end) {
      LawfulIsFeasible(input, a, arrival, start, end);
      if AsSoonAsOpen(a, arrival, start, end) {
        SoonIsEarliest(a, arrival, start, end);
      }
    }
  }

  lemma {:induction false} EarliestIsSoon(input: SearchInput, a: PlanningActivity, arrival: int64, start: int64, end: int64)
    requires a.Valid() && LocallyFeasible(input, a, arrival, start, end) && IsEarliest(a, arrival, start)
    ensures AsSoonAsOpen(a, arrival, start, end)
  {
    var w :| w in a.activity.timing.windows && w.opens <= start < w.closes && start == EarliestStart(a, arrival, w);
    ContainingWindowIsUnique(a.activity.timing.windows, start, w);
    assert StartsWithWindow(a.activity.timing, arrival, w, start);
  }

  lemma {:induction false} SoonIsEarliest(a: PlanningActivity, arrival: int64, start: int64, end: int64)
    requires AsSoonAsOpen(a, arrival, start, end) && start < end
    ensures IsEarliest(a, arrival, start)
  {
    var w :| w in a.activity.timing.windows && end <= w.closes && StartsWithWindow(a.activity.timing, arrival, w, start);
    assert w.opens <= start < w.closes && start == EarliestStart(a, arrival, w);
  }
}

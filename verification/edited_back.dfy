/** Why edits are set apart: an edit can give a trip back the activities that a
    harmless attempt was computed for. */
module EditedBack {
  import opened Domain
  import opened TripEvents
  import opened TripStates
  import opened RuntimeVersions
  import opened EventCoordinator
  import opened TripRuntime
  import opened RuntimeSteps
  import opened RuntimeOffers
  import opened RuntimeSafety
  import opened UnfitStart
  import opened StaleCommits
  import ReusedEpoch

  const EXTRA := Activity(1, "place", "Place", Location(0.0, 0.0), "UTC", Walking, Flexible, Planned, 0, 1,
                          Timing([], None, 0, 0, 1, 1, false, true, true, None), 0, None)

  /** The trip of the failing run, with one more activity. */
  const LARGER: TripState :=
    TripState(0, "CET", [EXTRA], 0, None, CurrentPlan(1, 1, UserAuthored, [Segment(1, Omitted, None, None)], 0, None), [],
              Observation(None, None, None, None), None)

  const BOOT := BootRequest(LARGER, "", 1, 1, 0, 0, None)
  const EDITED := TripEdited(RemoveActivity(1), ReusedEpoch.PlanNumbered(2))
  const EDIT := Event(EventRequest(Request(1, 1, 0, 1, None, TripEvent(0, 0, None, EDITED)), CONTEXT), BUSY)

  lemma {:induction false} LargerIsValid()
    ensures LARGER.Valid()
  {
    assert ActivityIds([EXTRA]) == [1] && SegmentIds(LARGER.plan.segments) == [1];
    assert ActivityIndex([EXTRA], 1) == Some(0);
  }

  lemma {:induction false} EditApplies()
    ensures Verdict(LARGER, EDIT.request.admission.event, 0).Applied?
    ensures After(LARGER, EDIT.request.admission.event, 0) == ReusedEpoch.TripIn("CET", 2)
  {
    LargerIsValid();
    ReusedEpoch.SmallTripsAreValid("CET", 2);
    assert ActivityIndex([EXTRA], 1) == Some(0) && ActivityIds([EXTRA]) == [1];
    assert [1][..0] + [1][1..] == [] && [EXTRA][..0] + [EXTRA][1..] == [];
    assert ActivityIds([]) == [] && SegmentIds([]) == [];
    assert EditedIds([EXTRA], RemoveActivity(1)) == Some([]);
    assert Candidate(LARGER, EDIT.request.admission.event) == ReusedEpoch.TripIn("CET", 2);
  }

  lemma {:induction false} EditMoves(t: Trip)
    requires t.state == LARGER && t.versions == Versions(true, FirstOf(BOOT)) && !t.deactivating
    ensures var h := HandleEvent(t, EDIT.request, true, BUSY, 0);
      h.1 == [] && h.0.state == ReusedEpoch.TripIn("CET", 2) && h.0.versions == Versions(true, ReusedEpoch.CHANGED)
  {
    EditApplies();
    var r := EDIT.request;
    var c := Coordinate(LARGER, t.versions, r.admission, 0, 0);
    assert c.0 == ReusedEpoch.TripIn("CET", 2) && c.1 == Versions(true, ReusedEpoch.CHANGED);
    NothingGoesOut(t.(state := c.0, versions := c.1), c.2, r, r.admission.event.payload.PriorityFor(t.state.activities), true);
  }

  lemma {:induction false} NotHarmful()
    ensures Unfit(ReusedEpoch.AttemptIn("UTC"), BOOT) && !Harmful(ReusedEpoch.AttemptIn("UTC"), BOOT)
  {
    assert ActivityIds([]) == [] && ActivityIds([EXTRA]) == [1];
    assert multiset([1])[1] == 1;
  }

  lemma {:induction false} LateCommits(w: World, a: Attempt)
    requires w.trip.Some? && w.outstanding == [a] && a == ReusedEpoch.AttemptIn("UTC")
    requires w.trip.value.state == ReusedEpoch.TripIn("CET", 2) && w.trip.value.versions == Versions(true, ReusedEpoch.CHANGED)
    ensures CommitsStale(a, Some(ReusedEpoch.OFFER), w, 0, BUSY, 0)
  {
    ReusedEpoch.OfferFits();
    ReusedEpoch.SmallTripsAreValid("CET", 2);
    FinishOutcome(w, 0, Some(ReusedEpoch.OFFER), BUSY, 0);
    assert a.seed.state.Core().timeZone == "UTC" && w.trip.value.state.Core().timeZone == "CET";
  }

  lemma {:induction false} EditHarms(w: World)
    requires w == World(None, [ReusedEpoch.AttemptIn("UTC")], true)
    ensures Starts(w, BOOT, true) && Quiet(Booted(w, BOOT, true), [EDIT], 0)
    ensures CommitsStale(w.outstanding[0], Some(ReusedEpoch.OFFER), Follow(Booted(w, BOOT, true), [EDIT], 0), 0, BUSY, 0)
  {
    LargerIsValid();
    var begun := Booted(w, BOOT, true);
    BootMeans(w, BOOT, true);
    EditMoves(begun.trip.value);
    assert [EDIT][..0] == [];
    assert Follow(begun, [EDIT], 0) == Next(begun, EDIT, 0);
    LateCommits(Next(begun, EDIT, 0), w.outstanding[0]);
  }

  /** A start that is unfit but does no harm by itself; then one edit, and what the
      planner makes of the attempt that was out is committed stale. */
  lemma {:induction false} EditBringsBack()
    ensures var w := Reach([ReusedEpoch.Begin("UTC"), ReusedEpoch.REPLACE, ReusedEpoch.ERASE], 0);
      && Starts(w, BOOT, true) && w.outstanding == [ReusedEpoch.AttemptIn("UTC")]
      && Unfit(w.outstanding[0], BOOT) && !Harmful(w.outstanding[0], BOOT) && Quiet(Booted(w, BOOT, true), [EDIT], 0)
      && CommitsStale(w.outstanding[0], Some(ReusedEpoch.OFFER), Follow(Booted(w, BOOT, true), [EDIT], 0), 0, BUSY, 0)
  {
    ReusedEpoch.ReachesErased([ReusedEpoch.Begin("UTC"), ReusedEpoch.REPLACE, ReusedEpoch.ERASE]);
    NotHarmful();
    EditHarms(Reach([ReusedEpoch.Begin("UTC"), ReusedEpoch.REPLACE, ReusedEpoch.ERASE], 0));
  }
}

/** Whole runs of the planner's own results: none is committed on a state it was
    not computed from, as long as nobody edits the trip and no start leaves a
    harmful attempt out. */
module PlannerSafety {
  import opened Domain
  import opened Folding
  import opened Proposals
  import opened TripRuntime
  import opened RuntimeSteps
  import opened RuntimeOffers
  import opened RuntimeSafety
  import opened UnfitStart
  import opened StaleCommits
  import PlanningPipeline

  /** In some surroundings the planner makes something of the attempt. */
  ghost predicate CanPropose(a: Attempt) {
    exists x: PlanningPipeline.Surroundings :: PlanningPipeline.Planned(a, x).Some?
  }

  /** If the step starts an epoch, no attempt still out that is harmful to it can propose anything. */
  ghost predicate HarmlessStart(w: World, l: Label) {
    forall now {:trigger Ask(now)} :: Ask(now) && StartsEpoch(w, l) ==>
      forall a | a in w.outstanding && Harmful(a, l.boot) :: !CanPropose(a)
  }

  lemma {:induction false} HarmlessMeans(w: World, l: Label, a: Attempt)
    requires HarmlessStart(w, l) && StartsEpoch(w, l) && a in w.outstanding && Harmful(a, l.boot)
    ensures !CanPropose(a)
  {
    assert Ask(true);
  }

  ghost predicate StartsHarmless(labels: seq<Label>, maxAdvisoryBytes: nat) {
    labels != [] ==>
      var front := labels[..|labels| - 1];
      StartsHarmless(front, maxAdvisoryBytes) && HarmlessStart(Reach(front, maxAdvisoryBytes), labels[|labels| - 1])
  }

  lemma {:induction false} HarmlessAfter(labels: seq<Label>, run: seq<Label>, l: Label, maxAdvisoryBytes: nat)
    requires StartsHarmless(labels, maxAdvisoryBytes) && run + [l] <= labels
    ensures HarmlessStart(Reach(run, maxAdvisoryBytes), l)
    decreases |labels|
  {
    var front, last := labels[..|labels| - 1], labels[|labels| - 1];
    if |labels| == |run| + 1 {
      assert run + [l] == labels;
      assert front == run && last == l;
    } else {
      assert run + [l] <= front;
      HarmlessAfter(front, run, l, maxAdvisoryBytes);
    }
  }

  lemma {:induction false} HarmlessAt(labels: seq<Label>, n: nat, maxAdvisoryBytes: nat)
    requires StartsHarmless(labels, maxAdvisoryBytes) && n < |labels|
    ensures HarmlessStart(Reach(labels[..n], maxAdvisoryBytes), labels[n])
  {
    assert labels[..n] + [labels[n]] <= labels;
    HarmlessAfter(labels, labels[..n], labels[n], maxAdvisoryBytes);
  }

  /** The step that started the present epoch, and no other since. */
  ghost predicate LastStart(labels: seq<Label>, n: nat, maxAdvisoryBytes: nat) {
    && n < |labels| && StartsEpoch(Reach(labels[..n], maxAdvisoryBytes), labels[n])
    && Quiet(Reach(labels[..n + 1], maxAdvisoryBytes), labels[n + 1..], maxAdvisoryBytes)
  }

  lemma {:induction false} QuietOneMore(w: World, more: seq<Label>, l: Label, maxAdvisoryBytes: nat)
    requires Quiet(w, more, maxAdvisoryBytes) && !StartsEpoch(Follow(w, more, maxAdvisoryBytes), l)
    ensures Quiet(w, more + [l], maxAdvisoryBytes)
  {
    assert (more + [l])[..|more|] == more;
  }

  lemma {:induction false} Parts(labels: seq<Label>, front: seq<Label>, n: nat)
    requires n + 1 < |labels| && front == labels[..|labels| - 1]
    ensures front[n] == labels[n] && front[..n] == labels[..n] && front[..n + 1] == labels[..n + 1]
    ensures labels[..n + 1] + front[n + 1..] == front && labels[n + 1..] == front[n + 1..] + [labels[|labels| - 1]]
  {
  }

  lemma {:induction false} QuietGrows(labels: seq<Label>, front: seq<Label>, n: nat, maxAdvisoryBytes: nat)
    requires n + 1 < |labels| && front == labels[..|labels| - 1] && LastStart(front, n, maxAdvisoryBytes)
    requires !StartsEpoch(Reach(front, maxAdvisoryBytes), labels[|labels| - 1])
    ensures LastStart(labels, n, maxAdvisoryBytes)
  {
    var run, more := labels[..n + 1], front[n + 1..];
    Parts(labels, front, n);
    FollowReach(run, more, maxAdvisoryBytes);
    QuietOneMore(Reach(run, maxAdvisoryBytes), more, labels[|labels| - 1], maxAdvisoryBytes);
  }

  lemma {:induction false} FindStart(labels: seq<Label>, maxAdvisoryBytes: nat) returns (n: nat)
    requires Reach(labels, maxAdvisoryBytes).trip.Some?
    ensures LastStart(labels, n, maxAdvisoryBytes)
  {
    var front, last := labels[..|labels| - 1], labels[|labels| - 1];
    OffersAreCurrent(front, maxAdvisoryBytes);
    StepMoves(Reach(front, maxAdvisoryBytes), last, maxAdvisoryBytes);
    if StartsEpoch(Reach(front, maxAdvisoryBytes), last) {
      n := |labels| - 1;
      assert labels[n + 1..] == [];
    } else {
      n := FindStart(front, maxAdvisoryBytes);
      QuietGrows(labels, front, n, maxAdvisoryBytes);
    }
  }

  ghost function Out(w: World): iset<Attempt> { iset a | a in w.outstanding }

  lemma {:induction false} SafeSince(w: World, labels: seq<Label>, excused: iset<Attempt>, maxAdvisoryBytes: nat)
    requires SaneWorld(w) && Safe(w, excused, UINT64_MAX) && Quiet(w, labels, maxAdvisoryBytes)
    ensures Safe(Follow(w, labels, maxAdvisoryBytes), excused, UINT64_MAX)
  {
    if labels != [] {
      var front := labels[..|labels| - 1];
      SafeSince(w, front, excused, maxAdvisoryBytes);
      SaneFollow(w, front, maxAdvisoryBytes);
      SafeStep(Follow(w, front, maxAdvisoryBytes), labels[|labels| - 1], maxAdvisoryBytes, excused, UINT64_MAX);
    }
  }

  /** Just after a start, every attempt that is out was out before. */
  lemma {:induction false} SafeAtStart(w: World, b: BootRequest, room: bool, top: nat)
    requires SaneWorld(w) && Safe(w, EVERY, top) && Starts(w, b, room)
    ensures Safe(Booted(w, b, room), Out(w), UINT64_MAX)
  {
    BootMeans(w, b, room);
    forall k | 0 <= k < |w.outstanding| ensures Good(w.outstanding[k], Booted(w, b, room).trip, Out(w), UINT64_MAX) {
      assert Good(w.outstanding[k], w.trip, EVERY, top);
    }
  }

  /** An attempt that is out was out when the epoch started, or answers for the trip. */
  lemma {:induction false} OutBeforeOrAnswers(labels: seq<Label>, n: nat, k: nat, maxAdvisoryBytes: nat)
    requires LastStart(labels, n, maxAdvisoryBytes) && k < |Reach(labels, maxAdvisoryBytes).outstanding|
    ensures var a := Reach(labels, maxAdvisoryBytes).outstanding[k];
      a in Reach(labels[..n], maxAdvisoryBytes).outstanding || AnswersIn(a, Reach(labels, maxAdvisoryBytes))
    ensures Reach(labels, maxAdvisoryBytes)
         == Follow(Booted(Reach(labels[..n], maxAdvisoryBytes), labels[n].boot, labels[n].roomForTrip), labels[n + 1..], maxAdvisoryBytes)
  {
    var w, l := Reach(labels[..n], maxAdvisoryBytes), labels[n];
    var begun := Booted(w, l.boot, l.roomForTrip);
    RunIsSafe(labels[..n], maxAdvisoryBytes, EVERY);
    OffersAreCurrent(labels[..n], maxAdvisoryBytes);
    SafeAtStart(w, l.boot, l.roomForTrip, TopEpoch(labels[..n], maxAdvisoryBytes));
    StartReaches(labels, n, maxAdvisoryBytes);
    OffersAreCurrent(labels[..n + 1], maxAdvisoryBytes);
    SafeSince(begun, labels[n + 1..], Out(w), maxAdvisoryBytes);
    var after := Reach(labels, maxAdvisoryBytes);
    assert Good(after.outstanding[k], after.trip, Out(w), UINT64_MAX);
  }

  lemma {:induction false} StartReaches(labels: seq<Label>, n: nat, maxAdvisoryBytes: nat)
    requires n < |labels| && labels[n].Boot?
    ensures Reach(labels[..n + 1], maxAdvisoryBytes)
         == Booted(Reach(labels[..n], maxAdvisoryBytes), labels[n].boot, labels[n].roomForTrip)
    ensures Reach(labels, maxAdvisoryBytes) == Follow(Reach(labels[..n + 1], maxAdvisoryBytes), labels[n + 1..], maxAdvisoryBytes)
  {
    assert labels[..n + 1][..n] == labels[..n];
    assert labels[..n + 1] + labels[n + 1..] == labels;
    FollowReach(labels[..n + 1], labels[n + 1..], maxAdvisoryBytes);
  }

  lemma {:induction false} StaleWasOut(labels: seq<Label>, n: nat, k: nat, a: Attempt, p: StoredProposal, maxAdvisoryBytes: nat)
    requires LastStart(labels, n, maxAdvisoryBytes) && k < |Reach(labels, maxAdvisoryBytes).outstanding|
    requires a == Reach(labels, maxAdvisoryBytes).outstanding[k] && StaleNow(a, p, Reach(labels, maxAdvisoryBytes))
    ensures a in Reach(labels[..n], maxAdvisoryBytes).outstanding
  {
    OutBeforeOrAnswers(labels, n, k, maxAdvisoryBytes);
  }

  lemma {:induction false} LaterEditsNothing(labels: seq<Label>, n: nat)
    requires NoEdits(labels) && n <= |labels|
    ensures NoEdits(labels[n..])
  {
    var more := labels[n..];
    forall i | 0 <= i < |more| ensures !IsEdit(more[i]) {
      assert more[i] == labels[n + i];
    }
  }

  lemma {:induction false} StaleWasHarmful(labels: seq<Label>, n: nat, a: Attempt, p: StoredProposal, maxAdvisoryBytes: nat)
    requires NoEdits(labels) && LastStart(labels, n, maxAdvisoryBytes) && MadeFor(p, a)
    requires StaleNow(a, p, Reach(labels, maxAdvisoryBytes))
    ensures Harmful(a, labels[n].boot)
  {
    OffersAreCurrent(labels[..n], maxAdvisoryBytes);
    StartReaches(labels, n, maxAdvisoryBytes);
    LaterEditsNothing(labels, n + 1);
    OnlyHarmful(Reach(labels[..n], maxAdvisoryBytes), labels[n].boot, labels[n].roomForTrip, a, p, labels[n + 1..], maxAdvisoryBytes);
  }

  lemma {:induction false} NothingStale(labels: seq<Label>, k: nat, a: Attempt, p: StoredProposal, maxAdvisoryBytes: nat)
    requires NoEdits(labels) && StartsHarmless(labels, maxAdvisoryBytes)
    requires k < |Reach(labels, maxAdvisoryBytes).outstanding| && a == Reach(labels, maxAdvisoryBytes).outstanding[k]
    requires MadeFor(p, a) && CanPropose(a)
    ensures !StaleNow(a, p, Reach(labels, maxAdvisoryBytes))
  {
    if StaleNow(a, p, Reach(labels, maxAdvisoryBytes)) {
      var n := FindStart(labels, maxAdvisoryBytes);
      StaleWasOut(labels, n, k, a, p, maxAdvisoryBytes);
      StaleWasHarmful(labels, n, a, p, maxAdvisoryBytes);
      HarmlessAt(labels, n, maxAdvisoryBytes);
      HarmlessMeans(Reach(labels[..n], maxAdvisoryBytes), labels[n], a);
      assert false;
    }
  }

  /** In every run without edits whose starts are harmless, a completion with the
      planner's own result that changes the trip puts the result on exactly the
      state it was computed from. */
  lemma {:induction false} NoStaleResult(labels: seq<Label>, k: nat, x: PlanningPipeline.Surroundings, load: Load, maxAdvisoryBytes: nat)
    requires NoEdits(labels) && StartsHarmless(labels, maxAdvisoryBytes)
    requires var w := Reach(labels, maxAdvisoryBytes);
      && w.trip.Some? && k < |w.outstanding|
      && var after := Next(w, Finish(k, PlanningPipeline.Planned(w.outstanding[k], x), load), maxAdvisoryBytes);
        after.trip.Some? && after.trip.value.state != w.trip.value.state
    ensures var w := Reach(labels, maxAdvisoryBytes);
      w.outstanding[k].seed.state.Core() == w.trip.value.state.Core()
  {
    var w := Reach(labels, maxAdvisoryBytes);
    var a := w.outstanding[k];
    var result := PlanningPipeline.Planned(a, x);
    FinishOutcome(w, k, result, load, maxAdvisoryBytes);
    PlanningPipeline.PlannedNames(a, x);
    NothingStale(labels, k, a, result.value, maxAdvisoryBytes);
  }
}

/** Why a search ended as it did: every interruption and every limit it reports
    was really met, and at that moment. */
module SearchStops {
  import opened Domain
  import opened Sorting
  import opened PlannerInput
  import opened Alternatives
  import opened CandidateScores
  import opened Scoring
  import opened Search
  import opened TripSearch

  // ----- interruptions -----

  /** No check before an expansion that was made had asked to stop. */
  ghost predicate Allowed(polls: Polls, expansions: nat) {
    forall k | 1 <= k <= expansions :: !polls.stop(k) && !polls.late(k)
  }

  ghost predicate UsedUp(budget: Budget, p: Progress) {
    p.expansions == budget.maxExpansions || p.candidates == budget.maxCandidates
  }

  /** What made the walk stop, if anything did. */
  ghost predicate StopIsMet(budget: Budget, polls: Polls, step: Step) {
    var next := step.progress.expansions + 1;
    match step
    case Going(_) => true
    case Stopped(outcome, p) =>
      match outcome
      case Cancelled => polls.stop(next)
      case DeadlineExceeded => polls.late(next) && !polls.stop(next)
      case SearchLimited => UsedUp(budget, p)
      case _ => false
  }

  ghost predicate Orderly(budget: Budget, polls: Polls, p: Progress) {
    Allowed(polls, p.expansions) && p.expansions <= budget.maxExpansions && p.candidates <= budget.maxCandidates
  }

  lemma {:induction false} DecisionsStop(space: Space, budget: Budget, polls: Polls, ds: seq<Decision>, next: seq<Decision>, p: Progress)
    requires Orderly(budget, polls, p)
    ensures var step := ConsiderDecisions(space, budget, ds, next, p);
      Orderly(budget, polls, step.progress) && StopIsMet(budget, polls, step) && step.progress.expansions == p.expansions
    decreases |next|
  {
    if next != [] {
      var child := ds + [next[0]];
      if !space.viable(child) {
        DecisionsStop(space, budget, polls, ds, next[1..], p);
      } else if p.candidates < budget.maxCandidates {
        DecisionsStop(space, budget, polls, ds, next[1..], Admit(space.size, Candidate(child, space.score(child)), p));
      }
    }
  }

  lemma {:induction false} ActivitiesStop(space: Space, budget: Budget, polls: Polls, ds: seq<Decision>, order: seq<nat>, p: Progress)
    requires Orderly(budget, polls, p)
    ensures var step := ConsiderActivities(space, budget, polls, ds, order, p);
      Orderly(budget, polls, step.progress) && StopIsMet(budget, polls, step)
    decreases |order|
  {
    if order != [] {
      if space.decided(ds, order[0]) {
        ActivitiesStop(space, budget, polls, ds, order[1..], p);
      } else if !polls.stop(p.expansions + 1) && !polls.late(p.expansions + 1) && p.expansions < budget.maxExpansions {
        var q := p.(expansions := p.expansions + 1);
        DecisionsStop(space, budget, polls, ds, space.next(ds, order[0]), q);
        var step := ConsiderDecisions(space, budget, ds, space.next(ds, order[0]), q);
        if step.Going? {
          ActivitiesStop(space, budget, polls, ds, order[1..], step.progress);
        }
      }
    }
  }

  lemma {:induction false} ParentsStop(space: Space, budget: Budget, polls: Polls, beam: seq<Candidate>, p: Progress)
    requires Orderly(budget, polls, p)
    ensures var step := ConsiderParents(space, budget, polls, beam, p);
      Orderly(budget, polls, step.progress) && StopIsMet(budget, polls, step)
    decreases |beam|
  {
    if beam != [] {
      ActivitiesStop(space, budget, polls, beam[0].decisions, space.order, p);
      var step := ConsiderActivities(space, budget, polls, beam[0].decisions, space.order, p);
      if step.Going? {
        ParentsStop(space, budget, polls, beam[1..], step.progress);
      }
    }
  }

  /** The walk was cut off before its end. */
  ghost predicate CutOff(budget: Budget, r: Result) {
    r.cancelled || r.deadlineHit || r.expansions == budget.maxExpansions || r.candidates == budget.maxCandidates
  }

  /** Every flag and every outcome has its cause. */
  ghost predicate HasCause(budget: Budget, polls: Polls, r: Result) {
    && Allowed(polls, r.expansions)
    && (r.cancelled ==> polls.stop(r.expansions + 1))
    && (r.deadlineHit ==> polls.late(r.expansions + 1) && !polls.stop(r.expansions + 1))
    && (r.outcome == Cancelled ==> r.cancelled) && (r.outcome == DeadlineExceeded ==> r.deadlineHit)
    && (r.cancelled ==> r.outcome in {Cancelled, BestSoFar}) && (r.deadlineHit ==> r.outcome in {DeadlineExceeded, BestSoFar})
    && (r.outcome == BestSoFar ==> CutOff(budget, r))
    && (r.outcome == SearchLimited ==> r.truncated || CutOff(budget, r))
    && r.outcome != InvalidInput
  }

  lemma {:induction false} LevelsHaveCause(space: Space, budget: Budget, polls: Polls, depth: nat, beam: seq<Candidate>, p: Progress,
                                           truncated: bool)
    requires depth <= space.size && Orderly(budget, polls, p)
    ensures HasCause(budget, polls, Levels(space, budget, polls, depth, beam, p, truncated))
    decreases space.size - depth
  {
    if depth < space.size {
      var q := p.(children := []);
      ParentsStop(space, budget, polls, beam, q);
      var step := ConsiderParents(space, budget, polls, beam, q);
      if step.Going? && step.progress.children != [] {
        var children := step.progress.children;
        LevelsHaveCause(space, budget, polls, depth + 1, Retain(budget, children), step.progress,
                        truncated || |children| > budget.beamWidth);
      }
    }
  }

  // ----- truncation -----

  /** More paths of one length than the beam holds. */
  ghost predicate Overflows(space: Space, budget: Budget) {
    exists paths :: ManyPaths(space, budget, paths)
  }

  ghost predicate ManyPaths(space: Space, budget: Budget, paths: seq<seq<Decision>>) {
    && |paths| > budget.beamWidth && Distinct(paths)
    && (forall k | 0 <= k < |paths| :: space.viable(paths[k]))
    && (forall i, j | 0 <= i < j < |paths| :: |paths[i]| == |paths[j]|)
  }

  /** No path is generated twice. */
  ghost predicate Unambiguous(space: Space) {
    && Distinct(space.order)
    && (forall ds: seq<Decision>, i: nat :: Distinct(space.next(ds, i)))
    && (forall ds: seq<Decision>, i: nat, j: nat, d: Decision | d in space.next(ds, i) && d in space.next(ds, j) :: i == j)
  }

  function PathsOf(children: seq<Candidate>): (r: seq<seq<Decision>>)
    ensures |r| == |children| && forall k | 0 <= k < |children| :: r[k] == children[k].decisions
  {
    seq(|children|, k requires 0 <= k < |children| => children[k].decisions)
  }

  /** The children are different paths. */
  ghost predicate AllDifferent(children: seq<Candidate>) { Distinct(PathsOf(children)) }

  ghost predicate Extends(path: seq<Decision>, ds: seq<Decision>) { |path| == |ds| + 1 && path[..|ds|] == ds }

  /** The path goes on from `ds` with one of the decisions. */
  ghost predicate LeadsOn(path: seq<Decision>, ds: seq<Decision>, next: seq<Decision>) {
    Extends(path, ds) && path[|ds|] in next
  }

  ghost predicate NoneLeadsOn(children: seq<Candidate>, ds: seq<Decision>, next: seq<Decision>) {
    forall k | 0 <= k < |children| :: !LeadsOn(children[k].decisions, ds, next)
  }

  /** Only children that lead on were added. */
  ghost predicate Adds(before: seq<Candidate>, after: seq<Candidate>, ds: seq<Decision>, next: seq<Decision>) {
    && |before| <= |after| && before == after[..|before|]
    && forall k | |before| <= k < |after| :: LeadsOn(after[k].decisions, ds, next)
  }

  lemma {:induction false} OneMoreDifferent(children: seq<Candidate>, c: Candidate)
    requires AllDifferent(children) && forall k | 0 <= k < |children| :: children[k].decisions != c.decisions
    ensures AllDifferent(children + [c])
  {
    var grown := children + [c];
    forall i, j | 0 <= i < j < |grown| ensures PathsOf(grown)[i] != PathsOf(grown)[j] {
      if j < |children| {
        assert PathsOf(children)[i] != PathsOf(children)[j];
      }
    }
  }

  lemma {:induction false} AddsMore(before: seq<Candidate>, c: Candidate, after: seq<Candidate>, ds: seq<Decision>, next: seq<Decision>)
    requires next != [] && c.decisions == ds + [next[0]] && Adds(before + [c], after, ds, next[1..])
    ensures Adds(before, after, ds, next)
  {
    assert after[|before|] == c;
    assert before == (before + [c])[..|before|] == after[..|before|];
    forall k | |before| <= k < |after| ensures LeadsOn(after[k].decisions, ds, next) {
      if k > |before| { assert LeadsOn(after[k].decisions, ds, next[1..]); }
    }
  }

  lemma {:induction false} AddsLater(before: seq<Candidate>, after: seq<Candidate>, ds: seq<Decision>, next: seq<Decision>)
    requires next != [] && Adds(before, after, ds, next[1..])
    ensures Adds(before, after, ds, next)
  {
    forall k | |before| <= k < |after| ensures LeadsOn(after[k].decisions, ds, next) {
      assert LeadsOn(after[k].decisions, ds, next[1..]);
    }
  }

  lemma {:induction false} NotAgain(children: seq<Candidate>, c: Candidate, ds: seq<Decision>, next: seq<Decision>)
    requires next != [] && Distinct(next) && NoneLeadsOn(children, ds, next) && c.decisions == ds + [next[0]]
    ensures NoneLeadsOn(children + [c], ds, next[1..]) && Distinct(next[1..])
    ensures forall k | 0 <= k < |children| :: children[k].decisions != c.decisions
  {
    var grown := children + [c];
    assert LeadsOn(c.decisions, ds, next) by { assert c.decisions[..|ds|] == ds; }
    forall k | 0 <= k < |grown| ensures !LeadsOn(grown[k].decisions, ds, next[1..]) {
      if k < |children| { assert !LeadsOn(children[k].decisions, ds, next); }
    }
  }

  lemma {:induction false} DecisionsDiffer(space: Space, budget: Budget, ds: seq<Decision>, next: seq<Decision>, p: Progress)
    requires AllDifferent(p.children) && Distinct(next) && NoneLeadsOn(p.children, ds, next)
    ensures var q := ConsiderDecisions(space, budget, ds, next, p).progress;
      AllDifferent(q.children) && Adds(p.children, q.children, ds, next)
    decreases |next|
  {
    if next != [] {
      var child := ds + [next[0]];
      if !space.viable(child) {
        assert NoneLeadsOn(p.children, ds, next[1..]) && Distinct(next[1..]);
        DecisionsDiffer(space, budget, ds, next[1..], p);
        AddsLater(p.children, ConsiderDecisions(space, budget, ds, next, p).progress.children, ds, next);
      } else if p.candidates < budget.maxCandidates {
        var c := Candidate(child, space.score(child));
        var q := Admit(space.size, c, p);
        NotAgain(p.children, c, ds, next);
        OneMoreDifferent(p.children, c);
        DecisionsDiffer(space, budget, ds, next[1..], q);
        AddsMore(p.children, c, ConsiderDecisions(space, budget, ds, next, p).progress.children, ds, next);
      }
    }
  }

  // ----- all activities of one parent -----

  /** No child is a path that some activity of the order would generate. */
  ghost predicate NoneLed(space: Space, children: seq<Candidate>, ds: seq<Decision>, order: seq<nat>) {
    forall m | 0 <= m < |order| :: NoneLeadsOn(children, ds, space.next(ds, order[m]))
  }

  ghost predicate AddsTo(before: seq<Candidate>, after: seq<Candidate>, ds: seq<Decision>) {
    && |before| <= |after| && before == after[..|before|]
    && forall k | |before| <= k < |after| :: Extends(after[k].decisions, ds)
  }

  lemma {:induction false} StillNoneLed(space: Space, before: seq<Candidate>, after: seq<Candidate>, ds: seq<Decision>, order: seq<nat>)
    requires Unambiguous(space) && order != [] && Distinct(order) && NoneLed(space, before, ds, order)
    requires Adds(before, after, ds, space.next(ds, order[0]))
    ensures NoneLed(space, after, ds, order[1..]) && Distinct(order[1..])
  {
    var rest := order[1..];
    forall m | 0 <= m < |rest| ensures NoneLeadsOn(after, ds, space.next(ds, rest[m])) {
      assert rest[m] == order[m + 1] && order[0] != order[m + 1];
      assert NoneLeadsOn(before, ds, space.next(ds, order[m + 1]));
      forall k | 0 <= k < |after| ensures !LeadsOn(after[k].decisions, ds, space.next(ds, rest[m])) {
        if k < |before| {
          assert after[k] == before[k];
        } else {
          assert LeadsOn(after[k].decisions, ds, space.next(ds, order[0]));
        }
      }
    }
  }

  lemma {:induction false} AddsBoth(a: seq<Candidate>, b: seq<Candidate>, c: seq<Candidate>, ds: seq<Decision>, next: seq<Decision>)
    requires Adds(a, b, ds, next) && AddsTo(b, c, ds)
    ensures AddsTo(a, c, ds)
  {
    assert a == b[..|a|] == c[..|b|][..|a|] == c[..|a|];
    forall k | |a| <= k < |c| ensures Extends(c[k].decisions, ds) {
      if k < |b| { assert c[k] == c[..|b|][k] == b[k] && LeadsOn(b[k].decisions, ds, next); }
    }
  }

  lemma {:induction false} AddsSome(a: seq<Candidate>, b: seq<Candidate>, ds: seq<Decision>, next: seq<Decision>)
    requires Adds(a, b, ds, next)
    ensures AddsTo(a, b, ds)
  {
    forall k | |a| <= k < |b| ensures Extends(b[k].decisions, ds) { assert LeadsOn(b[k].decisions, ds, next); }
  }

  lemma {:induction false} ActivitiesDiffer(space: Space, budget: Budget, polls: Polls, ds: seq<Decision>, order: seq<nat>, p: Progress)
    requires Unambiguous(space) && AllDifferent(p.children) && Distinct(order) && NoneLed(space, p.children, ds, order)
    ensures var q := ConsiderActivities(space, budget, polls, ds, order, p).progress;
      AllDifferent(q.children) && AddsTo(p.children, q.children, ds)
    decreases |order|
  {
    if order != [] {
      assert NoneLeadsOn(p.children, ds, space.next(ds, order[0]));
      if space.decided(ds, order[0]) {
        StillNoneLed(space, p.children, p.children, ds, order);
        ActivitiesDiffer(space, budget, polls, ds, order[1..], p);
      } else if !polls.stop(p.expansions + 1) && !polls.late(p.expansions + 1) && p.expansions < budget.maxExpansions {
        var q, next := p.(expansions := p.expansions + 1), space.next(ds, order[0]);
        DecisionsDiffer(space, budget, ds, next, q);
        var step := ConsiderDecisions(space, budget, ds, next, q);
        AddsSome(p.children, step.progress.children, ds, next);
        if step.Going? {
          StillNoneLed(space, p.children, step.progress.children, ds, order);
          ActivitiesDiffer(space, budget, polls, ds, order[1..], step.progress);
          AddsBoth(p.children, step.progress.children,
                   ConsiderActivities(space, budget, polls, ds, order[1..], step.progress).progress.children, ds, next);
        }
      }
    }
  }

  // ----- all parents -----

  ghost predicate NoneExtends(children: seq<Candidate>, beam: seq<Candidate>) {
    forall k, m | 0 <= k < |children| && 0 <= m < |beam| :: !Extends(children[k].decisions, beam[m].decisions)
  }

  ghost predicate SameLength(beam: seq<Candidate>, depth: nat) { forall k | 0 <= k < |beam| :: |beam[k].decisions| == depth }

  lemma {:induction false} StillNoneExtends(before: seq<Candidate>, after: seq<Candidate>, beam: seq<Candidate>, depth: nat)
    requires beam != [] && AllDifferent(beam) && SameLength(beam, depth) && NoneExtends(before, beam)
    requires AddsTo(before, after, beam[0].decisions)
    ensures NoneExtends(after, beam[1..]) && AllDifferent(beam[1..])
  {
    var rest := beam[1..];
    forall k, m | 0 <= k < |after| && 0 <= m < |rest| ensures !Extends(after[k].decisions, rest[m].decisions) {
      assert rest[m] == beam[m + 1] && PathsOf(beam)[0] != PathsOf(beam)[m + 1];
      if k < |before| {
        assert after[k] == before[k] && !Extends(before[k].decisions, beam[m + 1].decisions);
      } else {
        assert Extends(after[k].decisions, beam[0].decisions);
      }
    }
    forall i, j | 0 <= i < j < |rest| ensures PathsOf(rest)[i] != PathsOf(rest)[j] {
      assert PathsOf(beam)[i + 1] != PathsOf(beam)[j + 1];
    }
  }

  lemma {:induction false} NoneLedAtAll(space: Space, children: seq<Candidate>, beam: seq<Candidate>, order: seq<nat>)
    requires beam != [] && NoneExtends(children, beam)
    ensures NoneLed(space, children, beam[0].decisions, order)
  {
    forall k | 0 <= k < |children| ensures !Extends(children[k].decisions, beam[0].decisions) {}
  }

  lemma {:induction false} ParentsDiffer(space: Space, budget: Budget, polls: Polls, beam: seq<Candidate>, depth: nat, p: Progress)
    requires Unambiguous(space) && AllDifferent(p.children)
    requires AllDifferent(beam) && SameLength(beam, depth) && NoneExtends(p.children, beam)
    ensures AllDifferent(ConsiderParents(space, budget, polls, beam, p).progress.children)
    decreases |beam|
  {
    if beam != [] {
      var ds := beam[0].decisions;
      NoneLedAtAll(space, p.children, beam, space.order);
      ActivitiesDiffer(space, budget, polls, ds, space.order, p);
      var step := ConsiderActivities(space, budget, polls, ds, space.order, p);
      if step.Going? {
        StillNoneExtends(p.children, step.progress.children, beam, depth);
        ParentsDiffer(space, budget, polls, beam[1..], depth, step.progress);
      }
    }
  }

  // ----- all levels -----

  lemma {:induction false} DifferentInAnyOrder(a: seq<Candidate>, b: seq<Candidate>)
    requires AllDifferent(a) && multiset(a) == multiset(b)
    ensures AllDifferent(b)
  {
    SameElements(a, b);
    forall i, j | 0 <= i < j < |a| ensures a[i] != a[j] { assert PathsOf(a)[i] != PathsOf(a)[j]; }
    forall i, j | 0 <= i < j < |b| ensures PathsOf(b)[i] != PathsOf(b)[j] {
      CountedOnce(a, b, i, j);
      assert b[i] in a && b[j] in a;
      var k :| 0 <= k < |a| && a[k] == b[i];
      var m :| 0 <= m < |a| && a[m] == b[j];
      assert k != m && PathsOf(a)[k] != PathsOf(a)[m];
    }
  }

  lemma {:induction false} CountedOnce(a: seq<Candidate>, b: seq<Candidate>, i: nat, j: nat)
    requires Distinct(a) && multiset(a) == multiset(b) && i < j < |b|
    ensures b[i] != b[j]
  {
    DistinctCounts(a, b[i]);
    assert b == b[..j] + [b[j]] + b[j + 1..] && b[i] in b[..j];
  }

  lemma {:induction false} RetainedDiffer(budget: Budget, children: seq<Candidate>)
    requires AllDifferent(children)
    ensures AllDifferent(Retain(budget, children))
  {
    RetainKeepsTheBest(budget, children);
    var sorted, kept := Sort(BetterPartial, children), Retain(budget, children);
    DifferentInAnyOrder(children, sorted);
    forall i, j | 0 <= i < j < |kept| ensures PathsOf(kept)[i] != PathsOf(kept)[j] {
      assert PathsOf(sorted)[i] != PathsOf(sorted)[j];
    }
  }

  lemma {:induction false} ChildrenOverflow(space: Space, budget: Budget, depth: nat, p: Progress)
    requires AllDifferent(p.children) && Sound(space, budget, depth, p) && |p.children| > budget.beamWidth
    ensures Overflows(space, budget)
  {
    forall k | 0 <= k < |p.children| ensures space.viable(PathsOf(p.children)[k]) && |PathsOf(p.children)[k]| == depth {
      assert SoundCandidate(space, p.children[k], depth);
    }
    assert ManyPaths(space, budget, PathsOf(p.children));
  }

  lemma {:induction false} LevelsTruncate(space: Space, budget: Budget, polls: Polls, depth: nat, beam: seq<Candidate>, p: Progress,
                                          truncated: bool)
    requires Unambiguous(space) && depth <= space.size && AllDifferent(beam) && SameLength(beam, depth)
    requires depth < space.size ==> p.best.None?
    requires p.expansions <= budget.maxExpansions && p.candidates <= budget.maxCandidates
    requires truncated ==> Overflows(space, budget)
    ensures Levels(space, budget, polls, depth, beam, p, truncated).truncated ==> Overflows(space, budget)
    decreases space.size - depth
  {
    if depth < space.size {
      var q := p.(children := []);
      ParentsAreSound(space, budget, polls, beam, depth, q);
      ParentsDiffer(space, budget, polls, beam, depth, q);
      var step := ConsiderParents(space, budget, polls, beam, q);
      var children := step.progress.children;
      if step.Going? && children != [] {
        if |children| > budget.beamWidth {
          ChildrenOverflow(space, budget, depth + 1, step.progress);
        }
        RetainedDiffer(budget, children);
        RetainedLength(space, budget, depth + 1, step.progress);
        LevelsTruncate(space, budget, polls, depth + 1, Retain(budget, children), step.progress,
                       truncated || |children| > budget.beamWidth);
      }
    }
  }

  lemma {:induction false} RetainedLength(space: Space, budget: Budget, depth: nat, p: Progress)
    requires Sound(space, budget, depth, p)
    ensures SameLength(Retain(budget, p.children), depth)
  {
    RetainKeeps(budget, p.children);
    var kept := Retain(budget, p.children);
    forall k | 0 <= k < |kept| ensures |kept[k].decisions| == depth {
      var m :| 0 <= m < |p.children| && p.children[m] == kept[k];
      assert SoundCandidate(space, p.children[m], depth);
    }
  }

  // ----- trips -----

  lemma {:induction false} NextNames(input: SearchInput, ds: seq<Decision>, i: nat)
    requires input.Valid()
    ensures var next := SpaceOf(input).next(ds, i);
      Distinct(next) && forall d | d in next :: i < |input.remaining| && d.ordinal == input.remaining[i].ordinal
  {
    if i < |input.remaining| && Known(input, ds) {
      GeneratedDiffer(input, input.remaining[i], ArrivalFrom(input, ds, i));
    }
  }

  lemma {:induction false} GeneratedDiffer(input: SearchInput, a: PlanningActivity, arrival: int64)
    requires a.Valid()
    ensures var next := DecisionsOf(AlternativesFor(input, a, arrival)); Distinct(next) && forall d | d in next :: d.ordinal == a.ordinal
  {
    AlternativesAreOrdered(input, a, arrival);
  }

  lemma {:induction false} TripsAreUnambiguous(input: SearchInput)
    requires input.Valid()
    ensures Unambiguous(SpaceOf(input))
  {
    var space := SpaceOf(input);
    forall ds: seq<Decision>, i: nat ensures Distinct(space.next(ds, i)) {
      NextNames(input, ds, i);
    }
    forall ds: seq<Decision>, i: nat, j: nat, d: Decision | d in space.next(ds, i) && d in space.next(ds, j) ensures i == j {
      NextNames(input, ds, i);
      NextNames(input, ds, j);
      IndexOfIsInverse(input, i);
      IndexOfIsInverse(input, j);
    }
    OrderIsDistinct(input);
  }

  lemma {:induction false} OrderIsDistinct(input: SearchInput)
    ensures Distinct(ActivityOrder(input))
  {
    var positions, order := Positions(|input.remaining|), ActivityOrder(input);
    SameElements(positions, order);
    forall i, j | 0 <= i < j < |order| ensures order[i] != order[j] {
      DistinctCounts(positions, order[i]);
      assert order == order[..j] + [order[j]] + order[j + 1..] && order[i] in order[..j];
    }
  }

  /** What a search of a trip reports of its end is what happened: at the check
      before the search, or at the check before the next expansion. */
  lemma {:induction false} SearchHasCause(input: SearchInput, budget: Budget, polls: Polls)
    requires input.Valid() && budget.Valid()
    ensures var r := BeamSearch(input, budget, polls);
      if polls.stop(0) then r == Result(Cancelled, None, 0, 0, false, false, true)
      else if polls.late(0) then r == Result(DeadlineExceeded, None, 0, 0, false, true, false)
      else HasCause(budget, polls, r) && (r.truncated ==> Overflows(SpaceOf(input), budget))
  {
    var space := SpaceOf(input);
    if !polls.stop(0) && !polls.late(0) && space.size > 0 {
      var root := Candidate([], space.score([]));
      var p := Progress([], None, 0, 0);
      LevelsHaveCause(space, budget, polls, 0, [root], p, false);
      TripsAreUnambiguous(input);
      LevelsTruncate(space, budget, polls, 0, [root], p, false);
    }
  }
}

/** The beam search as a function of its budget and of what the clock and the
    stop token answer when they are asked.  The traversal knows nothing about
    trips: it walks any space of decision sequences.  Paths are plain sequences
    here; the arena of the implementation is proved to agree. */
module Search {
  import opened Domain
  import opened Sorting
  import opened CandidateScores

  /** What the traversal asks about the space it walks. */
  datatype Space = Space(
    size: nat,                                     // decisions in a complete path
    order: seq<nat>,                               // activities, in the order each parent considers them
    decided: (seq<Decision>, nat) -> bool,         // whether a path decides an activity
    next: (seq<Decision>, nat) -> seq<Decision>,   // the decisions generated for an activity after a path
    viable: seq<Decision> -> bool,                 // scored and not pruned
    score: seq<Decision> -> Score)

  datatype Budget = Budget(maxCandidates: nat, beamWidth: nat, maxExpansions: nat) {
    predicate Valid() { maxCandidates != 0 && beamWidth != 0 && maxExpansions != 0 }
  }

  /** Answers of the stop token and the clock: 0 is the check before the search,
      k + 1 the check before expansion k. */
  datatype Polls = Polls(stop: nat -> bool, late: nat -> bool)

  datatype Outcome =
    Complete | BestSoFar | ExhaustiveInfeasible | SearchLimited | DeadlineExceeded | Cancelled | InvalidInput

  datatype Result = Result(
    outcome: Outcome,
    best: Option<Candidate>,
    expansions: nat,
    candidates: nat,
    truncated: bool,
    deadlineHit: bool,
    cancelled: bool)

  datatype Progress = Progress(children: seq<Candidate>, best: Option<Candidate>, expansions: nat, candidates: nat)

  datatype Step = Going(progress: Progress) | Stopped(outcome: Outcome, progress: Progress)

  function Admit(size: nat, child: Candidate, p: Progress): Progress {
    var best :=
      if |child.decisions| == size && (p.best.None? || Better(child.score, p.best.value.score))
      then Some(child) else p.best;
    Progress(p.children + [child], best, p.expansions, p.candidates + 1)
  }

  /** Scores and admits the children of one parent and one activity. */
  function ConsiderDecisions(space: Space, budget: Budget, ds: seq<Decision>, next: seq<Decision>, p: Progress)
    : (step: Step)
    ensures step.Stopped? ==> step.outcome == SearchLimited
  {
    if next == [] then Going(p)
    else
      var child := ds + [next[0]];
      if !space.viable(child) then ConsiderDecisions(space, budget, ds, next[1..], p)
      else if p.candidates >= budget.maxCandidates then Stopped(SearchLimited, p)
      else ConsiderDecisions(space, budget, ds, next[1..], Admit(space.size, Candidate(child, space.score(child)), p))
  }

  function ConsiderActivities(space: Space, budget: Budget, polls: Polls, ds: seq<Decision>, order: seq<nat>, p: Progress)
    : (step: Step)
    ensures step.Stopped? ==> step.outcome in {SearchLimited, DeadlineExceeded, Cancelled}
  {
    if order == [] then Going(p)
    else if space.decided(ds, order[0]) then ConsiderActivities(space, budget, polls, ds, order[1..], p)
    else if polls.stop(p.expansions + 1) then Stopped(Cancelled, p)
    else if polls.late(p.expansions + 1) then Stopped(DeadlineExceeded, p)
    else if p.expansions >= budget.maxExpansions then Stopped(SearchLimited, p)
    else
      var step := ConsiderDecisions(space, budget, ds, space.next(ds, order[0]), p.(expansions := p.expansions + 1));
      if step.Stopped? then step else ConsiderActivities(space, budget, polls, ds, order[1..], step.progress)
  }

  function ConsiderParents(space: Space, budget: Budget, polls: Polls, beam: seq<Candidate>, p: Progress)
    : (step: Step)
    ensures step.Stopped? ==> step.outcome in {SearchLimited, DeadlineExceeded, Cancelled}
  {
    if beam == [] then Going(p)
    else
      var step := ConsiderActivities(space, budget, polls, beam[0].decisions, space.order, p);
      if step.Stopped? then step else ConsiderParents(space, budget, polls, beam[1..], step.progress)
  }

  /** The result of stopping: a complete candidate found so far is still returned. */
  function Interrupted(outcome: Outcome, p: Progress, truncated: bool): Result {
    Result(if p.best.Some? && outcome != Complete then BestSoFar else outcome,
           p.best, p.expansions, p.candidates, truncated,
           outcome == DeadlineExceeded, outcome == Cancelled)
  }

  function Exhausted(p: Progress, truncated: bool): Result {
    Interrupted(if truncated then SearchLimited else ExhaustiveInfeasible, p.(best := None), truncated)
  }

  /** The best children under the retention order, at most the beam's width. */
  function Retain(budget: Budget, children: seq<Candidate>): seq<Candidate> {
    var sorted := Sort(BetterPartial, children);
    if |children| > budget.beamWidth then sorted[..budget.beamWidth] else sorted
  }

  function Levels(space: Space, budget: Budget, polls: Polls, depth: nat, beam: seq<Candidate>, p: Progress,
                  truncated: bool): Result
    requires depth <= space.size
    decreases space.size - depth
  {
    if depth == space.size then
      if p.best.None? then Exhausted(p, truncated) else Interrupted(Complete, p, truncated)
    else
      var step := ConsiderParents(space, budget, polls, beam, p.(children := []));
      if step.Stopped? then Interrupted(step.outcome, step.progress, truncated)
      else
        var children := step.progress.children;
        if children == [] then
          if step.progress.best.Some? then Interrupted(Complete, step.progress, truncated)
          else Exhausted(step.progress, truncated)
        else
          Levels(space, budget, polls, depth + 1, Retain(budget, children), step.progress,
                 truncated || |children| > budget.beamWidth)
  }

  /** The search below an empty path. */
  function SearchFrom(space: Space, budget: Budget, polls: Polls): Result {
    var root := Candidate([], space.score([]));
    if space.size == 0 then Result(Complete, Some(root), 0, 0, false, false, false)
    else Levels(space, budget, polls, 0, [root], Progress([], None, 0, 0), false)
  }

  // ----- soundness, budgets and the running best -----

  ghost predicate SoundCandidate(space: Space, c: Candidate, depth: nat) {
    |c.decisions| == depth && space.viable(c.decisions) && space.score(c.decisions) == c.score
  }

  ghost predicate BestOf(best: Candidate, children: seq<Candidate>) {
    best in children && forall k | 0 <= k < |children| :: !Better(children[k].score, best.score)
  }

  /** The invariant of the search while it builds the candidates of one depth:
      every child is a viable path with its own score, and a best candidate
      exists exactly when complete children do, none of which beats it. */
  ghost predicate Sound(space: Space, budget: Budget, depth: nat, p: Progress) {
    && (forall k | 0 <= k < |p.children| :: SoundCandidate(space, p.children[k], depth))
    && (p.best.Some? <==> depth == space.size && p.children != [])
    && (p.best.Some? ==> BestOf(p.best.value, p.children))
    && p.expansions <= budget.maxExpansions
    && p.candidates <= budget.maxCandidates
  }

  lemma {:induction false} BestOfGrows(best: Candidate, children: seq<Candidate>, child: Candidate)
    requires BestOf(best, children)
    ensures BestOf(if Better(child.score, best.score) then child else best, children + [child])
  {
    var grown := children + [child];
    var now := if Better(child.score, best.score) then child else best;
    assert grown[|children|] == child;
    forall k | 0 <= k < |grown| ensures !Better(grown[k].score, now.score) {
      if k == |children| {
        BetterIrreflexive(child.score);
      } else if Better(child.score, best.score) && Better(children[k].score, child.score) {
        BetterTransitive(children[k].score, child.score, best.score);
      }
    }
  }

  lemma {:induction false} AdmitIsSound(space: Space, budget: Budget, depth: nat, child: Candidate, p: Progress)
    requires Sound(space, budget, depth, p) && SoundCandidate(space, child, depth)
    requires p.candidates < budget.maxCandidates
    ensures Sound(space, budget, depth, Admit(space.size, child, p))
  {
    if p.best.Some? {
      BestOfGrows(p.best.value, p.children, child);
    } else {
      BetterIrreflexive(child.score);
      assert p.children == [] || depth != space.size;
      assert [] + [child] == [child] && [child][0] == child;
    }
  }

  lemma {:induction false} DecisionsAreSound(space: Space, budget: Budget, ds: seq<Decision>, next: seq<Decision>, p: Progress)
    requires Sound(space, budget, |ds| + 1, p)
    ensures Sound(space, budget, |ds| + 1, ConsiderDecisions(space, budget, ds, next, p).progress)
    decreases |next|
  {
    if next != [] {
      var child := ds + [next[0]];
      if !space.viable(child) {
        DecisionsAreSound(space, budget, ds, next[1..], p);
      } else if p.candidates < budget.maxCandidates {
        var c := Candidate(child, space.score(child));
        AdmitIsSound(space, budget, |ds| + 1, c, p);
        DecisionsAreSound(space, budget, ds, next[1..], Admit(space.size, c, p));
      }
    }
  }

  lemma {:induction false} ActivitiesAreSound(space: Space, budget: Budget, polls: Polls, ds: seq<Decision>,
                                              order: seq<nat>, p: Progress)
    requires Sound(space, budget, |ds| + 1, p)
    ensures Sound(space, budget, |ds| + 1, ConsiderActivities(space, budget, polls, ds, order, p).progress)
    decreases |order|
  {
    if order != [] {
      if space.decided(ds, order[0]) {
        ActivitiesAreSound(space, budget, polls, ds, order[1..], p);
      } else if !polls.stop(p.expansions + 1) && !polls.late(p.expansions + 1) && p.expansions < budget.maxExpansions {
        var q := p.(expansions := p.expansions + 1);
        DecisionsAreSound(space, budget, ds, space.next(ds, order[0]), q);
        var step := ConsiderDecisions(space, budget, ds, space.next(ds, order[0]), q);
        if step.Going? {
          ActivitiesAreSound(space, budget, polls, ds, order[1..], step.progress);
        }
      }
    }
  }

  lemma {:induction false} ParentsAreSound(space: Space, budget: Budget, polls: Polls, beam: seq<Candidate>,
                                           depth: nat, p: Progress)
    requires forall k | 0 <= k < |beam| :: |beam[k].decisions| == depth
    requires Sound(space, budget, depth + 1, p)
    ensures Sound(space, budget, depth + 1, ConsiderParents(space, budget, polls, beam, p).progress)
    decreases |beam|
  {
    if beam != [] {
      ActivitiesAreSound(space, budget, polls, beam[0].decisions, space.order, p);
      var step := ConsiderActivities(space, budget, polls, beam[0].decisions, space.order, p);
      if step.Going? {
        ParentsAreSound(space, budget, polls, beam[1..], depth, step.progress);
      }
    }
  }

  // ----- nothing viable is overlooked -----

  ghost predicate Reached(children: seq<Candidate>, ds: seq<Decision>) {
    exists k | 0 <= k < |children| :: children[k].decisions == ds
  }

  lemma {:induction false} ReachedGrows(before: seq<Candidate>, after: seq<Candidate>, ds: seq<Decision>)
    requires before <= after && Reached(before, ds)
    ensures Reached(after, ds)
  {
    var k :| 0 <= k < |before| && before[k].decisions == ds;
    assert after[k].decisions == ds;
  }

  /** If the search goes on, a viable child has been admitted. */
  lemma {:induction false} DecisionIsReached(space: Space, budget: Budget, ds: seq<Decision>, next: seq<Decision>,
                                             p: Progress, d: Decision)
    ensures var step := ConsiderDecisions(space, budget, ds, next, p);
      && p.children <= step.progress.children
      && (step.Going? && d in next && space.viable(ds + [d]) ==> Reached(step.progress.children, ds + [d]))
    decreases |next|
  {
    if next != [] {
      var child := ds + [next[0]];
      if !space.viable(child) {
        DecisionIsReached(space, budget, ds, next[1..], p, d);
      } else if p.candidates < budget.maxCandidates {
        var q := Admit(space.size, Candidate(child, space.score(child)), p);
        DecisionIsReached(space, budget, ds, next[1..], q, d);
        assert q.children[|p.children|].decisions == child;
        ReachedGrows(q.children, ConsiderDecisions(space, budget, ds, next[1..], q).progress.children, child);
      }
    }
  }

  lemma {:induction false} ActivityIsReached(space: Space, budget: Budget, polls: Polls, ds: seq<Decision>,
                                             order: seq<nat>, p: Progress, i: nat, d: Decision)
    ensures var step := ConsiderActivities(space, budget, polls, ds, order, p);
      && p.children <= step.progress.children
      && (step.Going? && i in order && !space.decided(ds, i) && d in space.next(ds, i) && space.viable(ds + [d]) ==>
            Reached(step.progress.children, ds + [d]))
    decreases |order|
  {
    if order != [] {
      if space.decided(ds, order[0]) {
        ActivityIsReached(space, budget, polls, ds, order[1..], p, i, d);
      } else if !polls.stop(p.expansions + 1) && !polls.late(p.expansions + 1) && p.expansions < budget.maxExpansions {
        var q := p.(expansions := p.expansions + 1);
        DecisionIsReached(space, budget, ds, space.next(ds, order[0]), q, d);
        var step := ConsiderDecisions(space, budget, ds, space.next(ds, order[0]), q);
        if step.Going? {
          ActivityIsReached(space, budget, polls, ds, order[1..], step.progress, i, d);
          if Reached(step.progress.children, ds + [d]) {
            ReachedGrows(step.progress.children,
                         ConsiderActivities(space, budget, polls, ds, order[1..], step.progress).progress.children, ds + [d]);
          }
        }
      }
    }
  }

  /** Every viable path is generated from its own prefix, which is viable too. */
  ghost predicate Regular(space: Space) {
    forall ds: seq<Decision>, d: Decision | space.viable(ds + [d]) :: space.viable(ds) && Generated(space, ds, d)
  }

  ghost predicate Generated(space: Space, ds: seq<Decision>, d: Decision) {
    exists i | i in space.order :: !space.decided(ds, i) && d in space.next(ds, i)
  }

  lemma {:induction false} ChildIsReached(space: Space, budget: Budget, polls: Polls, beam: seq<Candidate>, p: Progress,
                                          ds: seq<Decision>, d: Decision)
    ensures var step := ConsiderParents(space, budget, polls, beam, p);
      && p.children <= step.progress.children
      && (step.Going? && Reached(beam, ds) && Generated(space, ds, d) && space.viable(ds + [d]) ==>
            Reached(step.progress.children, ds + [d]))
    decreases |beam|
  {
    if beam != [] {
      var first := beam[0].decisions;
      var i := if Generated(space, ds, d) then
                 var i :| i in space.order && !space.decided(ds, i) && d in space.next(ds, i); i
               else 0;
      ActivityIsReached(space, budget, polls, first, space.order, p, i, d);
      var step := ConsiderActivities(space, budget, polls, first, space.order, p);
      if step.Going? {
        ChildIsReached(space, budget, polls, beam[1..], step.progress, ds, d);
        if Reached(step.progress.children, ds + [d]) {
          ReachedGrows(step.progress.children,
                       ConsiderParents(space, budget, polls, beam[1..], step.progress).progress.children, ds + [d]);
        }
        if Reached(beam, ds) && ds != first {
          var k :| 0 <= k < |beam| && beam[k].decisions == ds;
          assert beam[1..][k - 1].decisions == ds;
        }
      }
    }
  }

  // ----- whole levels -----

  /** The beam holds everything viable at its depth. */
  ghost predicate CoversLevel(space: Space, depth: nat, beam: seq<Candidate>) {
    forall ds: seq<Decision> | |ds| == depth && space.viable(ds) :: Reached(beam, ds)
  }

  lemma {:induction false} NextLevelReaches(space: Space, budget: Budget, polls: Polls, depth: nat, beam: seq<Candidate>, p: Progress,
                         ds: seq<Decision>)
    requires Regular(space) && CoversLevel(space, depth, beam)
    requires ConsiderParents(space, budget, polls, beam, p).Going?
    requires |ds| == depth + 1 && space.viable(ds)
    ensures Reached(ConsiderParents(space, budget, polls, beam, p).progress.children, ds)
  {
    var front, last := ds[..depth], ds[depth];
    assert ds == front + [last];
    assert space.viable(front + [last]);
    ChildIsReached(space, budget, polls, beam, p, front, last);
  }

  /** An uncut level leads to an uncut next level. */
  lemma {:induction false} NextLevelIsCovered(space: Space, budget: Budget, polls: Polls, depth: nat, beam: seq<Candidate>, p: Progress)
    requires Regular(space) && CoversLevel(space, depth, beam)
    requires ConsiderParents(space, budget, polls, beam, p).Going?
    ensures CoversLevel(space, depth + 1, ConsiderParents(space, budget, polls, beam, p).progress.children)
  {
    forall ds: seq<Decision> | |ds| == depth + 1 && space.viable(ds)
      ensures Reached(ConsiderParents(space, budget, polls, beam, p).progress.children, ds)
    {
      NextLevelReaches(space, budget, polls, depth, beam, p, ds);
    }
  }

  lemma {:induction false} RetainKeeps(budget: Budget, children: seq<Candidate>)
    ensures forall k | 0 <= k < |Retain(budget, children)| :: Retain(budget, children)[k] in children
    ensures |Retain(budget, children)| == Min(|children|, budget.beamWidth)
  {
    var sorted := Sort(BetterPartial, children);
    SameElements(sorted, children);
    forall k | 0 <= k < |Retain(budget, children)| ensures Retain(budget, children)[k] in children {
      assert sorted[k] in sorted;
    }
  }

  lemma {:induction false} RetainReaches(budget: Budget, children: seq<Candidate>, ds: seq<Decision>)
    requires |children| <= budget.beamWidth && Reached(children, ds)
    ensures Reached(Retain(budget, children), ds)
  {
    var k :| 0 <= k < |children| && children[k].decisions == ds;
    SameElements(children, Retain(budget, children));
    assert children[k] in Retain(budget, children);
    var m :| 0 <= m < |Retain(budget, children)| && Retain(budget, children)[m] == children[k];
  }

  /** Truncation drops no candidate better than one it keeps. */
  lemma {:induction false} RetainKeepsTheBest(budget: Budget, children: seq<Candidate>)
    ensures var sorted := Sort(BetterPartial, children);
      && multiset(sorted) == multiset(children)
      && Retain(budget, children) == sorted[..Min(|children|, budget.beamWidth)]
      && forall i, j | 0 <= i < |Retain(budget, children)| <= j < |sorted| ::
           !BetterPartial(sorted[j], Retain(budget, children)[i])
  {
    BetterPartialStrictTotal();
    StrictTotalIsStrictOrder(BetterPartial);
    SortSorts(BetterPartial, children);
  }

  /** A complete path through the space. */
  ghost predicate Plan(space: Space, ds: seq<Decision>) {
    |ds| == space.size && space.viable(ds)
  }

  ghost predicate Optimal(space: Space, best: Candidate) {
    forall ds | Plan(space, ds) :: !Better(space.score(ds), best.score)
  }

  /** What a result may claim: budgets are kept; a plan is returned exactly by
      the two successful outcomes and carries its own score; "infeasible" means
      there is no plan; an uncut complete search returns a best plan. */
  ghost predicate Truthful(space: Space, budget: Budget, r: Result) {
    && r.expansions <= budget.maxExpansions
    && r.candidates <= budget.maxCandidates
    && (r.best.Some? <==> r.outcome in {Complete, BestSoFar})
    && (r.best.Some? ==> Plan(space, r.best.value.decisions) && space.score(r.best.value.decisions) == r.best.value.score)
    && (r.outcome == ExhaustiveInfeasible ==> !r.truncated && forall ds :: !Plan(space, ds))
    && (r.outcome == Complete && !r.truncated ==> Optimal(space, r.best.value))
  }

  lemma {:induction false} ViableTake(space: Space, ds: seq<Decision>, k: nat)
    requires Regular(space) && space.viable(ds) && k <= |ds|
    ensures space.viable(ds[..k])
    decreases |ds|
  {
    if k < |ds| {
      var front, last := ds[..|ds| - 1], ds[|ds| - 1];
      assert ds == front + [last];
      ViableTake(space, front, k);
      assert front[..k] == ds[..k];
    } else {
      assert ds[..k] == ds;
    }
  }

  lemma {:induction false} NoChildrenNoPlan(space: Space, depth: nat)
    requires Regular(space) && depth < space.size && CoversLevel(space, depth + 1, [])
    ensures forall ds :: !Plan(space, ds)
  {
    forall ds ensures !Plan(space, ds) {
      if Plan(space, ds) {
        ViableTake(space, ds, depth + 1);
        assert false;
      }
    }
  }

  lemma {:induction false} LastLevelIsOptimal(space: Space, budget: Budget, p: Progress)
    requires Sound(space, budget, space.size, p) && p.best.Some? && CoversLevel(space, space.size, p.children)
    ensures Optimal(space, p.best.value)
  {
    forall ds | Plan(space, ds) ensures !Better(space.score(ds), p.best.value.score) {
      var k :| 0 <= k < |p.children| && p.children[k].decisions == ds;
      assert SoundCandidate(space, p.children[k], space.size);
    }
  }

  lemma {:induction false} BestIsPlan(space: Space, budget: Budget, depth: nat, p: Progress)
    requires Sound(space, budget, depth, p)
    ensures p.best.Some? ==>
            Plan(space, p.best.value.decisions) && space.score(p.best.value.decisions) == p.best.value.score
  {
    if p.best.Some? {
      var k :| 0 <= k < |p.children| && p.children[k] == p.best.value;
      assert SoundCandidate(space, p.children[k], depth);
    }
  }

  /** What holds of the beam before each depth. */
  ghost predicate LevelReady(space: Space, budget: Budget, depth: nat, beam: seq<Candidate>, p: Progress, truncated: bool) {
    && (forall k | 0 <= k < |beam| :: |beam[k].decisions| == depth)
    && p.best.None? && p.expansions <= budget.maxExpansions && p.candidates <= budget.maxCandidates
    && (!truncated ==> CoversLevel(space, depth, beam))
  }

  lemma {:induction false} NextLevelReady(space: Space, budget: Budget, depth: nat, p: Progress, truncated: bool)
    requires Sound(space, budget, depth, p) && depth < space.size
    requires !truncated ==> CoversLevel(space, depth, p.children)
    ensures LevelReady(space, budget, depth, Retain(budget, p.children), p,
                       truncated || |p.children| > budget.beamWidth)
  {
    RetainKeeps(budget, p.children);
    var kept := Retain(budget, p.children);
    forall k | 0 <= k < |kept| ensures |kept[k].decisions| == depth {
      var m :| 0 <= m < |p.children| && p.children[m] == kept[k];
      assert SoundCandidate(space, p.children[m], depth);
    }
    if !truncated && |p.children| <= budget.beamWidth {
      forall ds: seq<Decision> | |ds| == depth && space.viable(ds) ensures Reached(kept, ds) {
        RetainReaches(budget, p.children, ds);
      }
    }
  }

  /** What one more level comes to: the budgets are kept, the next beam is no
      wider than allowed, and a complete plan is on hand exactly when the last
      level has a child.  So a level without children never has one, and the
      loop over levels never ends without one. */
  lemma {:induction false} LevelEnds(space: Space, budget: Budget, polls: Polls, depth: nat, beam: seq<Candidate>, p: Progress,
                                     truncated: bool)
    requires depth < space.size && LevelReady(space, budget, depth, beam, p, truncated)
    ensures var q := ConsiderParents(space, budget, polls, beam, p.(children := [])).progress;
      && q.expansions <= budget.maxExpansions && q.candidates <= budget.maxCandidates
      && |Retain(budget, q.children)| <= budget.beamWidth
      && (q.best.Some? <==> depth + 1 == space.size && q.children != [])
  {
    var q := p.(children := []);
    assert Sound(space, budget, depth + 1, q);
    ParentsAreSound(space, budget, polls, beam, depth, q);
    RetainKeeps(budget, ConsiderParents(space, budget, polls, beam, q).progress.children);
  }

  lemma {:induction false} LevelsAreTruthful(space: Space, budget: Budget, polls: Polls, depth: nat,
                                             beam: seq<Candidate>, p: Progress, truncated: bool)
    requires Regular(space) && depth < space.size && LevelReady(space, budget, depth, beam, p, truncated)
    ensures Truthful(space, budget, Levels(space, budget, polls, depth, beam, p, truncated))
    decreases space.size - depth
  {
    var q := p.(children := []);
    var step := ConsiderParents(space, budget, polls, beam, q);
    assert Sound(space, budget, depth + 1, q);
    ParentsAreSound(space, budget, polls, beam, depth, q);
    BestIsPlan(space, budget, depth + 1, step.progress);
    if step.Going? {
      if !truncated { NextLevelIsCovered(space, budget, polls, depth, beam, q); }
      if step.progress.children == [] {
        if !truncated { NoChildrenNoPlan(space, depth); }
      } else if depth + 1 == space.size {
        if !truncated { LastLevelIsOptimal(space, budget, step.progress); }
      } else {
        NextLevelReady(space, budget, depth + 1, step.progress, truncated);
        LevelsAreTruthful(space, budget, polls, depth + 1, Retain(budget, step.progress.children), step.progress,
                          truncated || |step.progress.children| > budget.beamWidth);
      }
    }
  }

  /** Every result of the traversal is truthful. */
  lemma {:induction false} SearchIsTruthful(space: Space, budget: Budget, polls: Polls)
    requires Regular(space) && (space.size == 0 ==> space.viable([]))
    ensures Truthful(space, budget, SearchFrom(space, budget, polls))
  {
    var root := Candidate([], space.score([]));
    if space.size == 0 {
      BetterIrreflexive(root.score);
      assert forall ds: seq<Decision> | |ds| == 0 :: ds == [];
    } else {
      assert CoversLevel(space, 0, [root]) by {
        forall ds: seq<Decision> | |ds| == 0 ensures Reached([root], ds) {
          assert [root][0].decisions == ds;
        }
      }
      LevelsAreTruthful(space, budget, polls, 0, [root], Progress([], None, 0, 0), false);
    }
  }
}

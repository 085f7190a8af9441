/** The search as it runs: worker-owned scratch storage, paths as parent indices,
    and every optional fast form.  It returns what the plain search returns. */
module BeamSearchRun {
  import opened Domain
  import opened Folding
  import opened PlannerInput
  import opened Alternatives
  import opened CandidateScores
  import opened Scoring
  import opened SearchSpace
  import opened Search
  import opened TripSearch
  import opened PlannerColumns
  import opened ScoreLoop
  import opened Expansion
  import opened PathArena
  import opened BeamSelection

  /** Which measured variants are switched on. */
  datatype Options = Options(useColumns: bool, validatedInput: bool, reuseBoundBuffer: bool, partialSelection: bool)

  /** The running totals of one search. */
  datatype Tally = Tally(best: Option<ScratchCandidate>, expansions: nat, candidates: nat)

  // ----- what the arena means to the traversal -----

  ghost predicate Stored(nodes: seq<PathNode>, children: seq<ScratchCandidate>, t: Tally) {
    ArenaOk(nodes) && AllLive(nodes, children) && (t.best.Some? ==> Live(nodes, t.best.value))
  }

  ghost function Meaning(nodes: seq<PathNode>, children: seq<ScratchCandidate>, t: Tally): Progress
    requires Stored(nodes, children, t)
  {
    Progress(Views(nodes, children), if t.best.Some? then Some(View(nodes, t.best.value)) else None,
             t.expansions, t.candidates)
  }

  /** The child the implementation builds for a node it has just appended. */
  function ChildOf(nodes: seq<PathNode>, parent: ScratchCandidate, score: Score): ScratchCandidate {
    ScratchCandidate(Some(|nodes|), parent.depth + 1, score)
  }

  function Admitted(size: nat, t: Tally, child: ScratchCandidate): Tally {
    Tally(if child.depth == size && (t.best.None? || Better(child.score, t.best.value.score)) then Some(child) else t.best,
          t.expansions, t.candidates + 1)
  }

  lemma {:induction false} MeaningIsStable(nodes: seq<PathNode>, longer: seq<PathNode>, children: seq<ScratchCandidate>, t: Tally)
    requires Stored(nodes, children, t) && ArenaOk(longer) && nodes <= longer
    ensures Stored(longer, children, t) && Meaning(longer, children, t) == Meaning(nodes, children, t)
  {
    ViewsAreStable(nodes, longer, children);
    if t.best.Some? { PathIsStable(nodes, longer, t.best.value.path); }
  }

  /** Appending a node and its candidate is admitting the child. */
  lemma {:induction false} AdmittedMeansAdmit(nodes: seq<PathNode>, children: seq<ScratchCandidate>, t: Tally, size: nat,
                                              parent: ScratchCandidate, d: Decision, score: Score)
    requires Stored(nodes, children, t) && Live(nodes, parent)
    ensures var longer := nodes + [PathNode(parent.path, d)];
      var child := ChildOf(nodes, parent, score);
      && Stored(longer, children + [child], Admitted(size, t, child))
      && Meaning(longer, children + [child], Admitted(size, t, child))
         == Admit(size, Candidate(Path(nodes, parent.path) + [d], score), Meaning(nodes, children, t))
  {
    var longer := nodes + [PathNode(parent.path, d)];
    var child := ChildOf(nodes, parent, score);
    PathOfChild(nodes, parent.path, d);
    MeaningIsStable(nodes, longer, children, t);
    assert Live(longer, child) && View(longer, child) == Candidate(Path(nodes, parent.path) + [d], score);
    assert AllLive(longer, children + [child]);
    assert Views(longer, children + [child]) == Views(longer, children) + [View(longer, child)];
  }

  /** The scratch serves this input: its columns, if any, are the input's, and
      `space` is the space to walk.  The loops pass the fact on folded; a step
      that needs it asks. */
  ghost predicate Serves(space: Space, input: SearchInput, columns: Option<Columns>) {
    forall now {:trigger Ask(now)} :: Ask(now) ==> Usable(input, columns) && space == SpaceOf(input)
  }

  lemma {:induction false} SpaceSize(space: Space, input: SearchInput, columns: Option<Columns>)
    requires Serves(space, input, columns)
    ensures space.size == |input.remaining|
  {
    assert Ask(true);
  }

  /** The traversal function ends as the loop did. */
  ghost predicate StepIs(step: Step, stop: Option<Outcome>, p: Progress) {
    step == if stop.None? then Going(p) else Stopped(stop.value, p)
  }

  // ----- one child -----

  ghost function Judged(space: Space, ds: seq<Decision>): Option<Score> {
    if space.viable(ds) then Some(space.score(ds)) else None
  }

  lemma {:induction false} OneDecision(space: Space, budget: Budget, path: seq<Decision>, ds: seq<Decision>, k: nat, p: Progress)
    requires k < |ds|
    ensures ConsiderDecisions(space, budget, path, ds[k..], p)
            == var score := Judged(space, path + [ds[k]]);
               if score.Some? && p.candidates >= budget.maxCandidates then Stopped(SearchLimited, p)
               else ConsiderDecisions(space, budget, path, ds[k + 1..],
                      if score.Some? then Admit(space.size, Candidate(path + [ds[k]], score.value), p) else p)
  {
    assert ds[k..][0] == ds[k] && ds[k..][1..] == ds[k + 1..];
  }

  /** One turn of the loop over a parent's activities. */
  lemma {:induction false} OneActivity(space: Space, budget: Budget, polls: Polls, path: seq<Decision>, order: seq<nat>,
                                       k: nat, p: Progress)
    requires k < |order|
    ensures ConsiderActivities(space, budget, polls, path, order[k..], p)
            == if space.decided(path, order[k]) then ConsiderActivities(space, budget, polls, path, order[k + 1..], p)
               else if Halt(budget, polls, p.expansions).Some? then Stopped(Halt(budget, polls, p.expansions).value, p)
               else
                 var step := ConsiderDecisions(space, budget, path, space.next(path, order[k]),
                                               p.(expansions := p.expansions + 1));
                 if step.Stopped? then step
                 else ConsiderActivities(space, budget, polls, path, order[k + 1..], step.progress)
  {
    assert order[k..][0] == order[k] && order[k..][1..] == order[k + 1..];
  }

  ghost predicate MarkedAt(space: Space, path: seq<Decision>, decided: seq<bool>, i: nat) {
    |decided| == space.size && i < space.size && decided[i] == space.decided(path, i)
  }

  ghost predicate KnownAll(input: SearchInput, beam: seq<Candidate>) {
    forall k | 0 <= k < |beam| :: Known(input, beam[k].decisions)
  }

  method MarkPath(ghost space: Space, input: SearchInput, columns: Option<Columns>, path: seq<Decision>, buffer: seq<bool>)
    returns (decided: seq<bool>)
    requires Serves(space, input, columns) && Known(input, path)
    ensures forall k | 0 <= k < |space.order| :: MarkedAt(space, path, decided, space.order[k])
  {
    assert Ask(true);
    decided := MarkDecided(input, columns, path, buffer);
    OrderCoversAll(input);
    forall k | 0 <= k < |space.order| ensures MarkedAt(space, path, decided, space.order[k]) {
      assert space.order[k] in ActivityOrder(input);
    }
  }

  lemma {:induction false} LevelsIgnoreChildren(space: Space, budget: Budget, polls: Polls, depth: nat, beam: seq<Candidate>,
                                                p: Progress, q: Progress, truncated: bool)
    requires depth <= space.size && q == p.(children := q.children)
    ensures Levels(space, budget, polls, depth, beam, p, truncated) == Levels(space, budget, polls, depth, beam, q, truncated)
  {
  }

  /** One unfolding of the loop over depths. */
  lemma {:induction false} LevelStep(space: Space, budget: Budget, polls: Polls, depth: nat, beam: seq<Candidate>, p: Progress,
                                     truncated: bool, stop: Option<Outcome>, q: Progress)
    requires depth < space.size && LevelReady(space, budget, depth, beam, p, true)
    requires StepIs(ConsiderParents(space, budget, polls, beam, p.(children := [])), stop, q)
    ensures Sound(space, budget, depth + 1, q)
    ensures Levels(space, budget, polls, depth, beam, p, truncated)
            == if stop.Some? then Interrupted(stop.value, q, truncated)
               else if q.children == [] then
                 if q.best.Some? then Interrupted(Complete, q, truncated) else Exhausted(q, truncated)
               else Levels(space, budget, polls, depth + 1, Retain(budget, q.children), q,
                           truncated || |q.children| > budget.beamWidth)
  {
    assert Sound(space, budget, depth + 1, p.(children := []));
    ParentsAreSound(space, budget, polls, beam, depth, p.(children := []));
  }

  /** The kept children are viable paths of their depth. */
  lemma {:induction false} NextBeam(space: Space, input: SearchInput, columns: Option<Columns>, budget: Budget, depth: nat, q: Progress)
    requires Serves(space, input, columns) && depth < space.size && Sound(space, budget, depth, q)
    ensures KnownAll(input, Retain(budget, q.children))
    ensures LevelReady(space, budget, depth, Retain(budget, q.children), q, true)
  {
    NextLevelReady(space, budget, depth, q, true);
    RetainKeeps(budget, q.children);
    SoundIsKnown(space, input, columns, budget, depth, q);
  }

  lemma {:induction false} SoundIsKnown(space: Space, input: SearchInput, columns: Option<Columns>, budget: Budget,
                                        depth: nat, p: Progress)
    requires Serves(space, input, columns) && Sound(space, budget, depth, p)
    ensures KnownAll(input, p.children)
  {
    assert Ask(true);
    forall k | 0 <= k < |p.children| ensures Known(input, p.children[k].decisions) {
      assert SoundCandidate(space, p.children[k], depth);
      assert Viable(input, p.children[k].decisions);
    }
  }

  /** Every duration and latest start fits in 64-bit milliseconds. */
  predicate ColumnsFit(input: SearchInput)
    requires input.Valid()
  {
    forall i | 0 <= i < |input.remaining| :: Representable(input.remaining[i])
  }

  /** Why an expansion may not start: stopped, late or out of expansions, asked in that order. */
  function Halt(budget: Budget, polls: Polls, expansions: nat): Option<Outcome> {
    if polls.stop(expansions + 1) then Some(Cancelled)
    else if polls.late(expansions + 1) then Some(DeadlineExceeded)
    else if expansions >= budget.maxExpansions then Some(SearchLimited)
    else None
  }

  /** The score of a path that the lower bound does not prune. */
  method Evaluate(ghost space: Space, input: SearchInput, ds: seq<Decision>, columns: Option<Columns>, options: Options, buffer: seq<bool>)
    returns (score: Option<Score>, marked: seq<bool>)
    requires Serves(space, input, columns)
    ensures score == Judged(space, ds)
  {
    assert Ask(true);
    marked := buffer;
    score := ComputeScore(input, ds, columns, !options.validatedInput);
    if score.Some? {
      assert Accepted(input, ds);
      var passes, decided := PassesBound(input, ds, if options.reuseBoundBuffer then buffer else [], !options.validatedInput);
      if options.reuseBoundBuffer { marked := decided; }
      if !passes { score := None; }
    }
  }

  /** The empty path always has a score. */
  method InitialScore(ghost space: Space, input: SearchInput, columns: Option<Columns>, options: Options)
    returns (score: Score)
    requires Serves(space, input, columns)
    ensures score == space.score([])
  {
    assert Ask(true);
    var initial := ComputeScore(input, [], columns, !options.validatedInput);
    assert Accepted(input, []);
    score := initial.value;
  }

  method OrderOf(ghost space: Space, input: SearchInput, ghost columns: Option<Columns>) returns (order: seq<nat>)
    requires Serves(space, input, columns)
    ensures order == space.order
  {
    assert Ask(true);
    order := ActivityOrder(input);
  }

  class PlannerScratch {
    var pathNodes: seq<PathNode>
    var beam: seq<ScratchCandidate>
    var children: seq<ScratchCandidate>
    var activityOrder: seq<nat>
    var decided: seq<bool>
    var working: seq<Decision>
    var boundBuffer: seq<bool>
    var columns: Option<Columns>
    var options: Options

    constructor (options: Options)
      ensures this.options == options
    {
      this.options := options;
      pathNodes, beam, children, activityOrder := [], [], [], [];
      decided, working, boundBuffer, columns := [], [], [], None;
    }

    ghost predicate Holds(t: Tally)
      reads this
    {
      Stored(pathNodes, children, t) && AllLive(pathNodes, beam)
    }

    /** What the arena and the totals mean to the traversal. */
    ghost function Reached(t: Tally): Progress
      requires Holds(t)
      reads this
    {
      Meaning(pathNodes, children, t)
    }

    /** Admits the child whose node has just been appended, or takes the node
        off again: because it was rejected, or because the budget is spent. */
    method Settle(size: nat, budget: Budget, parent: ScratchCandidate, ghost nodes: seq<PathNode>, ghost d: Decision,
                  score: Option<Score>, t: Tally)
      returns (next: Tally, full: bool)
      requires ArenaOk(nodes) && Live(nodes, parent) && AllLive(nodes, beam) && Stored(nodes, children, t)
      requires pathNodes == nodes + [PathNode(parent.path, d)] && working == Path(nodes, parent.path) + [d]
      modifies this`pathNodes, this`children, this`working
      ensures full <==> score.Some? && t.candidates >= budget.maxCandidates
      ensures nodes <= pathNodes && working == Path(nodes, parent.path)
      ensures Holds(next)
      ensures Reached(next) ==
        if score.Some? && !full
        then Admit(size, Candidate(Path(nodes, parent.path) + [d], score.value), Meaning(nodes, old(children), t))
        else Meaning(nodes, old(children), t)
    {
      next, full := t, score.Some? && t.candidates >= budget.maxCandidates;
      working := working[..|working| - 1];
      if score.None? || full {
        pathNodes := pathNodes[..|pathNodes| - 1];
        return;
      }
      var child := ScratchCandidate(Some(|pathNodes| - 1), parent.depth + 1, score.value);
      AdmittedMeansAdmit(nodes, children, t, size, parent, d, score.value);
      ViewsAreStable(nodes, pathNodes, beam);
      next := Admitted(size, t, child);
      children := children + [child];
    }

    /** Appends one child to the arena, scores it and settles it. */
    method TryChild(ghost space: Space, input: SearchInput, budget: Budget, parent: ScratchCandidate, d: Decision, t: Tally)
      returns (next: Tally, full: bool, score: Option<Score>)
      requires Serves(space, input, columns) && Holds(t) && Live(pathNodes, parent)
      requires working == Path(pathNodes, parent.path)
      modifies this`pathNodes, this`children, this`working, this`boundBuffer
      ensures Holds(next) && old(pathNodes) <= pathNodes && working == old(working)
      ensures score == Judged(space, working + [d])
      ensures full <==> score.Some? && t.candidates >= budget.maxCandidates
      ensures Reached(next)
              == if score.Some? && !full
                 then Admit(space.size, Candidate(working + [d], score.value), old(Reached(t)))
                 else old(Reached(t))
    {
      ghost var nodes := pathNodes;
      SpaceSize(space, input, columns);
      pathNodes := pathNodes + [PathNode(parent.path, d)];
      working := working + [d];
      var marked;
      score, marked := Evaluate(space, input, working, columns, options, boundBuffer);
      boundBuffer := marked;
      next, full := Settle(|input.remaining|, budget, parent, nodes, d, score, t);
    }

    method TryAlternatives(ghost space: Space, input: SearchInput, budget: Budget, parent: ScratchCandidate, alternatives: seq<Alternative>, t: Tally)
      returns (next: Tally, stop: Option<Outcome>)
      requires Serves(space, input, columns) && Holds(t) && Live(pathNodes, parent)
      requires working == Path(pathNodes, parent.path)
      modifies this`pathNodes, this`children, this`working, this`boundBuffer
      ensures Holds(next) && old(pathNodes) <= pathNodes && working == old(working)
      ensures StepIs(ConsiderDecisions(space, budget, working, DecisionsOf(alternatives), old(Reached(t))),
                     stop, Reached(next))
    {
      ghost var ds := DecisionsOf(alternatives);
      ghost var path := working;
      next, stop := t, None;
      assert ds[0..] == ds;
      for k := 0 to |alternatives|
        invariant Holds(next) && old(pathNodes) <= pathNodes && working == path && Live(pathNodes, parent)
        invariant path == Path(pathNodes, parent.path)
        invariant ConsiderDecisions(space, budget, path, ds[k..], Reached(next))
                  == ConsiderDecisions(space, budget, path, ds, old(Reached(t)))
      {
        ghost var nodes, p := pathNodes, Reached(next);
        var full, score;
        next, full, score := TryChild(space, input, budget, parent, DecisionOf(alternatives[k]), next);
        PathIsStable(nodes, pathNodes, parent.path);
        OneDecision(space, budget, path, ds, k, p);
        if full {
          stop := Some(SearchLimited);
          return;
        }
      }
    }

    /** Generates and tries the alternatives of one undecided activity. */
    method ExpandActivity(ghost space: Space, input: SearchInput, budget: Budget, parent: ScratchCandidate, index: nat, t: Tally)
      returns (next: Tally, stop: Option<Outcome>)
      requires Serves(space, input, columns) && Holds(t) && Live(pathNodes, parent)
      requires working == Path(pathNodes, parent.path) && Known(input, working) && index < space.size
      modifies this`pathNodes, this`children, this`working, this`boundBuffer
      ensures Holds(next) && old(pathNodes) <= pathNodes && working == old(working)
      ensures StepIs(ConsiderDecisions(space, budget, working, space.next(working, index), old(Reached(t))),
                     stop, Reached(next))
    {
      assert Ask(true);
      var arrival := ArrivalOf(input, columns, working, index);
      var alternatives := GenerateAlternatives(input, input.remaining[index], arrival, !options.validatedInput);
      assert alternatives == AlternativesFor(input, input.remaining[index], arrival);
      assert space.next(working, index) == DecisionsOf(alternatives);
      next, stop := TryAlternatives(space, input, budget, parent, alternatives, t);
    }

    /** One activity of a parent: passed over if it is decided, expanded if the
        stop token, the clock and the expansion budget allow it. */
    method ConsiderActivity(ghost space: Space, input: SearchInput, budget: Budget, polls: Polls, parent: ScratchCandidate,
                            k: nat, t: Tally)
      returns (next: Tally, stop: Option<Outcome>)
      requires Serves(space, input, columns) && Holds(t) && Live(pathNodes, parent) && k < |activityOrder|
      requires working == Path(pathNodes, parent.path) && Known(input, working)
      requires MarkedAt(space, working, decided, activityOrder[k])
      modifies this`pathNodes, this`children, this`working, this`boundBuffer
      ensures Holds(next) && old(pathNodes) <= pathNodes && Live(pathNodes, parent)
      ensures working == old(working) == Path(pathNodes, parent.path)
      ensures var step := ConsiderActivities(space, budget, polls, working, activityOrder[k..], old(Reached(t)));
        if stop.Some? then step == Stopped(stop.value, Reached(next))
        else step == ConsiderActivities(space, budget, polls, working, activityOrder[k + 1..], Reached(next))
    {
      ghost var nodes, p := pathNodes, Reached(t);
      next, stop := t, None;
      OneActivity(space, budget, polls, working, activityOrder, k, p);
      if decided[activityOrder[k]] {
        return;
      }
      stop := Halt(budget, polls, t.expansions);
      if stop.Some? {
        return;
      }
      assert Reached(t.(expansions := t.expansions + 1)) == p.(expansions := p.expansions + 1);
      next, stop := ExpandActivity(space, input, budget, parent, activityOrder[k], t.(expansions := t.expansions + 1));
      PathIsStable(nodes, pathNodes, parent.path);
    }

    /** Expands one parent: every undecided activity in ordinal order. */
    method ExpandActivities(ghost space: Space, input: SearchInput, budget: Budget, polls: Polls, parent: ScratchCandidate, t: Tally)
      returns (next: Tally, stop: Option<Outcome>)
      requires Serves(space, input, columns) && Holds(t) && Live(pathNodes, parent)
      requires working == Path(pathNodes, parent.path) && Known(input, working)
      requires forall k | 0 <= k < |activityOrder| :: MarkedAt(space, working, decided, activityOrder[k])
      modifies this`pathNodes, this`children, this`working, this`boundBuffer
      ensures Holds(next) && old(pathNodes) <= pathNodes
      ensures StepIs(ConsiderActivities(space, budget, polls, old(working), activityOrder, old(Reached(t))),
                     stop, Reached(next))
    {
      ghost var path := working;
      next, stop := t, None;
      assert activityOrder[0..] == activityOrder;
      for k := 0 to |activityOrder|
        invariant Holds(next) && old(pathNodes) <= pathNodes && working == path && Live(pathNodes, parent)
        invariant path == Path(pathNodes, parent.path) && stop.None?
        invariant ConsiderActivities(space, budget, polls, path, activityOrder[k..], Reached(next))
                  == ConsiderActivities(space, budget, polls, path, activityOrder, old(Reached(t)))
      {
        next, stop := ConsiderActivity(space, input, budget, polls, parent, k, next);
        if stop.Some? {
          return;
        }
      }
    }

    /** Reads a parent's decisions back from the arena and expands it. */
    method ExpandParent(ghost space: Space, input: SearchInput, budget: Budget, polls: Polls, parent: ScratchCandidate, t: Tally)
      returns (next: Tally, stop: Option<Outcome>)
      requires Serves(space, input, columns) && Holds(t) && Live(pathNodes, parent)
      requires Known(input, Path(pathNodes, parent.path)) && activityOrder == space.order
      modifies this`pathNodes, this`children, this`working, this`boundBuffer, this`decided
      ensures Holds(next) && old(pathNodes) <= pathNodes
      ensures StepIs(ConsiderActivities(space, budget, polls, old(Path(pathNodes, parent.path)), space.order, old(Reached(t))),
                     stop, Reached(next))
    {
      working := ReconstructDecisions(pathNodes, parent);
      decided := MarkPath(space, input, columns, working, decided);
      next, stop := ExpandActivities(space, input, budget, polls, parent, t);
    }

    /** Builds the children of one level. */
    method ExpandBeam(ghost space: Space, input: SearchInput, budget: Budget, polls: Polls, t: Tally)
      returns (next: Tally, stop: Option<Outcome>)
      requires Serves(space, input, columns) && Holds(t) && activityOrder == space.order
      requires KnownAll(input, Views(pathNodes, beam))
      modifies this`pathNodes, this`children, this`working, this`boundBuffer, this`decided
      ensures Holds(next) && old(pathNodes) <= pathNodes
      ensures StepIs(ConsiderParents(space, budget, polls, old(Views(pathNodes, beam)), old(Reached(t))), stop, Reached(next))
    {
      ghost var views := Views(pathNodes, beam);
      next, stop := t, None;
      assert views[0..] == views;
      for k := 0 to |beam|
        invariant Holds(next) && old(pathNodes) <= pathNodes && stop.None?
        invariant Views(pathNodes, beam) == views
        invariant ConsiderParents(space, budget, polls, views[k..], Reached(next))
                  == ConsiderParents(space, budget, polls, views, old(Reached(t)))
      {
        ghost var nodes, p := pathNodes, Reached(next);
        assert views[k] == View(nodes, beam[k]);
        assert views[k..][0] == views[k] && views[k..][1..] == views[k + 1..];
        next, stop := ExpandParent(space, input, budget, polls, beam[k], next);
        ViewsAreStable(nodes, pathNodes, beam);
        if stop.Some? {
          return;
        }
      }
    }

    /** The result of stopping, with the best candidate's decisions reconstructed. */
    method Report(outcome: Outcome, t: Tally, truncated: bool) returns (r: Result)
      requires Holds(t)
      ensures r == Interrupted(outcome, Reached(t), truncated)
    {
      var best := None;
      if t.best.Some? {
        var decisions := ReconstructDecisions(pathNodes, t.best.value);
        best := Some(Candidate(decisions, t.best.value.score));
      }
      r := Result(if t.best.Some? && outcome != Complete then BestSoFar else outcome,
                  best, t.expansions, t.candidates, truncated,
                  outcome == DeadlineExceeded, outcome == Cancelled);
    }

    /** The next beam: the best children, with the old beam's storage swapped in. */
    method KeepBest(budget: Budget, ghost t: Tally) returns (cut: bool)
      requires Holds(t)
      modifies this`beam, this`children
      ensures Holds(t) && cut == (|old(children)| > budget.beamWidth)
      ensures Views(pathNodes, beam) == Retain(budget, Views(pathNodes, old(children)))
    {
      cut := |children| > budget.beamWidth;
      children := SelectChildren(pathNodes, children, budget, options.partialSelection);
      beam, children := children, beam;
    }

    /** The result when no further level can be built. */
    method Conclude(t: Tally, truncated: bool) returns (r: Result)
      requires Holds(t)
      ensures r == if t.best.Some? then Interrupted(Complete, Reached(t), truncated) else Exhausted(Reached(t), truncated)
    {
      if t.best.Some? {
        r := Report(Complete, t, truncated);
      } else {
        r := Report(if truncated then SearchLimited else ExhaustiveInfeasible, t, truncated);
      }
    }

    ghost predicate AtLevel(space: Space, input: SearchInput, budget: Budget, depth: nat, t: Tally)
      reads this
    {
      && Holds(t) && Serves(space, input, columns) && activityOrder == space.order && depth <= space.size
      && |beam| <= budget.beamWidth && (0 < depth == space.size ==> t.best.Some?)
      && (depth < space.size ==>
            KnownAll(input, Views(pathNodes, beam)) && LevelReady(space, budget, depth, Views(pathNodes, beam), Reached(t), true))
    }

    ghost function Outlook(space: Space, budget: Budget, polls: Polls, depth: nat, t: Tally, truncated: bool): Result
      requires Holds(t) && depth <= space.size
      reads this
    {
      Levels(space, budget, polls, depth, Views(pathNodes, beam), Reached(t), truncated)
    }

    /** Moves on to the next depth with the best children. */
    method NextLevel(ghost space: Space, input: SearchInput, budget: Budget, ghost polls: Polls, ghost depth: nat,
                     t: Tally, truncated: bool) returns (cut: bool)
      requires Holds(t) && Serves(space, input, columns) && activityOrder == space.order && depth < space.size
      requires Sound(space, budget, depth + 1, Reached(t)) && children != []
      modifies this`beam, this`children
      ensures AtLevel(space, input, budget, depth + 1, t)
      ensures Outlook(space, budget, polls, depth + 1, t, truncated || cut)
              == old(var q := Reached(t);
                     Levels(space, budget, polls, depth + 1, Retain(budget, q.children), q,
                            truncated || |q.children| > budget.beamWidth))
    {
      ghost var q := Reached(t);
      cut := KeepBest(budget, t);
      if depth + 1 < space.size {
        NextBeam(space, input, columns, budget, depth + 1, q);
      }
      LevelsIgnoreChildren(space, budget, polls, depth + 1, Views(pathNodes, beam), q, Reached(t), truncated || cut);
    }

    /** One depth: expand the beam, then stop or keep the best children. */
    method SearchLevel(ghost space: Space, input: SearchInput, budget: Budget, polls: Polls, ghost depth: nat, t: Tally,
                       truncated: bool)
      returns (next: Tally, cut: bool, done: Option<Result>)
      requires AtLevel(space, input, budget, depth, t) && depth < space.size
      modifies this`pathNodes, this`beam, this`children, this`working, this`boundBuffer, this`decided
      ensures done.Some? ==> done.value == old(Outlook(space, budget, polls, depth, t, truncated))
      ensures done.None? ==>
        && AtLevel(space, input, budget, depth + 1, next)
        && Outlook(space, budget, polls, depth + 1, next, truncated || cut)
           == old(Outlook(space, budget, polls, depth, t, truncated))
    {
      ghost var p, views := Reached(t), Views(pathNodes, beam);
      var stop;
      cut, done := false, None;
      children := [];
      assert Reached(t) == p.(children := []);
      next, stop := ExpandBeam(space, input, budget, polls, t);
      LevelStep(space, budget, polls, depth, views, p, truncated, stop, Reached(next));
      if stop.Some? {
        var r := Report(stop.value, next, truncated);
        done := Some(r);
      } else if children == [] {
        var r := Conclude(next, truncated);
        done := Some(r);
      } else {
        cut := NextLevel(space, input, budget, polls, depth, next, truncated);
      }
    }

    /** The loop over depths. */
    method SearchLevels(ghost space: Space, input: SearchInput, budget: Budget, polls: Polls) returns (r: Result)
      requires AtLevel(space, input, budget, 0, Tally(None, 0, 0)) && 0 < space.size
      modifies this`pathNodes, this`beam, this`children, this`working, this`boundBuffer, this`decided
      ensures r == old(Outlook(space, budget, polls, 0, Tally(None, 0, 0), false))
    {
      var t, truncated, depth := Tally(None, 0, 0), false, 0;
      SpaceSize(space, input, columns);
      while depth < |input.remaining|
        invariant depth <= space.size && AtLevel(space, input, budget, depth, t)
        invariant Outlook(space, budget, polls, depth, t, truncated)
                  == old(Outlook(space, budget, polls, 0, Tally(None, 0, 0), false))
      {
        var cut, done;
        t, cut, done := SearchLevel(space, input, budget, polls, depth, t, truncated);
        if done.Some? {
          return done.value;
        }
        truncated, depth := truncated || cut, depth + 1;
      }
      assert t.best.Some?;
      r := Conclude(t, truncated);
    }

    method Reset()
      modifies this
      ensures options == old(options) && columns == None
      ensures pathNodes == [] && beam == [] && children == [] && activityOrder == []
    {
      pathNodes, beam, children, activityOrder := [], [], [], [];
      decided, working, boundBuffer, columns := [], [], [], None;
    }

    /** The search proper, once the input, the columns and the first polls are settled. */
    method SearchPlan(ghost space: Space, input: SearchInput, budget: Budget, polls: Polls) returns (r: Result)
      requires Serves(space, input, columns) && pathNodes == [] && beam == [] && children == [] && budget.Valid()
      modifies this
      ensures r == SearchFrom(space, budget, polls)
    {
      var initial := InitialScore(space, input, columns, options);
      SpaceSize(space, input, columns);
      if |input.remaining| == 0 {
        return Result(Complete, Some(Candidate([], initial)), 0, 0, false, false, false);
      }
      beam := [ScratchCandidate(None, 0, initial)];
      activityOrder := OrderOf(space, input, columns);
      assert Views(pathNodes, beam) == [Candidate([], space.score([]))];
      r := SearchLevels(space, input, budget, polls);
    }

    /** `run_beam_search`: whatever the scratch held before and whichever fast
        forms are on, the result is the plain search's, except that columns
        refuse an input whose durations do not fit in them. */
    method RunBeamSearch(input: SearchInput, budget: Budget, polls: Polls) returns (r: Result)
      modifies this
      ensures r == if input.Valid() && budget.Valid() && old(options).useColumns && !ColumnsFit(input)
                   then Refused(InvalidInput) else BeamSearch(input, budget, polls)
    {
      Reset();
      if !input.Valid() || !budget.Valid() {
        return Refused(InvalidInput);
      }
      if options.useColumns {
        columns := PrepareColumns(input);
        if columns.None? {
          return Refused(InvalidInput);
        }
      }
      if polls.stop(0) {
        return Refused(Cancelled);
      }
      if polls.late(0) {
        return Refused(DeadlineExceeded);
      }
      r := SearchPlan(SpaceOf(input), input, budget, polls);
    }
  }
}

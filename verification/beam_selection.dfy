/** Keeping the best children of a level, fully or partially sorted. */
module BeamSelection {
  import opened Sorting
  import opened CandidateScores
  import opened Search
  import opened PathArena

  /** A candidate with its decisions read back from the arena. */
  function ViewIn(nodes: seq<PathNode>): ScratchCandidate -> Candidate
    requires ArenaOk(nodes)
  {
    c => if Live(nodes, c) then View(nodes, c) else Candidate([], c.score)
  }

  /** The comparison the sort uses: it reconstructs both paths. */
  function ChildOrder(nodes: seq<PathNode>): (ScratchCandidate, ScratchCandidate) -> bool
    requires ArenaOk(nodes)
  {
    (a, b) => BetterPartial(ViewIn(nodes)(a), ViewIn(nodes)(b))
  }

  lemma {:induction false} ViewsAreMapped(nodes: seq<PathNode>, cs: seq<ScratchCandidate>)
    requires ArenaOk(nodes) && AllLive(nodes, cs)
    ensures Views(nodes, cs) == Map(ViewIn(nodes), cs)
  {
  }

  lemma {:induction false} ChildOrderIsStrict(nodes: seq<PathNode>, views: seq<Candidate>)
    requires ArenaOk(nodes)
    ensures StrictOrder(ChildOrder(nodes)) && StrictOrder(BetterPartial) && TellsApart(BetterPartial, views)
  {
    BetterPartialStrictTotal();
    StrictTotalIsStrictOrder(BetterPartial);
    var less, f := ChildOrder(nodes), ViewIn(nodes);
    forall a, b, c | less(a, b) && less(b, c) ensures less(a, c) {
      assert BetterPartial(f(a), f(b)) && BetterPartial(f(b), f(c));
    }
  }

  lemma {:induction false} FrontSortedThroughView(nodes: seq<PathNode>, cs: seq<ScratchCandidate>, k: nat)
    requires ArenaOk(nodes) && k <= |cs| && FrontSorted(ChildOrder(nodes), cs, k)
    ensures FrontSorted(BetterPartial, Map(ViewIn(nodes), cs), k)
  {
    var f := ViewIn(nodes);
    var front := Map(f, cs)[..k];
    assert forall i | 0 <= i < k :: front[i] == f(cs[..k][i]);
  }

  lemma {:induction false} StillLive(nodes: seq<PathNode>, before: seq<ScratchCandidate>, after: seq<ScratchCandidate>)
    requires ArenaOk(nodes) && AllLive(nodes, before) && multiset(before) == multiset(after)
    ensures AllLive(nodes, after)
  {
    SameElements(before, after);
    forall k | 0 <= k < |after| ensures Live(nodes, after[k]) {
      assert after[k] in before;
    }
  }

  lemma {:induction false} FrontOfViews(nodes: seq<PathNode>, cs: seq<ScratchCandidate>, k: nat)
    requires ArenaOk(nodes) && AllLive(nodes, cs) && k <= |cs|
    ensures AllLive(nodes, cs[..k]) && Views(nodes, cs[..k]) == Views(nodes, cs)[..k]
  {
  }

  lemma {:induction false} PartialSortRetains(nodes: seq<PathNode>, children: seq<ScratchCandidate>, budget: Budget,
                                              selected: seq<ScratchCandidate>)
    requires ArenaOk(nodes) && AllLive(nodes, children) && |children| > budget.beamWidth
    requires multiset(selected) == multiset(children) && |selected| == |children|
    requires FrontSorted(ChildOrder(nodes), selected, budget.beamWidth)
    ensures AllLive(nodes, selected)
    ensures Views(nodes, selected)[..budget.beamWidth] == Retain(budget, Views(nodes, children))
  {
    ChildOrderIsStrict(nodes, Views(nodes, children));
    StillLive(nodes, children, selected);
    ViewsAreMapped(nodes, children);
    ViewsAreMapped(nodes, selected);
    FrontSortedThroughView(nodes, selected, budget.beamWidth);
    MapPermutes(ViewIn(nodes), selected, children);
    PartialSortAgrees(BetterPartial, Views(nodes, children), Views(nodes, selected), budget.beamWidth);
  }

  lemma {:induction false} FullSortRetains(nodes: seq<PathNode>, children: seq<ScratchCandidate>, budget: Budget)
    requires ArenaOk(nodes) && AllLive(nodes, children)
    ensures var sorted := Sort(ChildOrder(nodes), children);
      && AllLive(nodes, sorted)
      && Retain(budget, Views(nodes, children))
         == if |children| > budget.beamWidth then Views(nodes, sorted)[..budget.beamWidth] else Views(nodes, sorted)
  {
    var sorted := Sort(ChildOrder(nodes), children);
    StillLive(nodes, children, sorted);
    ViewsAreMapped(nodes, children);
    ViewsAreMapped(nodes, sorted);
    SortThroughView(ViewIn(nodes), ChildOrder(nodes), BetterPartial, children);
  }

  /** Sorting everything and sorting only the front keep the same children. */
  method SelectChildren(nodes: seq<PathNode>, children: seq<ScratchCandidate>, budget: Budget, partialSelection: bool)
    returns (kept: seq<ScratchCandidate>)
    requires ArenaOk(nodes) && AllLive(nodes, children)
    ensures AllLive(nodes, kept) && Views(nodes, kept) == Retain(budget, Views(nodes, children))
  {
    if |children| > budget.beamWidth && partialSelection {
      ChildOrderIsStrict(nodes, Views(nodes, children));
      kept := SelectFront(ChildOrder(nodes), children, budget.beamWidth);
      PartialSortRetains(nodes, children, budget, kept);
    } else {
      kept := Sort(ChildOrder(nodes), children);
      FullSortRetains(nodes, children, budget);
    }
    if |children| > budget.beamWidth {
      FrontOfViews(nodes, kept, budget.beamWidth);
      kept := kept[..budget.beamWidth];
    }
  }
}

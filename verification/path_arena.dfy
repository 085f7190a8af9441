/** Search paths stored as parent indices, so that a child does not copy its
    parent's decisions. */
module PathArena {
  import opened Domain
  import opened CandidateScores

  datatype PathNode = PathNode(parent: Option<nat>, decision: Decision)

  datatype ScratchCandidate = ScratchCandidate(path: Option<nat>, depth: nat, score: Score)

  /** Parents come before their children. */
  predicate ArenaOk(nodes: seq<PathNode>) {
    forall i | 0 <= i < |nodes| && nodes[i].parent.Some? :: nodes[i].parent.value < i
  }

  predicate InArena(nodes: seq<PathNode>, path: Option<nat>) {
    path.Some? ==> path.value < |nodes|
  }

  /** The decisions from the root to a node. */
  function Path(nodes: seq<PathNode>, path: Option<nat>): seq<Decision>
    requires ArenaOk(nodes) && InArena(nodes, path)
    decreases if path.Some? then path.value + 1 else 0
  {
    if path.None? then [] else Path(nodes, nodes[path.value].parent) + [nodes[path.value].decision]
  }

  /** The candidate's parent chain exists and is as long as its depth says. */
  predicate Live(nodes: seq<PathNode>, c: ScratchCandidate)
    requires ArenaOk(nodes)
  {
    InArena(nodes, c.path) && |Path(nodes, c.path)| == c.depth
  }

  predicate AllLive(nodes: seq<PathNode>, cs: seq<ScratchCandidate>)
    requires ArenaOk(nodes)
  {
    forall k | 0 <= k < |cs| :: Live(nodes, cs[k])
  }

  /** The candidate with its decisions written out. */
  function View(nodes: seq<PathNode>, c: ScratchCandidate): Candidate
    requires ArenaOk(nodes) && Live(nodes, c)
  {
    Candidate(Path(nodes, c.path), c.score)
  }

  function Views(nodes: seq<PathNode>, cs: seq<ScratchCandidate>): seq<Candidate>
    requires ArenaOk(nodes) && AllLive(nodes, cs)
  {
    seq(|cs|, k requires 0 <= k < |cs| => View(nodes, cs[k]))
  }

  /** Appending to the arena, or dropping what was appended, leaves earlier paths alone. */
  lemma {:induction false} PathIsStable(nodes: seq<PathNode>, longer: seq<PathNode>, path: Option<nat>)
    requires ArenaOk(nodes) && ArenaOk(longer) && nodes <= longer && InArena(nodes, path)
    ensures Path(longer, path) == Path(nodes, path)
    decreases if path.Some? then path.value + 1 else 0
  {
    if path.Some? {
      PathIsStable(nodes, longer, nodes[path.value].parent);
    }
  }

  lemma {:induction false} ViewsAreStable(nodes: seq<PathNode>, longer: seq<PathNode>, cs: seq<ScratchCandidate>)
    requires ArenaOk(nodes) && ArenaOk(longer) && nodes <= longer && AllLive(nodes, cs)
    ensures AllLive(longer, cs) && Views(longer, cs) == Views(nodes, cs)
  {
    forall k | 0 <= k < |cs| ensures Live(longer, cs[k]) && View(longer, cs[k]) == View(nodes, cs[k]) {
      PathIsStable(nodes, longer, cs[k].path);
    }
  }

  /** The path of a node appended under a parent. */
  lemma {:induction false} PathOfChild(nodes: seq<PathNode>, parent: Option<nat>, d: Decision)
    requires ArenaOk(nodes) && InArena(nodes, parent)
    ensures var longer := nodes + [PathNode(parent, d)];
      ArenaOk(longer) && Path(longer, Some(|nodes|)) == Path(nodes, parent) + [d]
  {
    var longer := nodes + [PathNode(parent, d)];
    assert longer[|nodes|] == PathNode(parent, d);
    PathIsStable(nodes, longer, parent);
  }

  /** Follows the parent indices back to the root, filling the decisions from the end. */
  method ReconstructDecisions(nodes: seq<PathNode>, c: ScratchCandidate) returns (decisions: seq<Decision>)
    requires ArenaOk(nodes) && Live(nodes, c)
    ensures decisions == Path(nodes, c.path)
  {
    decisions := seq(c.depth, _ => Decision(0, 0, 0, 0));
    var path := c.path;
    var position := c.depth;
    while position > 0
      invariant 0 <= position <= c.depth == |decisions|
      invariant InArena(nodes, path) && |Path(nodes, path)| == position
      invariant Path(nodes, c.path) == Path(nodes, path) + decisions[position..]
    {
      var node := nodes[path.value];
      ghost var tail := decisions[position..];
      decisions := decisions[position - 1 := node.decision];
      assert decisions[position - 1..] == [node.decision] + tail;
      path := node.parent;
      position := position - 1;
    }
  }
}

/** Nesting stored sub-agent relations into a forest (internal/agenttree/tree.go).
    The node and parent slices are arrays, marked in place. */
module AgentTree {
  import opened Prelude
  import opened ParentWalk

  datatype ParentState =
    | ParentAgentObserved | ParentAgentNotRetained | ParentConflict
    | ParentCycle | MainSessionObserved | ParentUnknown

  /** A stored relation: its ids, the spawning span's agent (None without a spawn
      block, "" when the main session spawned), and the recorded parent candidates. */
  datatype Relation = Relation(
    traceId: string, agentId: string, parentAgentId: Option<string>,
    spawn: Option<string>, candidates: seq<string>)

  datatype Node = Node(relation: Relation, state: ParentState, candidates: seq<string>)

  // ---- classify ---------------------------------------------------------------

  datatype Verdict = Verdict(state: ParentState, candidates: seq<string>, parent: int)

  /** The relation key: the ids are NUL-joined in Go, a pair here. */
  type Index = map<(string, string), int>

  function WithCandidate(candidates: seq<string>, spawner: string): seq<string> {
    if spawner == "" || spawner in candidates then candidates else candidates + [spawner]
  }

  /** classify: the parent state, and the index of the observed parent or -1. */
  function Classify(r: Relation, byKey: Index): Verdict {
    var spawner := if r.spawn.Some? then r.spawn.value else "";
    if |r.candidates| > 1 then Verdict(ParentConflict, WithCandidate(r.candidates, spawner), -1)
    else if r.parentAgentId.None? then
      if r.spawn.Some? && spawner == "" then Verdict(MainSessionObserved, [], -1)
      else if r.spawn.Some? then Verdict(ParentUnknown, [spawner], -1)
      else Verdict(ParentUnknown, [], -1)
    else
      var parent := r.parentAgentId.value;
      if spawner != "" && spawner != parent then Verdict(ParentConflict, [parent, spawner], -1)
      else if (r.traceId, parent) !in byKey then Verdict(ParentAgentNotRetained, [], -1)
      else Verdict(ParentAgentObserved, [], byKey[(r.traceId, parent)])
  }

  // ---- markCycles -------------------------------------------------------------

  datatype Mark = Unvisited | OnPath | Settled

  /** flagLoop: mark the tail of `path` from the re-entered node on. */
  method FlagLoop(nodes: array<Node>, path: seq<int>, reentered: int, ghost j: nat)
    requires InRange(path, nodes.Length) && Distinct(path)
    requires j < |path| && path[j] == reentered
    modifies nodes
    ensures forall x :: 0 <= x < nodes.Length ==>
              nodes[x] == if x in path[j..] then old(nodes[x]).(state := ParentCycle) else old(nodes[x])
  {
    var i := |path| - 1;
    while i >= 0
      invariant j <= i < |path|
      invariant forall x :: 0 <= x < nodes.Length ==>
                  nodes[x] == if x in path[i + 1..] then old(nodes[x]).(state := ParentCycle) else old(nodes[x])
    {
      assert path[i..] == [path[i]] + path[i + 1..];
      assert path[i] !in path[i + 1..];
      nodes[path[i]] := nodes[path[i]].(state := ParentCycle);
      if path[i] == reentered {
        assert i == j;
        return;
      }
      i := i - 1;
    }
  }

  ghost predicate Flagged(nodes: seq<Node>, i: int)
    requires 0 <= i < |nodes|
  {
    nodes[i].state == ParentCycle
  }

  /** What the walks so far have settled. */
  ghost predicate SettledSoFar(
      p: seq<int>, before: seq<Node>, nodes: seq<Node>, marks: seq<Mark>, rank: seq<nat>, top: nat)
  {
    && Parents(p) && |before| == |nodes| == |marks| == |rank| == |p|
    && (forall i :: 0 <= i < |p| ==> nodes[i] == before[i] || nodes[i] == before[i].(state := ParentCycle))
    && (forall i :: 0 <= i < |p| && Flagged(nodes, i) ==>
          marks[i] == Settled && OnCycle(p, i) && p[i] >= 0 && Flagged(nodes, p[i]))
    && (forall i :: 0 <= i < |p| && marks[i] == Settled && p[i] >= 0 ==> marks[p[i]] == Settled)
    && (forall i :: 0 <= i < |p| && marks[i] == Settled ==> rank[i] < top)
    && forall i :: 0 <= i < |p| && marks[i] == Settled && !Flagged(nodes, i) && p[i] >= 0 ==> rank[p[i]] < rank[i]
  }

  /** The ranks a finished walk hands to its path: later nodes rank lower. */
  ghost function PathRanks(rank: seq<nat>, top: nat, path: seq<int>): (r: seq<nat>)
    requires InRange(path, |rank|) && Distinct(path)
    ensures |r| == |rank|
    ensures forall k :: 0 <= k < |path| ==> r[path[k]] == top + (|path| - 1 - k)
    ensures forall i :: 0 <= i < |rank| && i !in path ==> r[i] == rank[i]
  {
    if path == [] then rank
    else
      assert path == [path[0]] + path[1..];
      assert Distinct(path[1..]);
      assert path[0] !in path[1..];
      PathRanks(rank, top, path[1..])[path[0] := top + (|path| - 1)]
  }

  /** The nodes still to be visited, the walk's termination measure. */
  ghost function Left(marks: seq<Mark>): set<int> {
    set i | 0 <= i < |marks| && marks[i] == Unvisited
  }

  /** One walk: mark nodes as on the path until a root or a visited node. */
  method FollowParents(parents: array<int>, marks: array<Mark>, start: int) returns (path: seq<int>, current: int)
    requires Parents(parents[..]) && marks.Length == parents.Length && 0 <= start < parents.Length
    requires forall i :: 0 <= i < marks.Length ==> marks[i] != OnPath
    modifies marks
    ensures Chain(parents[..], path) && Distinct(path)
    ensures forall i :: 0 <= i < marks.Length ==> marks[i] == if i in path then OnPath else old(marks[i])
    ensures forall x :: x in path ==> 0 <= x < marks.Length && old(marks[x]) == Unvisited
    ensures -1 <= current < parents.Length
    ensures current == if path == [] then start else parents[path[|path| - 1]]
    ensures current >= 0 ==> marks[current] != Unvisited
    ensures start in path || old(marks[start]) == Settled
  {
    path, current := [], start;
    while current >= 0 && marks[current] == Unvisited
      invariant -1 <= current < parents.Length
      invariant Chain(parents[..], path) && Distinct(path)
      invariant forall i :: 0 <= i < marks.Length ==> marks[i] == if i in path then OnPath else old(marks[i])
      invariant forall x :: x in path ==> 0 <= x < marks.Length && old(marks[x]) == Unvisited
      invariant current == if path == [] then start else parents[path[|path| - 1]]
      invariant path != [] ==> path[0] == start
      decreases Left(marks[..])
    {
      ghost var before := marks[..];
      marks[current] := OnPath;
      assert Left(marks[..]) == Left(before) - {current};
      path := path + [current];
      current := parents[current];
    }
  }

  /** A walk has ended: its nodes were not settled, and those from `cut` on are the
      loop it ran into. `nodes'` and `marks'` are the state once it is settled. */
  ghost predicate WalkShape(
      p: seq<int>, nodes: seq<Node>, marks: seq<Mark>, path: seq<int>, cut: nat, nodes': seq<Node>, marks': seq<Mark>)
    requires Parents(p) && |nodes| == |marks| == |p|
  {
    && Chain(p, path) && Distinct(path) && cut <= |path|
    && (forall x :: x in path ==> 0 <= x < |p| && marks[x] != Settled)
    && (path != [] ==>
          var next := p[path[|path| - 1]];
          if cut < |path| then next == path[cut] else next < 0 || marks[next] == Settled)
    && |nodes'| == |marks'| == |p|
    && (forall x :: 0 <= x < |p| ==>
          nodes'[x] == if x in path[cut..] then nodes[x].(state := ParentCycle) else nodes[x])
    && forall x :: 0 <= x < |p| ==> marks'[x] == if x in path then Settled else marks[x]
  }

  ghost predicate WalkEnded(
      p: seq<int>, before: seq<Node>, nodes: seq<Node>, marks: seq<Mark>, rank: seq<nat>, top: nat,
      path: seq<int>, cut: nat, nodes': seq<Node>, marks': seq<Mark>)
  {
    SettledSoFar(p, before, nodes, marks, rank, top) && WalkShape(p, nodes, marks, path, cut, nodes', marks')
  }

  lemma {:induction false} LoopIsFlagged(
      p: seq<int>, before: seq<Node>, nodes: seq<Node>, marks: seq<Mark>, rank: seq<nat>, top: nat,
      path: seq<int>, cut: nat, nodes': seq<Node>, marks': seq<Mark>)
    requires WalkEnded(p, before, nodes, marks, rank, top, path, cut, nodes', marks')
    ensures forall i :: 0 <= i < |p| && Flagged(nodes', i) ==>
              marks'[i] == Settled && OnCycle(p, i) && p[i] >= 0 && Flagged(nodes', p[i])
  {
    forall i | 0 <= i < |p| && Flagged(nodes', i)
      ensures marks'[i] == Settled && OnCycle(p, i) && p[i] >= 0 && Flagged(nodes', p[i])
    {
      if i in path[cut..] {
        NewlyFlagged(p, nodes, marks, path, cut, nodes', marks', i);
      } else {
        assert Flagged(nodes, i);
        assert Flagged(nodes, p[i]);
      }
    }
  }

  lemma {:induction false} NewlyFlagged(
      p: seq<int>, nodes: seq<Node>, marks: seq<Mark>, path: seq<int>, cut: nat, nodes': seq<Node>, marks': seq<Mark>, i: int)
    requires Parents(p) && |nodes| == |marks| == |p| && WalkShape(p, nodes, marks, path, cut, nodes', marks') && i in path[cut..]
    ensures 0 <= i < |p| && marks'[i] == Settled && OnCycle(p, i) && p[i] >= 0 && Flagged(nodes', p[i])
  {
    var k :| cut <= k < |path| && path[k] == i;
    LoopReturns(p, path, cut, k);
    var next := if k + 1 < |path| then k + 1 else cut;
    assert path[next] in path[cut..] && path[next] == p[i];
  }

  lemma {:induction false} PathIsRanked(
      p: seq<int>, before: seq<Node>, nodes: seq<Node>, marks: seq<Mark>, rank: seq<nat>, top: nat,
      path: seq<int>, cut: nat, nodes': seq<Node>, marks': seq<Mark>)
    requires WalkEnded(p, before, nodes, marks, rank, top, path, cut, nodes', marks')
    ensures var rank' := PathRanks(rank, top, path);
            forall i :: 0 <= i < |p| && marks'[i] == Settled ==>
              && (p[i] >= 0 ==> marks'[p[i]] == Settled)
              && rank'[i] < top + |path|
              && (!Flagged(nodes', i) && p[i] >= 0 ==> rank'[p[i]] < rank'[i])
  {
    var rank' := PathRanks(rank, top, path);
    forall i | 0 <= i < |p| && marks'[i] == Settled
      ensures p[i] >= 0 ==> marks'[p[i]] == Settled
      ensures rank'[i] < top + |path|
      ensures !Flagged(nodes', i) && p[i] >= 0 ==> rank'[p[i]] < rank'[i]
    {
      if i in path {
        var k :| 0 <= k < |path| && path[k] == i;
        if k + 1 < |path| {
          assert path[k + 1] in path;
        } else if cut < |path| {
          assert path[cut] in path && path[k] in path[cut..];
        }
      } else {
        assert !Flagged(nodes', i) ==> !Flagged(nodes, i);
      }
    }
  }

  /** Settling the path keeps the invariant. */
  lemma {:induction false} PathSettles(
      p: seq<int>, before: seq<Node>, nodes: seq<Node>, marks: seq<Mark>, rank: seq<nat>, top: nat,
      path: seq<int>, cut: nat, nodes': seq<Node>, marks': seq<Mark>)
    requires WalkEnded(p, before, nodes, marks, rank, top, path, cut, nodes', marks')
    ensures SettledSoFar(p, before, nodes', marks', PathRanks(rank, top, path), top + |path|)
  {
    LoopIsFlagged(p, before, nodes, marks, rank, top, path, cut, nodes', marks');
    PathIsRanked(p, before, nodes, marks, rank, top, path, cut, nodes', marks');
  }

  /** `walked` lists the settled nodes, each once. */
  ghost predicate Walked(walked: seq<int>, marks: seq<Mark>) {
    Distinct(walked) && forall i :: i in walked <==> 0 <= i < |marks| && marks[i] == Settled
  }

  lemma {:induction false} WalkedGrows(walked: seq<int>, path: seq<int>, marks: seq<Mark>, marks': seq<Mark>)
    requires Walked(walked, marks) && Distinct(path) && |marks'| == |marks|
    requires forall x :: x in path ==> 0 <= x < |marks| && marks[x] == Unvisited
    requires forall i :: 0 <= i < |marks| ==> marks'[i] == if i in path then Settled else marks[i]
    ensures Walked(walked + path, marks')
  {
    forall i ensures i in walked + path <==> i in walked || i in path {}
    forall a, b | 0 <= a < |walked| && 0 <= b < |path| ensures walked[a] != path[b] {
      assert walked[a] in walked && path[b] in path;
    }
  }

  /** The first `start` nodes, at least, are settled; between walks none is on a path. */
  ghost predicate MarksProgress(marks: seq<Mark>, walked: seq<int>, start: nat) {
    && Walked(walked, marks)
    && (forall i :: 0 <= i < |marks| ==> marks[i] != OnPath)
    && forall i :: 0 <= i < start && i < |marks| ==> marks[i] == Settled
  }

  lemma {:induction false} MarksMoveOn(marks: seq<Mark>, walked: seq<int>, start: nat, path: seq<int>, marks': seq<Mark>)
    requires MarksProgress(marks, walked, start) && start < |marks| == |marks'|
    requires Distinct(path) && forall x :: x in path ==> 0 <= x < |marks| && marks[x] != Settled
    requires forall i :: 0 <= i < |marks| ==> marks'[i] == if i in path then Settled else marks[i]
    requires start in path || marks[start] == Settled
    ensures MarksProgress(marks', walked + path, start + 1)
  {
    WalkedGrows(walked, path, marks, marks');
  }

  /** markCycles' loop invariant. */
  ghost predicate Progress(
      p: seq<int>, before: seq<Node>, nodes: seq<Node>, marks: seq<Mark>, rank: seq<nat>, top: nat,
      walked: seq<int>, start: nat)
  {
    SettledSoFar(p, before, nodes, marks, rank, top) && MarksProgress(marks, walked, start)
  }

  lemma {:induction false} WalkProgresses(
      p: seq<int>, before: seq<Node>, nodes: seq<Node>, marks: seq<Mark>, rank: seq<nat>, top: nat, walked: seq<int>,
      start: nat, path: seq<int>, cut: nat, nodes': seq<Node>, marks': seq<Mark>)
    requires MarksProgress(marks, walked, start) && start < |p|
    requires WalkEnded(p, before, nodes, marks, rank, top, path, cut, nodes', marks')
    requires start in path || marks[start] == Settled
    ensures Progress(p, before, nodes', marks', PathRanks(rank, top, path), top + |path|, walked + path, start + 1)
  {
    PathSettles(p, before, nodes, marks, rank, top, path, cut, nodes', marks');
    MarksMoveOn(marks, walked, start, path, marks');
  }

  /** One turn of markCycles' loop. */
  method SettleFrom(
      nodes: array<Node>, parents: array<int>, marks: array<Mark>, start: int,
      ghost p: seq<int>, ghost before: seq<Node>, ghost rank: seq<nat>, ghost top: nat, ghost walked: seq<int>)
    returns (ghost rank': seq<nat>, ghost top': nat, ghost walked': seq<int>)
    requires nodes.Length == parents.Length == marks.Length && 0 <= start < nodes.Length
    requires parents[..] == p && Progress(p, before, nodes[..], marks[..], rank, top, walked, start)
    modifies nodes, marks
    ensures Progress(p, before, nodes[..], marks[..], rank', top', walked', start + 1)
  {
    ghost var nodes0, marks0 := nodes[..], marks[..];
    var path, current := FollowParents(parents, marks, start);
    ghost var cut := CloseWalk(nodes, marks, path, current, p, marks0);
    WalkProgresses(p, before, nodes0, marks0, rank, top, walked, start, path, cut, nodes[..], marks[..]);
    rank', top', walked' := PathRanks(rank, top, path), top + |path|, walked + path;
  }

  /** Flags the loop a walk ran into, if it did, and settles its path. */
  method CloseWalk(nodes: array<Node>, marks: array<Mark>, path: seq<int>, current: int, ghost p: seq<int>, ghost marks0: seq<Mark>)
    returns (ghost cut: nat)
    requires Parents(p) && nodes.Length == marks.Length == |p| == |marks0|
    requires Chain(p, path) && Distinct(path) && -1 <= current < |p|
    requires forall i :: 0 <= i < |p| ==> marks[i] == if i in path then OnPath else marks0[i]
    requires forall i :: 0 <= i < |p| ==> marks0[i] != OnPath
    requires forall x :: x in path ==> 0 <= x < |p| && marks0[x] == Unvisited
    requires path != [] ==> current == p[path[|path| - 1]]
    requires current >= 0 ==> marks[current] != Unvisited
    modifies nodes, marks
    ensures WalkShape(p, old(nodes[..]), marks0, path, cut, nodes[..], marks[..])
  {
    cut := |path|;
    if current >= 0 && marks[current] == OnPath {
      ghost var j :| 0 <= j < |path| && path[j] == current;
      cut := j;
      FlagLoop(nodes, path, current, cut);
    }
    SettlePath(marks, path, marks0);
  }

  /** markCycles. A node is flagged, and loses its edge, exactly when its parents lead
      back to it; nothing else changes; what is left has no cycle. `walked` lists the
      nodes in the order the walks put them on a path: each node once. */
  method MarkCycles(nodes: array<Node>, parents: array<int>) returns (ghost walked: seq<int>)
    requires nodes.Length == parents.Length && Parents(parents[..])
    requires forall i :: 0 <= i < nodes.Length ==> nodes[i].state != ParentCycle
    modifies nodes, parents
    ensures CyclesMarked(old(parents[..]), old(nodes[..]), parents[..], nodes[..])
    ensures Distinct(walked) && forall i :: i in walked <==> 0 <= i < nodes.Length
  {
    ghost var p, before := parents[..], nodes[..];
    var marks := new Mark[nodes.Length](_ => Unvisited);
    ghost var rank: seq<nat>, top: nat := seq(|p|, _ => 0), 0;
    walked := [];
    for start := 0 to nodes.Length
      invariant parents[..] == p
      invariant Progress(p, before, nodes[..], marks[..], rank, top, walked, start)
    {
      rank, top, walked := SettleFrom(nodes, parents, marks, start, p, before, rank, top, walked);
    }
    assert forall i :: 0 <= i < marks.Length ==> marks[..][i] == Settled;
    DropFlaggedEdges(nodes, parents);
    EdgesDropped(p, before, nodes[..], rank, top, marks[..], parents[..]);
  }

  method SettlePath(marks: array<Mark>, path: seq<int>, ghost before: seq<Mark>)
    requires InRange(path, marks.Length) && |before| == marks.Length
    requires forall i :: 0 <= i < marks.Length ==> marks[i] == if i in path then OnPath else before[i]
    modifies marks
    ensures forall i :: 0 <= i < marks.Length ==> marks[i] == if i in path then Settled else before[i]
  {
    for n := 0 to |path|
      invariant forall i :: 0 <= i < marks.Length ==>
                  marks[i] == if i in path[..n] then Settled else if i in path then OnPath else before[i]
    {
      assert path[..n + 1] == path[..n] + [path[n]];
      marks[path[n]] := Settled;
    }
    assert path[..|path|] == path;
  }

  /** The last loop of markCycles: flagged nodes keep their raw parent id but no edge. */
  method DropFlaggedEdges(nodes: array<Node>, parents: array<int>)
    requires nodes.Length == parents.Length
    modifies parents
    ensures forall i :: 0 <= i < nodes.Length ==>
              parents[i] == if nodes[i].state == ParentCycle then -1 else old(parents[i])
  {
    for i := 0 to nodes.Length
      invariant forall k :: 0 <= k < nodes.Length ==>
                  parents[k] == if k < i && nodes[k].state == ParentCycle then -1 else old(parents[k])
    {
      if nodes[i].state == ParentCycle {
        parents[i] := -1;
      }
    }
  }

  /** What markCycles leaves of the nodes `before` and the parents `p`. */
  ghost predicate CyclesMarked(p: seq<int>, before: seq<Node>, p': seq<int>, nodes: seq<Node>)
    requires Parents(p) && |p| == |before|
  {
    && |p'| == |nodes| == |p|
    && (forall i :: 0 <= i < |p| ==>
          if OnCycle(p, i) then nodes[i] == before[i].(state := ParentCycle) && p'[i] == -1
          else nodes[i] == before[i] && p'[i] == p[i])
    && Acyclic(p')
  }

  lemma {:induction false} EdgesDropped(
      p: seq<int>, before: seq<Node>, nodes: seq<Node>, rank: seq<nat>, top: nat, marks: seq<Mark>, p': seq<int>)
    requires SettledSoFar(p, before, nodes, marks, rank, top)
    requires forall i :: 0 <= i < |marks| ==> marks[i] == Settled
    requires forall i :: 0 <= i < |before| ==> before[i].state != ParentCycle
    requires |p'| == |p| && forall i :: 0 <= i < |p| ==> p'[i] == if nodes[i].state == ParentCycle then -1 else p[i]
    ensures CyclesMarked(p, before, p', nodes)
  {
    FlagsAreExact(p, before, nodes, rank, top, marks);
    assert Ranked(p', rank);
  }

  /** Once every node is settled, the flagged ones are those on a cycle. */
  lemma {:induction false} FlagsAreExact(p: seq<int>, before: seq<Node>, nodes: seq<Node>, rank: seq<nat>, top: nat, marks: seq<Mark>)
    requires SettledSoFar(p, before, nodes, marks, rank, top)
    requires forall i :: 0 <= i < |marks| ==> marks[i] == Settled
    ensures forall i :: 0 <= i < |p| ==> (OnCycle(p, i) <==> Flagged(nodes, i))
  {
    var loops := set i | 0 <= i < |p| && Flagged(nodes, i);
    assert RankedOutside(p, loops, rank);
    forall i | 0 <= i < |p| && !Flagged(nodes, i) ensures !OnCycle(p, i) {
      OutsideIsNotOnCycle(p, loops, rank, i);
    }
  }

  // ---- nest -------------------------------------------------------------------

  /** A node with its children; `index` is its position in the stored relations. */
  datatype Tree = Tree(index: int, node: Node, children: seq<Tree>)

  /** `t` is the tree of node `i`: its children are `i`'s, in stored order. */
  ghost predicate TreeOf(p: seq<int>, nodes: seq<Node>, t: Tree, i: int)
    requires |p| == |nodes| && 0 <= i < |p|
    decreases t
  {
    && t.index == i && t.node == nodes[i]
    && |t.children| == |ChildrenOf(p, i, |p|)|
    && forall k :: 0 <= k < |t.children| ==> TreeOf(p, nodes, t.children[k], ChildrenOf(p, i, |p|)[k])
  }

  ghost predicate ForestOf(p: seq<int>, nodes: seq<Node>, forest: seq<Tree>)
    requires |p| == |nodes|
  {
    && |forest| == |RootsOf(p, |p|)|
    && forall k :: 0 <= k < |forest| ==> TreeOf(p, nodes, forest[k], RootsOf(p, |p|)[k])
  }

  /** How often relation `j` occurs in a tree, or in a list of trees. */
  ghost function Occurs(t: Tree, j: int): nat
    decreases t, 1
  {
    (if t.index == j then 1 else 0) + OccursIn(t.children, j)
  }

  ghost function OccursIn(ts: seq<Tree>, j: int): nat
    decreases ts, 0
  {
    if ts == [] then 0 else Occurs(ts[0], j) + OccursIn(ts[1..], j)
  }

  /** A tree holds `j` once if its root is above `j`, else not at all. */
  lemma {:induction false} TreeHolds(p: seq<int>, rank: seq<nat>, nodes: seq<Node>, t: Tree, i: int, j: int)
    requires Ranked(p, rank) && |p| == |nodes| && 0 <= i < |p| && 0 <= j < |p|
    requires TreeOf(p, nodes, t, i)
    ensures Occurs(t, j) == if Above(p, rank, i, j) then 1 else 0
    decreases t, 1
  {
    TreesHold(p, rank, nodes, t.children, ChildrenOf(p, i, |p|), j);
    OneChildAbove(p, rank, i, j);
  }

  lemma {:induction false} TreesHold(
      p: seq<int>, rank: seq<nat>, nodes: seq<Node>, ts: seq<Tree>, list: seq<int>, j: int)
    requires Ranked(p, rank) && |p| == |nodes| && 0 <= j < |p| && InRange(list, |p|)
    requires |ts| == |list| && forall k :: 0 <= k < |ts| ==> TreeOf(p, nodes, ts[k], list[k])
    ensures OccursIn(ts, j) == CountAbove(p, rank, list, j)
    decreases ts, 0
  {
    if ts != [] {
      TreeHolds(p, rank, nodes, ts[0], list[0], j);
      TreesHold(p, rank, nodes, ts[1..], list[1..], j);
    }
  }

  /** The forest of an acyclic parent array holds every relation exactly once. */
  lemma {:induction false} ForestHoldsEachOnce(p: seq<int>, nodes: seq<Node>, forest: seq<Tree>, j: int)
    requires Parents(p) && Acyclic(p) && |p| == |nodes| && ForestOf(p, nodes, forest) && 0 <= j < |p|
    ensures OccursIn(forest, j) == 1
  {
    var rank: seq<nat> :| Ranked(p, rank);
    TreesHold(p, rank, nodes, forest, RootsOf(p, |p|), j);
    OneRootAbove(p, rank, j);
  }

  /** nest's recursive closure. It ends because ranks climb from parent to child. */
  method BuildTree(nodes: array<Node>, children: array<seq<int>>, i: int, ghost p: seq<int>, ghost rank: seq<nat>, ghost top: nat)
    returns (t: Tree)
    requires nodes.Length == children.Length == |p| && 0 <= i < |p| && Ranked(p, rank)
    requires Linked(p, children[..], |p|)
    requires forall k :: 0 <= k < |p| ==> rank[k] < top
    ensures TreeOf(p, nodes[..], t, i)
    decreases top - rank[i], 1
  {
    assert children[i] == children[..][i];
    var built := BuildChildren(nodes, children, i, children[i], p, rank, top);
    t := Tree(i, nodes[i], built);
  }

  lemma {:induction false} ChildrenClimb(p: seq<int>, rank: seq<nat>, i: int)
    requires Ranked(p, rank) && 0 <= i < |p|
    ensures forall k :: 0 <= k < |ChildrenOf(p, i, |p|)| ==>
              0 <= ChildrenOf(p, i, |p|)[k] < |p| && rank[i] < rank[ChildrenOf(p, i, |p|)[k]]
  {
    var own := ChildrenOf(p, i, |p|);
    ChildrenAreStored(p, i, |p|);
    assert forall k :: 0 <= k < |own| ==> own[k] in own;
  }

  /** The trees of the first of these nodes. */
  ghost predicate TreesOf(p: seq<int>, nodes: seq<Node>, built: seq<Tree>, own: seq<int>)
    requires |nodes| == |p|
  {
    && |built| <= |own|
    && forall k :: 0 <= k < |built| ==> 0 <= own[k] < |p| && TreeOf(p, nodes, built[k], own[k])
  }

  lemma {:induction false} OneMoreTree(p: seq<int>, nodes: seq<Node>, built: seq<Tree>, own: seq<int>, t: Tree)
    requires |nodes| == |p| && TreesOf(p, nodes, built, own) && |built| < |own|
    requires 0 <= own[|built|] < |p| && TreeOf(p, nodes, t, own[|built|])
    ensures TreesOf(p, nodes, built + [t], own)
  {}

  method BuildChildren(
      nodes: array<Node>, children: array<seq<int>>, i: int, own: seq<int>,
      ghost p: seq<int>, ghost rank: seq<nat>, ghost top: nat)
    returns (built: seq<Tree>)
    requires nodes.Length == children.Length == |p| && 0 <= i < |p| && Ranked(p, rank)
    requires Linked(p, children[..], |p|) && own == ChildrenOf(p, i, |p|)
    requires forall k :: 0 <= k < |p| ==> rank[k] < top
    ensures |built| == |own| && forall k :: 0 <= k < |own| ==> 0 <= own[k] < |p| && TreeOf(p, nodes[..], built[k], own[k])
    decreases top - rank[i], 0
  {
    built := [];
    ChildrenClimb(p, rank, i);
    for n := 0 to |own|
      invariant |built| == n && TreesOf(p, nodes[..], built, own)
    {
      var t := BuildTree(nodes, children, own[n], p, rank, top);
      OneMoreTree(p, nodes[..], built, own, t);
      built := built + [t];
    }
  }

  /** The child index slices and the roots, in stored order. */
  method LinkChildren(parents: array<int>) returns (children: array<seq<int>>, roots: seq<int>)
    requires Parents(parents[..])
    ensures fresh(children) && children.Length == parents.Length
    ensures roots == RootsOf(parents[..], parents.Length)
    ensures Linked(parents[..], children[..], parents.Length)
  {
    ghost var p := parents[..];
    children := EmptyLists(parents.Length, p);
    roots := [];
    for i := 0 to parents.Length
      invariant parents[..] == p && roots == RootsOf(p, i) && Linked(p, children[..], i)
    {
      roots := LinkNode(parents, children, i, roots, p);
    }
  }

  method EmptyLists(n: nat, ghost p: seq<int>) returns (children: array<seq<int>>)
    requires |p| == n
    ensures fresh(children) && children.Length == n && Linked(p, children[..], 0)
  {
    children := new seq<int>[n](_ => []);
  }

  /** One turn of the loop: node `i` joins the roots or its parent's list. */
  method LinkNode(parents: array<int>, children: array<seq<int>>, i: nat, roots: seq<int>, ghost p: seq<int>)
    returns (roots': seq<int>)
    requires parents[..] == p && i < |p| && Parents(p)
    requires roots == RootsOf(p, i) && Linked(p, children[..], i)
    modifies children
    ensures roots' == RootsOf(p, i + 1) && Linked(p, children[..], i + 1)
  {
    RootsStep(p, i);
    assert p[i] == parents[i];
    roots' := if parents[i] < 0 then roots + [i] else roots;
    LinkOne(children, i, parents[i], p);
  }

  /** Appends node `i` to its parent's list, if it has a parent. */
  method LinkOne(children: array<seq<int>>, i: nat, parent: int, ghost p: seq<int>)
    requires Parents(p) && i < |p| && parent == p[i] && Linked(p, children[..], i)
    modifies children
    ensures Linked(p, children[..], i + 1)
  {
    ghost var before := children[..];
    if parent >= 0 {
      children[parent] := children[parent] + [i];
    }
    OneMoreLinked(p, i, before, children[..]);
  }

  lemma {:induction false} RootsStep(p: seq<int>, i: nat)
    requires i < |p|
    ensures RootsOf(p, i + 1) == RootsOf(p, i) + if p[i] < 0 then [i] else []
  {}

  /** Each list holds a node's children among the first `n`. */
  ghost predicate Linked(p: seq<int>, lists: seq<seq<int>>, n: nat) {
    n <= |p| == |lists| && forall k :: 0 <= k < |p| ==> lists[k] == ChildrenOf(p, k, n)
  }

  lemma {:induction false} OneMoreLinked(p: seq<int>, i: nat, before: seq<seq<int>>, after: seq<seq<int>>)
    requires Parents(p) && i < |p| && Linked(p, before, i)
    requires after == if p[i] < 0 then before else before[p[i] := before[p[i]] + [i]]
    ensures Linked(p, after, i + 1)
  {}

  method Nest(nodes: array<Node>, parents: array<int>) returns (forest: seq<Tree>)
    requires nodes.Length == parents.Length && Parents(parents[..]) && Acyclic(parents[..])
    ensures ForestOf(parents[..], nodes[..], forest)
  {
    ghost var p := parents[..];
    var children, roots := LinkChildren(parents);
    ghost var rank: seq<nat> :| Ranked(p, rank);
    assert forall k :: 0 <= k < |roots| ==> roots[k] in roots;
    forest := GrowRoots(nodes, children, roots, p, rank, Bound(rank));
  }

  method GrowRoots(
      nodes: array<Node>, children: array<seq<int>>, roots: seq<int>,
      ghost p: seq<int>, ghost rank: seq<nat>, ghost top: nat)
    returns (forest: seq<Tree>)
    requires nodes.Length == children.Length == |p| && Ranked(p, rank)
    requires Linked(p, children[..], |p|)
    requires forall k :: 0 <= k < |roots| ==> 0 <= roots[k] < |p|
    requires forall k :: 0 <= k < |p| ==> rank[k] < top
    ensures |forest| == |roots| && forall k :: 0 <= k < |roots| ==> TreeOf(p, nodes[..], forest[k], roots[k])
  {
    forest := [];
    for n := 0 to |roots|
      invariant |forest| == n && TreesOf(p, nodes[..], forest, roots)
    {
      var t := BuildTree(nodes, children, roots[n], p, rank, top);
      OneMoreTree(p, nodes[..], forest, roots, t);
      forest := forest + [t];
    }
  }

  ghost function Bound(rank: seq<nat>): (top: nat)
    ensures forall k :: 0 <= k < |rank| ==> rank[k] < top
  {
    if rank == [] then 0
    else
      var rest := Bound(rank[..|rank| - 1]);
      var last := rank[|rank| - 1];
      if last < rest then rest else last + 1
  }

  // ---- Build ------------------------------------------------------------------

  function KeyOf(r: Relation): (string, string) { (r.traceId, r.agentId) }

  /** The key index: a repeated key keeps its last relation. */
  function KeyIndex(relations: seq<Relation>, n: nat): (m: Index)
    requires n <= |relations|
    ensures forall k :: k in m ==>
              0 <= m[k] < n && KeyOf(relations[m[k]]) == k && forall i :: m[k] < i < n ==> KeyOf(relations[i]) != k
    ensures forall i :: 0 <= i < n ==> KeyOf(relations[i]) in m
  {
    if n == 0 then map[] else KeyIndex(relations, n - 1)[KeyOf(relations[n - 1]) := n - 1]
  }

  function RawNode(r: Relation, byKey: Index): Node {
    Node(r, Classify(r, byKey).state, Classify(r, byKey).candidates)
  }

  function RawParent(relations: seq<Relation>, i: nat): (r: int)
    requires i < |relations|
    ensures -1 <= r < |relations|
  {
    Classify(relations[i], KeyIndex(relations, |relations|)).parent
  }

  /** The parents as classified, before loops are cut. */
  function RawParents(relations: seq<Relation>): (p: seq<int>)
    ensures |p| == |relations| && Parents(p)
  {
    seq(|relations|, i requires 0 <= i < |relations| => RawParent(relations, i))
  }

  function RawNodes(relations: seq<Relation>): seq<Node> {
    seq(|relations|, i requires 0 <= i < |relations| => RawNode(relations[i], KeyIndex(relations, |relations|)))
  }

  lemma {:induction false} RawNodesAreUnflagged(relations: seq<Relation>)
    ensures forall i :: 0 <= i < |relations| ==> RawNodes(relations)[i].state != ParentCycle
  {}

  /** The forest holds each relation exactly once: one on a parent loop becomes a flagged
      root, every other one hangs where it was classified. Module AgentParents says where
      that is. */
  ghost predicate Builds(relations: seq<Relation>, forest: seq<Tree>, p: seq<int>, nodes: seq<Node>) {
    && |p| == |nodes| == |relations| && ForestOf(p, nodes, forest) && Acyclic(p)
    && CyclesMarked(RawParents(relations), RawNodes(relations), p, nodes)
    && forall j :: 0 <= j < |relations| ==> OccursIn(forest, j) == 1
  }

  /** Build, without the evidence lists. */
  method Build(relations: seq<Relation>) returns (forest: seq<Tree>, ghost p: seq<int>, ghost nodes: seq<Node>)
    ensures Builds(relations, forest, p, nodes)
  {
    var byKey := KeyIndex(relations, |relations|);
    var marked := new Node[|relations|](i requires 0 <= i < |relations| => RawNode(relations[i], byKey));
    var parents := new int[|relations|](i requires 0 <= i < |relations| => RawParent(relations, i));
    assert parents[..] == RawParents(relations);
    assert marked[..] == RawNodes(relations);
    RawNodesAreUnflagged(relations);
    ghost var walked := MarkCycles(marked, parents);
    forest := Nest(marked, parents);
    p, nodes := parents[..], marked[..];
    forall j | 0 <= j < |relations| ensures OccursIn(forest, j) == 1 {
      ForestHoldsEachOnce(p, nodes, forest, j);
    }
  }
}

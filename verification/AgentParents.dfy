/** Where the agent tree hangs a relation, read off the stored relations
    (classify and nest, internal/agenttree/tree.go). */
module AgentParents {
  import opened Prelude
  import opened ParentWalk
  import opened AgentTree

  // ---- what a relation says of its parent -------------------------------------

  /** The spawning span belongs to this agent; "" is the main session, or no span. */
  function Spawner(r: Relation): string {
    match r.spawn
    case Some(agent) => agent
    case None => ""
  }

  /** The evidence names more than one parent. */
  predicate Contested(r: Relation) {
    || |r.candidates| >= 2
    || (r.parentAgentId.Some? && Spawner(r) != "" && r.parentAgentId != Some(Spawner(r)))
  }

  /** Relation `j` is of the agent and trace that relation `i` names as its parent. */
  predicate Names(relations: seq<Relation>, i: int, j: int)
    requires 0 <= i < |relations| && 0 <= j < |relations|
  {
    relations[i].parentAgentId == Some(relations[j].agentId) && relations[i].traceId == relations[j].traceId
  }

  /** `j` is the parent of `i`: the last relation it names, if the evidence agrees. */
  ghost predicate IsParent(relations: seq<Relation>, i: int, j: int) {
    && 0 <= i < |relations| && 0 <= j < |relations|
    && !Contested(relations[i]) && Names(relations, i, j)
    && forall k :: j < k < |relations| ==> !Names(relations, i, k)
  }

  /** `k` parent steps lead from `i` to `j`. */
  ghost predicate Climbs(relations: seq<Relation>, i: int, k: nat, j: int)
    decreases k
  {
    if k == 0 then i == j
    else exists m :: IsParent(relations, i, m) && Climbs(relations, m, k - 1, j)
  }

  ghost predicate OnLoop(relations: seq<Relation>, i: int) {
    exists k: nat :: k > 0 && Climbs(relations, i, k, i)
  }

  /** The state shown for relation `i`, case by case, and the candidates beside it. */
  ghost predicate Shows(relations: seq<Relation>, i: int, n: Node)
    requires 0 <= i < |relations|
  {
    var r := relations[i];
    && n.relation == r
    && (n.state == ParentCycle <==> OnLoop(relations, i))
    && (n.state == ParentConflict <==> Contested(r))
    && (n.state == ParentAgentObserved <==> !OnLoop(relations, i) && exists j :: IsParent(relations, i, j))
    && (n.state == ParentAgentNotRetained
        <==> !Contested(r) && r.parentAgentId.Some? && forall j :: 0 <= j < |relations| ==> !Names(relations, i, j))
    && (n.state == MainSessionObserved <==> !Contested(r) && r.parentAgentId.None? && r.spawn == Some(""))
    && (n.state == ParentUnknown <==> !Contested(r) && r.parentAgentId.None? && r.spawn != Some(""))
    && n.candidates == CandidatesOf(r)
  }

  /** The candidates recorded, then the spawner; or the two parents that disagree; or the
      spawner alone, where nothing else is known. */
  function CandidatesOf(r: Relation): seq<string> {
    if |r.candidates| >= 2 then
      if Spawner(r) in [""] + r.candidates then r.candidates else r.candidates + [Spawner(r)]
    else if Contested(r) then [r.parentAgentId.value, Spawner(r)]
    else if r.parentAgentId.None? && Spawner(r) != "" then [Spawner(r)]
    else []
  }

  // ---- the classification meets it --------------------------------------------

  lemma {:induction false} ParentIsNamed(relations: seq<Relation>, i: nat, j: int)
    requires i < |relations|
    ensures RawParent(relations, i) == j && j >= 0 <==> IsParent(relations, i, j)
  {
    var byKey := KeyIndex(relations, |relations|);
    var r := relations[i];
    if r.parentAgentId.Some? {
      var key := (r.traceId, r.parentAgentId.value);
      forall k | 0 <= k < |relations| ensures Names(relations, i, k) <==> KeyOf(relations[k]) == key {}
      if key in byKey && IsParent(relations, i, j) {
        assert KeyOf(relations[byKey[key]]) == key;
        assert j == byKey[key];
      }
    }
  }

  lemma {:induction false} VerdictIsStated(r: Relation, byKey: Index)
    ensures var v := Classify(r, byKey);
            && v.state != ParentCycle
            && (v.state == ParentConflict <==> Contested(r))
            && (v.state == ParentAgentObserved
                <==> !Contested(r) && r.parentAgentId.Some? && (r.traceId, r.parentAgentId.value) in byKey)
            && (v.state == ParentAgentNotRetained
                <==> !Contested(r) && r.parentAgentId.Some? && (r.traceId, r.parentAgentId.value) !in byKey)
            && (v.state == MainSessionObserved <==> !Contested(r) && r.parentAgentId.None? && r.spawn == Some(""))
            && (v.state == ParentUnknown <==> !Contested(r) && r.parentAgentId.None? && r.spawn != Some(""))
            && v.candidates == CandidatesOf(r)
  {
    SpawnerIsNew(r);
  }

  lemma {:induction false} StateIsStated(relations: seq<Relation>, i: nat, byKey: Index)
    requires i < |relations| && byKey == KeyIndex(relations, |relations|)
    ensures var r, v := relations[i], Classify(relations[i], byKey);
            && v.state != ParentCycle && v.candidates == CandidatesOf(r)
            && (v.state == ParentConflict <==> Contested(r))
            && (v.state == ParentAgentObserved <==> exists j :: IsParent(relations, i, j))
            && (v.state == ParentAgentNotRetained
                <==> !Contested(r) && r.parentAgentId.Some? && forall j :: 0 <= j < |relations| ==> !Names(relations, i, j))
            && (v.state == MainSessionObserved <==> !Contested(r) && r.parentAgentId.None? && r.spawn == Some(""))
            && (v.state == ParentUnknown <==> !Contested(r) && r.parentAgentId.None? && r.spawn != Some(""))
  {
    var r := relations[i];
    VerdictIsStated(r, byKey);
    if r.parentAgentId.Some? {
      RetainedIsNamed(relations, i, r.parentAgentId.value);
    }
    ObservedIsNamed(relations, i, byKey);
  }

  lemma {:induction false} ObservedIsNamed(relations: seq<Relation>, i: nat, byKey: Index)
    requires i < |relations| && byKey == KeyIndex(relations, |relations|)
    ensures Classify(relations[i], byKey).state == ParentAgentObserved <==> exists j :: IsParent(relations, i, j)
  {
    VerdictIsStated(relations[i], byKey);
    if Classify(relations[i], byKey).state == ParentAgentObserved {
      ParentIsNamed(relations, i, RawParent(relations, i));
    }
    if j :| IsParent(relations, i, j) {
      ParentIsNamed(relations, i, j);
    }
  }

  lemma {:induction false} RetainedIsNamed(relations: seq<Relation>, i: nat, parent: string)
    requires i < |relations| && relations[i].parentAgentId == Some(parent)
    ensures (relations[i].traceId, parent) in KeyIndex(relations, |relations|)
            <==> exists j :: 0 <= j < |relations| && Names(relations, i, j)
  {
    var byKey, key := KeyIndex(relations, |relations|), (relations[i].traceId, parent);
    if key in byKey {
      assert Names(relations, i, byKey[key]);
    }
    if j :| 0 <= j < |relations| && Names(relations, i, j) {
      assert KeyOf(relations[j]) == key;
    }
  }

  lemma {:induction false} SpawnerIsNew(r: Relation)
    ensures WithCandidate(r.candidates, Spawner(r))
            == if Spawner(r) in [""] + r.candidates then r.candidates else r.candidates + [Spawner(r)]
  {}

  // ---- loops ------------------------------------------------------------------

  lemma {:induction false} ClimbsAreWalks(relations: seq<Relation>, i: int, k: nat, j: int)
    requires 0 <= i < |relations| && 0 <= j < |relations|
    ensures Climbs(relations, i, k, j) <==> Walk(RawParents(relations), i, k) == j
    decreases k
  {
    if k > 0 {
      var p := RawParents(relations);
      if p[i] >= 0 {
        ParentIsNamed(relations, i, p[i]);
        ClimbsAreWalks(relations, p[i], k - 1, j);
      }
      forall m | IsParent(relations, i, m) ensures p[i] == m {
        ParentIsNamed(relations, i, m);
      }
    }
  }

  lemma {:induction false} LoopsAreCycles(relations: seq<Relation>, i: int)
    requires 0 <= i < |relations|
    ensures OnLoop(relations, i) <==> OnCycle(RawParents(relations), i)
  {
    forall k: nat ensures Climbs(relations, i, k, i) <==> Walk(RawParents(relations), i, k) == i {
      ClimbsAreWalks(relations, i, k, i);
    }
  }

  /** A loop passes through observed parents only. */
  lemma {:induction false} LoopHasParent(relations: seq<Relation>, i: int)
    requires 0 <= i < |relations| && OnLoop(relations, i)
    ensures exists j :: IsParent(relations, i, j)
  {}

  // ---- the forest -------------------------------------------------------------

  /** Somewhere in these trees, `j` is a child of `i`. */
  ghost predicate Hangs(forest: seq<Tree>, i: int, j: int) {
    exists t :: t in forest && HangsIn(t, i, j)
  }

  ghost predicate HangsIn(t: Tree, i: int, j: int) {
    || (t.index == i && exists c :: c in t.children && c.index == j)
    || exists c :: c in t.children && HangsIn(c, i, j)
  }

  /** Every tree and subtree shows its relation, and its children in stored order. */
  ghost predicate Readable(relations: seq<Relation>, t: Tree) {
    && 0 <= t.index < |relations| && Shows(relations, t.index, t.node)
    && InOrder(t.children)
    && forall c :: c in t.children ==> Readable(relations, c)
  }

  ghost predicate InOrder(ts: seq<Tree>) {
    forall a, b :: 0 <= a < b < |ts| ==> ts[a].index < ts[b].index
  }

  lemma {:induction false} ChildIsParented(p: seq<int>, nodes: seq<Node>, t: Tree, r: int, i: int, j: int)
    requires |p| == |nodes| && 0 <= r < |p| && TreeOf(p, nodes, t, r) && HangsIn(t, i, j)
    ensures 0 <= i < |p| && 0 <= j < |p| && p[j] == i
    decreases t
  {
    ChildrenAreStored(p, r, |p|);
    var own := ChildrenOf(p, r, |p|);
    if t.index == i && exists c :: c in t.children && c.index == j {
      var k :| 0 <= k < |t.children| && t.children[k].index == j;
      assert TreeOf(p, nodes, t.children[k], own[k]) && own[k] in own;
    } else {
      var c :| c in t.children && HangsIn(c, i, j);
      var k :| 0 <= k < |t.children| && t.children[k] == c;
      ChildIsParented(p, nodes, t.children[k], own[k], i, j);
    }
  }

  lemma {:induction false} ParentedIsChild(p: seq<int>, nodes: seq<Node>, t: Tree, r: int, i: int, j: int)
    requires |p| == |nodes| && 0 <= r < |p| && TreeOf(p, nodes, t, r)
    requires 0 <= j < |p| && p[j] == i && Occurs(t, i) > 0
    ensures HangsIn(t, i, j)
    decreases t, 1
  {
    ChildrenAreStored(p, r, |p|);
    var own := ChildrenOf(p, r, |p|);
    if t.index == i {
      var k :| 0 <= k < |own| && own[k] == j;
      assert TreeOf(p, nodes, t.children[k], own[k]);
      assert t.children[k] in t.children && t.children[k].index == j;
    } else {
      var k := OccursAmong(t.children, i);
      ParentedIsChild(p, nodes, t.children[k], own[k], i, j);
    }
  }

  lemma {:induction false} OccursAmong(ts: seq<Tree>, i: int) returns (k: nat)
    requires OccursIn(ts, i) > 0
    ensures k < |ts| && Occurs(ts[k], i) > 0
  {
    if Occurs(ts[0], i) > 0 {
      k := 0;
    } else {
      var rest := OccursAmong(ts[1..], i);
      k := rest + 1;
    }
  }

  lemma {:induction false} TreeIsReadable(relations: seq<Relation>, p: seq<int>, nodes: seq<Node>, t: Tree, r: int)
    requires |p| == |nodes| == |relations| && 0 <= r < |p| && TreeOf(p, nodes, t, r)
    requires forall i :: 0 <= i < |relations| ==> Shows(relations, i, nodes[i])
    ensures Readable(relations, t)
    decreases t
  {
    ChildrenAreStored(p, r, |p|);
    var own := ChildrenOf(p, r, |p|);
    forall c | c in t.children ensures Readable(relations, c) {
      var k :| 0 <= k < |t.children| && t.children[k] == c;
      TreeIsReadable(relations, p, nodes, t.children[k], own[k]);
    }
    forall a, b | 0 <= a < b < |t.children| ensures t.children[a].index < t.children[b].index {
      assert TreeOf(p, nodes, t.children[a], own[a]) && TreeOf(p, nodes, t.children[b], own[b]);
    }
  }

  lemma {:induction false} NodesShow(relations: seq<Relation>, p: seq<int>, nodes: seq<Node>, i: nat)
    requires i < |relations| && CyclesMarked(RawParents(relations), RawNodes(relations), p, nodes)
    ensures Shows(relations, i, nodes[i])
    ensures forall j :: 0 <= j ==> (p[i] == j <==> IsParent(relations, i, j) && !OnLoop(relations, i))
  {
    StateIsStated(relations, i, KeyIndex(relations, |relations|));
    LoopsAreCycles(relations, i);
    forall j ensures RawParent(relations, i) == j && j >= 0 <==> IsParent(relations, i, j) {
      ParentIsNamed(relations, i, j);
    }
    if RawParent(relations, i) >= 0 {
      assert IsParent(relations, i, RawParent(relations, i));
    }
    if OnLoop(relations, i) {
      LoopHasParent(relations, i);
    }
  }

  /** A relation is a child in the forest exactly of its parent, and exactly if it is on no
      loop; every node shows its relation, its state and its candidates; and roots and
      children are in stored order. */
  lemma {:induction false} NestedAsNamed(relations: seq<Relation>, forest: seq<Tree>, p: seq<int>, nodes: seq<Node>)
    requires Builds(relations, forest, p, nodes)
    ensures forall i, j :: Hangs(forest, j, i) <==> IsParent(relations, i, j) && !OnLoop(relations, i)
    ensures InOrder(forest) && forall t :: t in forest ==> Readable(relations, t)
  {
    forall i | 0 <= i < |relations|
      ensures Shows(relations, i, nodes[i])
      ensures forall j :: 0 <= j ==> (p[i] == j <==> IsParent(relations, i, j) && !OnLoop(relations, i))
    {
      NodesShow(relations, p, nodes, i);
    }
    RootsAreStored(p, |p|);
    var roots := RootsOf(p, |p|);
    forall t | t in forest ensures Readable(relations, t) {
      var k :| 0 <= k < |forest| && forest[k] == t;
      TreeIsReadable(relations, p, nodes, forest[k], roots[k]);
    }
    forall a, b | 0 <= a < b < |forest| ensures forest[a].index < forest[b].index {
      assert TreeOf(p, nodes, forest[a], roots[a]) && TreeOf(p, nodes, forest[b], roots[b]);
    }
    forall i, j ensures Hangs(forest, j, i) <==> IsParent(relations, i, j) && !OnLoop(relations, i) {
      HangsAsStored(p, nodes, forest, j, i);
    }
  }

  lemma {:induction false} HangsAsStored(p: seq<int>, nodes: seq<Node>, forest: seq<Tree>, i: int, j: int)
    requires |p| == |nodes| && ForestOf(p, nodes, forest)
    requires forall k :: 0 <= k < |p| ==> OccursIn(forest, k) == 1
    ensures Hangs(forest, i, j) <==> 0 <= i < |p| && 0 <= j < |p| && p[j] == i
  {
    var roots := RootsOf(p, |p|);
    if Hangs(forest, i, j) {
      var t :| t in forest && HangsIn(t, i, j);
      var k :| 0 <= k < |forest| && forest[k] == t;
      ChildIsParented(p, nodes, forest[k], roots[k], i, j);
    }
    if 0 <= i < |p| && 0 <= j < |p| && p[j] == i {
      var k := OccursAmong(forest, i);
      ParentedIsChild(p, nodes, forest[k], roots[k], i, j);
      assert forest[k] in forest;
    }
  }
}

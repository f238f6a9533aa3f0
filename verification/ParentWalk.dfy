/** Walking a parent function: the graph facts behind the agent tree. */
module ParentWalk {

  /** Each entry is another index, or -1 for a root. */
  ghost predicate Parents(p: seq<int>) {
    forall i :: 0 <= i < |p| ==> -1 <= p[i] < |p|
  }

  /** Where `k` parent steps from `i` lead; -1 once a root has been left. */
  function Walk(p: seq<int>, i: int, k: nat): (r: int)
    requires Parents(p) && -1 <= i < |p|
    ensures -1 <= r < |p|
    decreases k
  {
    if i < 0 || k == 0 then i else Walk(p, p[i], k - 1)
  }

  /** Following parents from `i` comes back to `i`. */
  ghost predicate OnCycle(p: seq<int>, i: int)
    requires Parents(p) && 0 <= i < |p|
  {
    exists k: nat :: k > 0 && Walk(p, i, k) == i
  }

  lemma {:induction false} WalkAdd(p: seq<int>, i: int, a: nat, b: nat)
    requires Parents(p) && -1 <= i < |p|
    ensures Walk(p, i, a + b) == Walk(p, Walk(p, i, a), b)
    decreases a
  {
    if i >= 0 && a > 0 {
      WalkAdd(p, p[i], a - 1, b);
    }
  }

  ghost predicate InRange(list: seq<int>, n: nat) {
    forall k :: 0 <= k < |list| ==> 0 <= list[k] < n
  }

  /** `path` follows the parent function. */
  ghost predicate Chain(p: seq<int>, path: seq<int>)
    requires Parents(p)
  {
    && InRange(path, |p|)
    && forall k :: 0 <= k < |path| - 1 ==> path[k + 1] == p[path[k]]
  }

  lemma {:induction false} WalkChain(p: seq<int>, path: seq<int>, a: nat, b: nat)
    requires Parents(p) && Chain(p, path) && a <= b < |path|
    ensures Walk(p, path[a], b - a) == path[b]
    decreases b - a
  {
    if a < b {
      WalkChain(p, path, a + 1, b);
    }
  }

  /** When the end of a chain steps back to its `j`-th node, the nodes from `j` on are a loop. */
  lemma {:induction false} LoopReturns(p: seq<int>, path: seq<int>, j: nat, k: nat)
    requires Parents(p) && Chain(p, path) && j <= k < |path|
    requires p[path[|path| - 1]] == path[j]
    ensures 0 <= path[k] < |p| && OnCycle(p, path[k])
  {
    var m := |path| - 1;
    WalkChain(p, path, k, m);
    WalkChain(p, path, j, k);
    WalkAdd(p, path[k], m - k, 1 + (k - j));
    assert Walk(p, path[m], 1 + (k - j)) == Walk(p, path[j], k - j);
    assert Walk(p, path[k], (m - k) + (1 + (k - j))) == path[k];
  }

  /** `rank` strictly drops at every parent step. */
  ghost predicate Ranked(p: seq<int>, rank: seq<nat>) {
    && Parents(p) && |rank| == |p|
    && forall i :: 0 <= i < |p| && p[i] >= 0 ==> rank[p[i]] < rank[i]
  }

  /** No node reaches itself: some rank drops at every step. */
  ghost predicate Acyclic(p: seq<int>) {
    exists rank: seq<nat> :: Ranked(p, rank)
  }

  /** `loops` is closed under parents; outside it the rank drops at every step. */
  ghost predicate RankedOutside(p: seq<int>, loops: set<int>, rank: seq<nat>) {
    && Parents(p) && |rank| == |p|
    && (forall i :: i in loops ==> 0 <= i < |p| && p[i] in loops)
    && forall i :: 0 <= i < |p| && i !in loops && p[i] >= 0 ==> rank[p[i]] < rank[i]
  }

  /** A walk from outside the loops only ever drops, or falls into a loop, or ends. */
  lemma {:induction false} WalkDrops(p: seq<int>, loops: set<int>, rank: seq<nat>, i: int, k: nat)
    requires RankedOutside(p, loops, rank) && 0 <= i < |p| && i !in loops && k > 0
    ensures var r := Walk(p, i, k); r == -1 || r in loops || rank[r] < rank[i]
    decreases k
  {
    WalkAdd(p, i, k - 1, 1);
    if k > 1 {
      WalkDrops(p, loops, rank, i, k - 1);
      var w := Walk(p, i, k - 1);
      assert Walk(p, i, k) == Walk(p, w, 1);
      assert w >= 0 ==> Walk(p, w, 1) == Walk(p, p[w], 0) == p[w];
    }
  }

  lemma {:induction false} OutsideIsNotOnCycle(p: seq<int>, loops: set<int>, rank: seq<nat>, i: int)
    requires RankedOutside(p, loops, rank) && 0 <= i < |p| && i !in loops
    ensures !OnCycle(p, i)
  {
    forall k: nat | k > 0 ensures Walk(p, i, k) != i {
      WalkDrops(p, loops, rank, i, k);
    }
  }

  // ---- ancestors --------------------------------------------------------------

  /** `i` is `j` or an ancestor of `j`. */
  ghost predicate Above(p: seq<int>, rank: seq<nat>, i: int, j: int)
    requires Ranked(p, rank) && 0 <= i < |p| && 0 <= j < |p|
    decreases rank[j]
  {
    i == j || (p[j] >= 0 && Above(p, rank, i, p[j]))
  }

  lemma {:induction false} AboveRank(p: seq<int>, rank: seq<nat>, i: int, j: int)
    requires Ranked(p, rank) && 0 <= i < |p| && 0 <= j < |p|
    requires Above(p, rank, i, j) && i != j
    ensures rank[i] < rank[j]
    decreases rank[j]
  {
    if p[j] != i {
      AboveRank(p, rank, i, p[j]);
    }
  }

  /** How many of `list` are `j` or above it. */
  ghost function CountAbove(p: seq<int>, rank: seq<nat>, list: seq<int>, j: int): nat
    requires Ranked(p, rank) && 0 <= j < |p| && InRange(list, |p|)
  {
    if list == [] then 0
    else CountAbove(p, rank, list[1..], j) + if Above(p, rank, list[0], j) then 1 else 0
  }

  /** The indices below `n` whose parent is `i`, in order. */
  function ChildrenOf(p: seq<int>, i: int, n: nat): (r: seq<int>)
    requires n <= |p|
    ensures InRange(r, n)
  {
    if n == 0 then []
    else ChildrenOf(p, i, n - 1) + if p[n - 1] == i then [n - 1] else []
  }

  lemma {:induction false} ChildrenAreStored(p: seq<int>, i: int, n: nat)
    requires n <= |p|
    ensures forall x :: x in ChildrenOf(p, i, n) <==> 0 <= x < n && p[x] == i
    ensures forall a, b :: 0 <= a < b < |ChildrenOf(p, i, n)| ==> ChildrenOf(p, i, n)[a] < ChildrenOf(p, i, n)[b]
  {
    if n > 0 {
      ChildrenAreStored(p, i, n - 1);
    }
  }

  /** The roots below `n`, in order. */
  function RootsOf(p: seq<int>, n: nat): (r: seq<int>)
    requires n <= |p|
    ensures InRange(r, n)
  {
    if n == 0 then []
    else RootsOf(p, n - 1) + if p[n - 1] < 0 then [n - 1] else []
  }

  lemma {:induction false} RootsAreStored(p: seq<int>, n: nat)
    requires n <= |p|
    ensures forall x :: x in RootsOf(p, n) <==> 0 <= x < n && p[x] < 0
    ensures forall a, b :: 0 <= a < b < |RootsOf(p, n)| ==> RootsOf(p, n)[a] < RootsOf(p, n)[b]
  {
    if n > 0 {
      RootsAreStored(p, n - 1);
    }
  }

  ghost predicate Distinct(list: seq<int>) {
    forall a, b :: 0 <= a < b < |list| ==> list[a] != list[b]
  }

  /** A list that shares no member with `j`'s ancestors counts none. */
  lemma {:induction false} CountNone(p: seq<int>, rank: seq<nat>, list: seq<int>, j: int)
    requires Ranked(p, rank) && 0 <= j < |p| && InRange(list, |p|)
    requires forall k :: 0 <= k < |list| ==> !Above(p, rank, list[k], j)
    ensures CountAbove(p, rank, list, j) == 0
  {
    if list != [] {
      CountNone(p, rank, list[1..], j);
    }
  }

  lemma {:induction false} CountOne(p: seq<int>, rank: seq<nat>, list: seq<int>, j: int)
    requires Ranked(p, rank) && 0 <= j < |p| && InRange(list, |p|)
    requires Distinct(list) && forall k :: 0 <= k < |list| ==> (Above(p, rank, list[k], j) <==> list[k] == j)
    ensures CountAbove(p, rank, list, j) == if j in list then 1 else 0
  {
    if list != [] {
      assert Distinct(list[1..]);
      assert list == [list[0]] + list[1..];
      CountOne(p, rank, list[1..], j);
    }
  }

  lemma {:induction false} CountSame(p: seq<int>, rank: seq<nat>, list: seq<int>, j: int, q: int)
    requires Ranked(p, rank) && 0 <= j < |p| && 0 <= q < |p| && InRange(list, |p|)
    requires forall k :: 0 <= k < |list| ==> (Above(p, rank, list[k], j) <==> Above(p, rank, list[k], q))
    ensures CountAbove(p, rank, list, j) == CountAbove(p, rank, list, q)
  {
    if list != [] {
      CountSame(p, rank, list[1..], j, q);
    }
  }

  /** Of the children of `i`, one is above `j` when `i` is properly above it, else none. */
  lemma {:induction false} OneChildAbove(p: seq<int>, rank: seq<nat>, i: int, j: int)
    requires Ranked(p, rank) && 0 <= i < |p| && 0 <= j < |p|
    ensures CountAbove(p, rank, ChildrenOf(p, i, |p|), j) == if i != j && Above(p, rank, i, j) then 1 else 0
    decreases rank[j]
  {
    var list := ChildrenOf(p, i, |p|);
    ChildrenAreStored(p, i, |p|);
    if j == i || p[j] == i {
      forall k | 0 <= k < |list| && list[k] != j ensures !Above(p, rank, list[k], j) {
        var x := list[k];
        assert x in list;
        if Above(p, rank, x, j) {
          AboveRank(p, rank, x, j);
          if p[j] == i && x != i {
            AboveRank(p, rank, x, i);
          }
        }
      }
      if j == i {
        CountNone(p, rank, list, j);
      } else {
        CountOne(p, rank, list, j);
      }
    } else if p[j] < 0 {
      CountNone(p, rank, list, j);
    } else {
      OneChildAbove(p, rank, i, p[j]);
      CountSame(p, rank, list, j, p[j]);
    }
  }

  /** Exactly one root is above each node. */
  lemma {:induction false} OneRootAbove(p: seq<int>, rank: seq<nat>, j: int)
    requires Ranked(p, rank) && 0 <= j < |p|
    ensures CountAbove(p, rank, RootsOf(p, |p|), j) == 1
    decreases rank[j]
  {
    var list := RootsOf(p, |p|);
    RootsAreStored(p, |p|);
    if p[j] < 0 {
      CountOne(p, rank, list, j);
    } else {
      OneRootAbove(p, rank, p[j]);
      CountSame(p, rank, list, j, p[j]);
    }
  }
}

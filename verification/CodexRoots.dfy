/** Placing Codex threads under their root (internal/normalize/codex/agent_relations.go). */
module CodexRoots {
  import opened Prelude
  import opened CodexThreads

  /** Threads by the session they were recorded under. A thread's `id` comes from its
      metadata, so it may differ from its key. */
  type Threads = map<string, Thread>

  /** The parent the walk steps to: recorded, and itself retained. */
  function ParentOf(threads: Threads, t: Thread): Option<Thread>
    reads t, threads.Values
  {
    if t.parentId == "" || t.parentId !in threads || !threads[t.parentId].retained then None
    else Some(threads[t.parentId])
  }

  /** The thread `n` steps above `t`. */
  function Up(threads: Threads, t: Thread, n: nat): (r: Option<Thread>)
    requires t in threads.Values
    reads threads.Values
    ensures r.Some? ==> r.value in threads.Values
  {
    if n == 0 then Some(t)
    else
      var below := Up(threads, t, n - 1);
      if below.None? then None else ParentOf(threads, below.value)
  }

  /** The first `n` steps exist and meet no thread id twice. */
  ghost predicate ClearTo(threads: Threads, t: Thread, n: nat)
    requires t in threads.Values
    reads threads.Values
  {
    && (forall i :: 0 <= i <= n ==> Up(threads, t, i).Some?)
    && forall i, j :: 0 <= i < j <= n ==> Up(threads, t, i).value.id != Up(threads, t, j).value.id
  }

  /** `n` clear steps lead to a thread without a parent. */
  ghost predicate RootAt(threads: Threads, t: Thread, n: nat)
    requires t in threads.Values
    reads threads.Values
  {
    ClearTo(threads, t, n) && Up(threads, t, n).value.parentId == ""
  }

  /** `n` clear steps lead to a thread whose parent was not retained. */
  ghost predicate StopsAt(threads: Threads, t: Thread, n: nat)
    requires t in threads.Values
    reads threads.Values
  {
    ClearTo(threads, t, n) && Up(threads, t, n).value.parentId != "" && Up(threads, t, n + 1).None?
  }

  /** After `n` clear steps, one more meets an id again. */
  ghost predicate LoopsAt(threads: Threads, t: Thread, n: nat)
    requires t in threads.Values
    reads threads.Values
  {
    ClearTo(threads, t, n) && Up(threads, t, n + 1).Some? && !ClearTo(threads, t, n + 1)
  }

  ghost predicate Complete(threads: Threads, t: Thread)
    requires t in threads.Values
    reads threads.Values
  {
    exists n: nat :: RootAt(threads, t, n)
  }

  /** What codexAgentRoot answers for `t`. */
  ghost predicate RootIs(threads: Threads, t: Thread, rootId: string, complete: bool)
    requires t in threads.Values
    reads threads.Values
  {
    && (complete <==> Complete(threads, t))
    && (complete ==> exists n: nat :: RootAt(threads, t, n) && Up(threads, t, n).value.id == rootId)
    && (!complete ==>
          (exists n: nat :: StopsAt(threads, t, n) && Up(threads, t, n).value.id == rootId)
          || (exists n: nat :: LoopsAt(threads, t, n) && t.id == rootId))
  }

  ghost function AllIds(threads: Threads): set<string>
    reads threads.Values
  {
    set t | t in threads.Values :: t.id
  }

  /** codexAgentRoot. The walk ends on every thread map, loops included. */
  method CodexAgentRoot(thread: Thread, threads: Threads) returns (rootId: string, complete: bool)
    requires thread in threads.Values
    ensures RootIs(threads, thread, rootId, complete)
  {
    var seen := {thread.id};
    var current := thread;
    ghost var n: nat := 0;
    while current.parentId != ""
      invariant Up(threads, thread, n) == Some(current)
      invariant ClearTo(threads, thread, n)
      invariant forall id :: id in seen <==> exists i :: 0 <= i <= n && Up(threads, thread, i).value.id == id
      invariant seen <= AllIds(threads)
      decreases AllIds(threads) - seen
    {
      if current.parentId !in threads || !threads[current.parentId].retained {
        assert StopsAt(threads, thread, n);
        NoRootBeyond(threads, thread, n);
        return current.id, false;
      }
      var parent := threads[current.parentId];
      assert Up(threads, thread, n + 1) == Some(parent);
      if parent.id in seen {
        assert LoopsAt(threads, thread, n);
        NoRootBeyond(threads, thread, n);
        return thread.id, false;
      }
      seen := seen + {parent.id};
      current := parent;
      n := n + 1;
    }
    assert RootAt(threads, thread, n);
    return current.id, true;
  }

  lemma {:induction false} UpStays(threads: Threads, t: Thread, m: nat, n: nat)
    requires t in threads.Values && m < n && Up(threads, t, n).Some?
    ensures Up(threads, t, m).Some? && Up(threads, t, m).value.parentId != ""
  {
    if m < n - 1 {
      UpStays(threads, t, m, n - 1);
    }
  }

  lemma {:induction false} NoRootBeyond(threads: Threads, t: Thread, n: nat)
    requires t in threads.Values
    requires StopsAt(threads, t, n) || LoopsAt(threads, t, n)
    ensures !Complete(threads, t)
  {
    forall m: nat ensures !RootAt(threads, t, m) {
      if m < n {
        UpStays(threads, t, m, n);
      } else if RootAt(threads, t, m) && m > n {
        assert ClearTo(threads, t, n + 1);
      }
    }
  }

  lemma {:induction false} UpAdd(threads: Threads, t: Thread, a: nat, b: nat)
    requires t in threads.Values && Up(threads, t, a).Some?
    ensures Up(threads, t, a + b) == Up(threads, Up(threads, t, a).value, b)
  {
    if b > 0 {
      UpAdd(threads, t, a, b - 1);
    }
  }

  /** Only one answer fits: the walk has one first event. */
  lemma {:induction false} RootIsUnique(threads: Threads, t: Thread, a: string, b: string, x: bool, y: bool)
    requires t in threads.Values
    requires RootIs(threads, t, a, x) && RootIs(threads, t, b, y)
    ensures a == b && x == y
  {
    var m := Ending(threads, t, a, x);
    var n := Ending(threads, t, b, y);
    if m < n {
      ClearGoesOn(threads, t, m, n);
    } else if n < m {
      ClearGoesOn(threads, t, n, m);
    }
  }

  ghost predicate AnswersAt(threads: Threads, t: Thread, n: nat)
    requires t in threads.Values
    reads threads.Values
  {
    RootAt(threads, t, n) || StopsAt(threads, t, n) || LoopsAt(threads, t, n)
  }

  /** Where the walk of this answer ends, and what it answers there. */
  lemma {:induction false} Ending(threads: Threads, t: Thread, rootId: string, complete: bool) returns (n: nat)
    requires t in threads.Values && RootIs(threads, t, rootId, complete)
    ensures AnswersAt(threads, t, n)
    ensures complete <==> RootAt(threads, t, n)
    ensures rootId == if LoopsAt(threads, t, n) then t.id else Up(threads, t, n).value.id
  {
    n :| AnswersAt(threads, t, n) && (complete <==> RootAt(threads, t, n))
         && rootId == if LoopsAt(threads, t, n) then t.id else Up(threads, t, n).value.id;
  }

  lemma {:induction false} ClearGoesOn(threads: Threads, t: Thread, m: nat, n: nat)
    requires t in threads.Values && m < n && ClearTo(threads, t, n)
    ensures !AnswersAt(threads, t, m)
  {
    UpStays(threads, t, m, n);
    assert ClearTo(threads, t, m + 1);
  }

  // ---- every thread on a complete chain agrees --------------------------------

  lemma {:induction false} ChainSharesRoot(threads: Threads, t: Thread, k: nat, rootId: string)
    requires t in threads.Values && RootIs(threads, t, rootId, true)
    requires Up(threads, t, k).Some?
    ensures RootIs(threads, Up(threads, t, k).value, rootId, true)
  {
    var n: nat :| RootAt(threads, t, n) && Up(threads, t, n).value.id == rootId;
    if k > n {
      UpStays(threads, t, n, k);
    } else {
      var a := Up(threads, t, k).value;
      forall i: nat | i <= n - k ensures Up(threads, a, i) == Up(threads, t, k + i) {
        UpAdd(threads, t, k, i);
      }
      assert RootAt(threads, a, n - k);
    }
  }

  // ---- relationFromAgentThread ------------------------------------------------

  /** The fields of a relation that place it. */
  datatype Placement = Placement(
    relationId: string, sessionId: string, traceId: string, agentId: string, parentAgentId: Option<string>)

  function SessionFor(rootId: string): string {
    var id := TrimSpace(rootId);
    "codex:" + if id == "" then "unknown" else id
  }

  /** The trace the root's own task started, or the root's id. */
  function TraceFor(threads: Threads, rootId: string): string
    reads threads.Values
  {
    if rootId in threads && threads[rootId].traceId != "" then threads[rootId].traceId else rootId
  }

  method RelationFromAgentThread(thread: Thread, threads: Threads) returns (r: Placement)
    requires thread in threads.Values
    ensures exists rootId, complete ::
              RootIs(threads, thread, rootId, complete) && r == PlacementOf(threads, thread, rootId, complete)
  {
    var id, done := CodexAgentRoot(thread, threads);
    var traceId := id;
    if id in threads && threads[id].traceId != "" {
      traceId := threads[id].traceId;
    }
    r := Placement(traceId + ":" + thread.id, SessionFor(id), traceId, thread.id, None);
    if thread.parentId != id || !done {
      r := r.(parentAgentId := Some(thread.parentId));
    }
  }

  function PlacementOf(threads: Threads, t: Thread, rootId: string, complete: bool): Placement
    reads t, threads.Values
  {
    var traceId := TraceFor(threads, rootId);
    Placement(
      traceId + ":" + t.id, SessionFor(rootId), traceId, t.id,
      if complete && t.parentId == rootId then None else Some(t.parentId))
  }

  /** All agents under one complete chain are filed under one session and trace; the
      agent spawned by the root names no parent agent, the others name theirs. */
  lemma {:induction false} ChainIsFiledTogether(
      threads: Threads, t: Thread, k: nat, rootId: string, otherRoot: string, otherComplete: bool)
    requires t in threads.Values && RootIs(threads, t, rootId, true)
    requires Up(threads, t, k).Some?
    requires RootIs(threads, Up(threads, t, k).value, otherRoot, otherComplete)
    ensures var a, b := PlacementOf(threads, t, rootId, true),
                        PlacementOf(threads, Up(threads, t, k).value, otherRoot, otherComplete);
            && a.sessionId == b.sessionId && a.traceId == b.traceId && otherComplete
            && (b.parentAgentId.None? <==> Up(threads, t, k).value.parentId == rootId)
  {
    ChainSharesRoot(threads, t, k, rootId);
    RootIsUnique(threads, Up(threads, t, k).value, rootId, otherRoot, true, otherComplete);
  }

  // ---- when ids are keys ------------------------------------------------------

  lemma {:induction false} UpCycles(threads: Threads, t: Thread, i: nat, j: nat, m: nat)
    requires t in threads.Values && Up(threads, t, i) == Up(threads, t, j) && Up(threads, t, i).Some?
    ensures Up(threads, t, i + m) == Up(threads, t, j + m)
  {
    UpAdd(threads, t, i, m);
    UpAdd(threads, t, j, m);
  }

  /** Where every thread is recorded under its own id, the answer is complete exactly
      when the parents end at a retained root: no id repeats on the way. */
  lemma {:induction false} CompleteWithOwnKeys(threads: Threads, t: Thread)
    requires t in threads.Values
    requires forall id :: id in threads ==> threads[id].id == id
    ensures Complete(threads, t) <==> exists n: nat :: EndsAt(threads, t, n)
  {
    if Complete(threads, t) {
      var n: nat :| RootAt(threads, t, n);
      assert EndsAt(threads, t, n);
    }
    if n: nat :| EndsAt(threads, t, n) {
      OwnKeysAreClear(threads, t, n);
      assert RootAt(threads, t, n);
    }
  }

  /** `n` steps lead to a thread without a parent, ids aside. */
  ghost predicate EndsAt(threads: Threads, t: Thread, n: nat)
    requires t in threads.Values
    reads threads.Values
  {
    Up(threads, t, n).Some? && Up(threads, t, n).value.parentId == ""
  }

  lemma {:induction false} OwnKeysAreClear(threads: Threads, t: Thread, n: nat)
    requires t in threads.Values && EndsAt(threads, t, n)
    requires forall id :: id in threads ==> threads[id].id == id
    ensures ClearTo(threads, t, n)
  {
    assert forall x :: x in threads.Values ==> x.id in threads && threads[x.id] == x;
    forall i | 0 <= i <= n ensures Up(threads, t, i).Some? {
      if i < n {
        UpStays(threads, t, i, n);
      }
    }
    forall i: nat, j: nat | i < j <= n ensures Up(threads, t, i).value.id != Up(threads, t, j).value.id {
      if Up(threads, t, i).value.id == Up(threads, t, j).value.id {
        UpCycles(threads, t, i, j, n - j);
        UpStays(threads, t, i + (n - j), n);
      }
    }
  }

  /** Where a relation is filed: under the trace its root's task started, or the root's id
      without one; under the root's session; and under the agent's parent, unless that is
      the root of a complete chain. */
  lemma {:induction false} PlacedByRoot(threads: Threads, t: Thread, rootId: string, complete: bool)
    requires t in threads.Values && RootIs(threads, t, rootId, complete)
    ensures var r := PlacementOf(threads, t, rootId, complete);
            && (rootId in threads && threads[rootId].traceId != "" ==> r.traceId == threads[rootId].traceId)
            && (rootId !in threads || threads[rootId].traceId == "" ==> r.traceId == rootId)
            && r.relationId == r.traceId + ":" + t.id && r.agentId == t.id
            && (Blank(rootId) ==> r.sessionId == "codex:unknown")
            && (!Blank(rootId) ==> r.sessionId == "codex:" + TrimSpace(rootId))
            && (r.parentAgentId == None <==> complete && t.parentId == rootId)
            && (r.parentAgentId != None ==> r.parentAgentId == Some(t.parentId))
  {
    BlankTrimsToNothing(rootId);
  }
}

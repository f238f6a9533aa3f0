/** Rebuilding a session's sub-agents from its spans
    (internal/normalize/claude/subagent_relations.go). */
module SubAgents {
  import opened Prelude
  import opened Ordering

  datatype SpanType = LlmRequest | ToolSpan | OtherSpan(name: string)

  /** The reduced view of one span; an absent text is "". */
  datatype Span = Span(
    traceId: string, spanId: string, parentSpanId: string, spanType: SpanType, orderingKey: string,
    bounds: Option<(int, int)>, sessionId: string, provider: string, tool: string,
    agentId: string, parentAgentId: string, subagentType: string, toolName: string, toolUseId: string,
    workflowRunId: string, workflowName: string,
    inputTokens: Option<int>, outputTokens: Option<int>, cacheRead: Option<int>, cacheCreation: Option<int>,
    durationMs: Option<int>)

  /** (trace, span) or (trace, agent); NUL-joined strings in Go. */
  type Id = (string, string)
  type SpanIndex = map<Id, Span>

  function Identity(s: Span): Id { (s.traceId, s.spanId) }
  function AgentKey(s: Span): Id { (s.traceId, s.agentId) }

  // ---- collectSubAgentSpans ---------------------------------------------------

  ghost predicate SeenIn(s: Span, spans: seq<Span>) {
    s.spanId != "" && exists k :: 0 <= k < |spans| && Identity(spans[k]) == Identity(s)
  }

  /** The spans kept: the first of each identity, and every span without an id. */
  ghost function Firsts(spans: seq<Span>): seq<Span> {
    if spans == [] then []
    else
      var front, last := spans[..|spans| - 1], spans[|spans| - 1];
      if SeenIn(last, front) then Firsts(front) else Firsts(front) + [last]
  }

  method CollectSpans(spans: seq<Span>) returns (kept: seq<Span>)
    ensures kept == Firsts(spans)
  {
    kept := [];
    var seen: set<Id> := {};
    for n := 0 to |spans|
      invariant kept == Firsts(spans[..n])
      invariant forall id :: id in seen <==> exists k :: 0 <= k < n && spans[k].spanId != "" && Identity(spans[k]) == id
    {
      var span := spans[n];
      assert spans[..n + 1][..n] == spans[..n];
      assert SeenIn(span, spans[..n]) <==> span.spanId != "" && Identity(span) in seen;
      if span.spanId != "" {
        if Identity(span) in seen { continue; }
        seen := seen + {Identity(span)};
      }
      kept := kept + [span];
    }
    assert spans[..|spans|] == spans;
  }

  lemma {:induction false} FirstsMembers(spans: seq<Span>, s: Span)
    ensures s in Firsts(spans) ==> s in spans
    ensures s in spans ==> exists t :: t in Firsts(spans) && Identity(t) == Identity(s)
  {
    if spans != [] {
      var front, last := spans[..|spans| - 1], spans[|spans| - 1];
      assert spans == front + [last];
      FirstsMembers(front, s);
      if SeenIn(last, front) {
        var k :| 0 <= k < |front| && Identity(front[k]) == Identity(last);
        FirstsMembers(front, front[k]);
        assert front[k] in front;
      } else {
        assert Firsts(spans) == Firsts(front) + [last];
        assert last in Firsts(spans);
      }
    }
  }

  /** Kept spans with an id have distinct identities. */
  lemma {:induction false} FirstsDistinct(spans: seq<Span>, i: nat, j: nat)
    requires i < j < |Firsts(spans)|
    ensures Firsts(spans)[j].spanId != "" ==> Identity(Firsts(spans)[i]) != Identity(Firsts(spans)[j])
  {
    var front, last := spans[..|spans| - 1], spans[|spans| - 1];
    if j < |Firsts(front)| {
      FirstsDistinct(front, i, j);
    } else {
      FirstsMembers(front, Firsts(front)[i]);
    }
  }

  /** Redelivered spans change nothing: the first delivery wins. */
  lemma {:induction false} RedeliveryIsIgnored(spans: seq<Span>, again: seq<Span>)
    requires forall s :: s in again ==> SeenIn(s, spans)
    ensures Firsts(spans + again) == Firsts(spans)
  {
    if again == [] {
      assert spans + again == spans;
    } else {
      var front, last := again[..|again| - 1], again[|again| - 1];
      assert (spans + again)[..|spans + again| - 1] == spans + front;
      RedeliveryIsIgnored(spans, front);
      assert last in again;
      var k :| 0 <= k < |spans| && Identity(spans[k]) == Identity(last);
      assert (spans + front)[k] == spans[k];
    }
  }

  lemma {:induction false} DistinctSpansAreKept(spans: seq<Span>)
    requires DistinctKeys(Identity, spans)
    ensures Firsts(spans) == spans
  {
    if spans != [] {
      var front, last := spans[..|spans| - 1], spans[|spans| - 1];
      LastIsUnseen(spans);
      DistinctSpansAreKept(front);
      assert spans == front + [last];
    }
  }

  lemma {:induction false} LastIsUnseen(spans: seq<Span>)
    requires spans != [] && DistinctKeys(Identity, spans)
    ensures DistinctKeys(Identity, spans[..|spans| - 1]) && !SeenIn(spans[|spans| - 1], spans[..|spans| - 1])
  {}

  // ---- spanIndex --------------------------------------------------------------

  /** The index holds exactly the spans with an id, each under its identity. */
  ghost predicate Indexes(index: SpanIndex, spans: seq<Span>) {
    && (forall id :: id in index ==> index[id] in spans && Identity(index[id]) == id && id.1 != "")
    && forall s :: s in spans && s.spanId != "" ==> Identity(s) in index
  }

  method IndexSpans(spans: seq<Span>) returns (index: SpanIndex)
    ensures Indexes(index, spans)
  {
    index := map[];
    for n := 0 to |spans|
      invariant Indexes(index, spans[..n])
    {
      assert spans[..n + 1] == spans[..n] + [spans[n]];
      if spans[n].spanId != "" {
        index := index[Identity(spans[n]) := spans[n]];
      }
    }
    assert spans[..|spans|] == spans;
  }

  /** Spans that share no identity have one index. */
  lemma {:induction false} IndexIsDetermined(a: SpanIndex, b: SpanIndex, xs: seq<Span>, ys: seq<Span>)
    requires Indexes(a, xs) && Indexes(b, ys)
    requires forall s :: s in xs <==> s in ys
    requires forall s, t :: s in xs && t in xs && s.spanId != "" && Identity(s) == Identity(t) ==> s == t
    ensures a == b
  {
    assert forall id :: id in a ==> id == Identity(a[id]);
    assert forall id :: id in b ==> id == Identity(b[id]);
    assert a.Keys == b.Keys;
  }

  // ---- spawnSpanFor -----------------------------------------------------------

  predicate Spawned(span: Span, ancestor: Span) {
    ancestor.spanType.ToolSpan? && ancestor.agentId != span.agentId
  }

  function ParentOf(index: SpanIndex, s: Span): Option<Span> {
    if s.parentSpanId == "" then None else HasKey(index, (s.traceId, s.parentSpanId))
  }

  /** The span `n` parent links above `s`, following links round any loop. */
  ghost function Ancestor(index: SpanIndex, s: Span, n: nat): Option<Span> {
    if n == 0 then Some(s)
    else
      var below := Ancestor(index, s, n - 1);
      if below.None? then None else ParentOf(index, below.value)
  }

  /** `r` is the nearest ancestor that spawned `span`, if any ancestor at any distance did. */
  ghost predicate NearestSpawn(index: SpanIndex, span: Span, r: Option<Span>) {
    if r.Some? then
      exists n: nat :: 1 <= n && IsNearest(index, span, r, n)
    else
      forall n: nat :: 1 <= n ==> !SpawnedAt(index, span, n)
  }

  ghost predicate SpawnedAt(index: SpanIndex, span: Span, n: nat) {
    Ancestor(index, span, n).Some? && Spawned(span, Ancestor(index, span, n).value)
  }

  ghost predicate IsNearest(index: SpanIndex, span: Span, r: Option<Span>, n: nat) {
    Ancestor(index, span, n) == r && SpawnedAt(index, span, n)
    && forall m: nat :: 1 <= m < n ==> !SpawnedAt(index, span, m)
  }

  lemma {:induction false} NearestIsUnique(index: SpanIndex, span: Span, a: Option<Span>, b: Option<Span>)
    requires NearestSpawn(index, span, a) && NearestSpawn(index, span, b)
    ensures a == b
  {
    if a.Some? && b.Some? {
      var n: nat :| 1 <= n && IsNearest(index, span, a, n);
      var m: nat :| 1 <= m && IsNearest(index, span, b, m);
      assert n == m;
    }
  }

  /** Every ancestor's key stays in a set of keys closed under parents. */
  lemma {:induction false} ClosedHoldsAncestors(index: SpanIndex, span: Span, closed: set<Id>, n: nat)
    requires closed <= index.Keys && 1 <= n
    requires ParentOf(index, span).Some? ==> (span.traceId, span.parentSpanId) in closed
    requires forall id :: id in closed && ParentOf(index, index[id]).Some? ==>
               (index[id].traceId, index[id].parentSpanId) in closed
    ensures Ancestor(index, span, n).Some? ==> exists id :: id in closed && Ancestor(index, span, n).value == index[id]
  {
    if n > 1 {
      ClosedHoldsAncestors(index, span, closed, n - 1);
    } else {
      assert Ancestor(index, span, 0) == Some(span);
    }
  }

  /** spawnSpanFor. The walk ends on every index, loops included. */
  method SpawnSpanFor(span: Span, index: SpanIndex) returns (r: Option<Span>)
    requires forall id :: id in index ==> Identity(index[id]) == id
    ensures NearestSpawn(index, span, r)
  {
    var seen: set<Id> := {};
    var current := span;
    ghost var n: nat := 0;
    while current.parentSpanId != ""
      invariant Ancestor(index, span, n) == Some(current)
      invariant n == 0 <==> seen == {}
      invariant n == 0 ==> current == span
      invariant n > 0 ==> Identity(current) in seen && index[Identity(current)] == current
      invariant n > 0 ==> ParentOf(index, span).Some? && (span.traceId, span.parentSpanId) in seen
      invariant seen <= index.Keys
      invariant forall id :: id in seen && index[id] != current && ParentOf(index, index[id]).Some? ==>
                  (index[id].traceId, index[id].parentSpanId) in seen
      invariant forall id :: id in seen ==> !Spawned(span, index[id])
      invariant forall m: nat :: 1 <= m <= n ==> !SpawnedAt(index, span, m)
      decreases index.Keys - seen
    {
      var key := (current.traceId, current.parentSpanId);
      if key in seen {
        NoneInClosed(index, span, seen);
        return None;
      }
      if key !in index {
        NoneAbove(index, span, n);
        return None;
      }
      seen := seen + {key};
      var parent := index[key];
      n := n + 1;
      if Spawned(span, parent) {
        assert IsNearest(index, span, Some(parent), n);
        return Some(parent);
      }
      current := parent;
    }
    NoneAbove(index, span, n);
    return None;
  }

  lemma {:induction false} NoneInClosed(index: SpanIndex, span: Span, closed: set<Id>)
    requires closed <= index.Keys
    requires ParentOf(index, span).Some? ==> (span.traceId, span.parentSpanId) in closed
    requires forall id :: id in closed && ParentOf(index, index[id]).Some? ==>
               (index[id].traceId, index[id].parentSpanId) in closed
    requires forall id :: id in closed ==> !Spawned(span, index[id])
    ensures NearestSpawn(index, span, None)
  {
    forall n: nat | 1 <= n ensures !SpawnedAt(index, span, n) {
      ClosedHoldsAncestors(index, span, closed, n);
    }
  }

  lemma {:induction false} EndedStaysEnded(index: SpanIndex, span: Span, n: nat, m: nat)
    requires n < m && Ancestor(index, span, n + 1).None?
    ensures Ancestor(index, span, m).None?
  {
    if n + 1 < m {
      EndedStaysEnded(index, span, n, m - 1);
    }
  }

  lemma {:induction false} NoneAbove(index: SpanIndex, span: Span, n: nat)
    requires Ancestor(index, span, n).Some? && ParentOf(index, Ancestor(index, span, n).value).None?
    requires forall m: nat :: 1 <= m <= n ==> !SpawnedAt(index, span, m)
    ensures NearestSpawn(index, span, None)
  {
    forall m: nat | 1 <= m ensures !SpawnedAt(index, span, m) {
      if m > n {
        EndedStaysEnded(index, span, n, m);
      }
    }
  }
}

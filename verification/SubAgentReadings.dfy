/** What a sub-agent's relation says, read off the spans by their fields
    (internal/normalize/claude/subagent_relations.go). */
module SubAgentReadings {
  import opened Prelude
  import opened Ordering
  import opened SubAgents
  import opened SubAgentRelations
  import opened SubAgentReconstruction

  // ---- the spawning span ------------------------------------------------------

  /** `p` is the span that `s` names as its parent, in its own trace. */
  predicate IsLink(index: SpanIndex, s: Span, p: Span) {
    s.parentSpanId != "" && (s.traceId, s.parentSpanId) in index && index[(s.traceId, s.parentSpanId)] == p
  }

  /** The chain follows parent links from `span`. */
  ghost predicate IsChain(index: SpanIndex, span: Span, chain: seq<Span>) {
    && chain != [] && chain[0] == span
    && forall i :: 0 <= i < |chain| - 1 ==> IsLink(index, chain[i], chain[i + 1])
  }

  /** A tool span of another agent. */
  predicate OfSpawner(span: Span, s: Span) {
    s.spanType == ToolSpan && s.agentId != span.agentId
  }

  /** The chain leads from `span` to its first spawner. */
  ghost predicate LeadsToSpawner(index: SpanIndex, span: Span, chain: seq<Span>) {
    && IsChain(index, span, chain) && |chain| >= 2 && OfSpawner(span, chain[|chain| - 1])
    && forall i :: 1 <= i < |chain| - 1 ==> !OfSpawner(span, chain[i])
  }

  lemma {:induction false} ChainIsAncestors(index: SpanIndex, span: Span, chain: seq<Span>, n: nat)
    requires IsChain(index, span, chain) && n < |chain|
    ensures Ancestor(index, span, n) == Some(chain[n])
  {
    if n > 0 {
      ChainIsAncestors(index, span, chain, n - 1);
      assert IsLink(index, chain[n - 1], chain[n]);
    }
  }

  lemma {:induction false} AncestorsAreChain(index: SpanIndex, span: Span, n: nat) returns (chain: seq<Span>)
    requires Ancestor(index, span, n).Some?
    ensures IsChain(index, span, chain) && |chain| == n + 1
  {
    if n == 0 {
      chain := [span];
    } else {
      var front := AncestorsAreChain(index, span, n - 1);
      ChainIsAncestors(index, span, front, n - 1);
      chain := front + [Ancestor(index, span, n).value];
    }
  }

  /** A span was spawned by `a` exactly when parent links lead to it before any other tool
      span of another agent; and by none exactly when they never lead to one. */
  lemma {:induction false} SpawnIsRead(index: SpanIndex, span: Span, r: Option<Span>)
    requires NearestSpawn(index, span, r)
    ensures r.Some? ==> exists chain :: LeadsToSpawner(index, span, chain) && chain[|chain| - 1] == r.value
    ensures r.None? ==> forall chain :: !LeadsToSpawner(index, span, chain)
  {
    if r.Some? {
      var n: nat :| 1 <= n && IsNearest(index, span, r, n);
      var chain := AncestorsAreChain(index, span, n);
      forall i | 1 <= i < |chain| ensures OfSpawner(span, chain[i]) <==> SpawnedAt(index, span, i) {
        ChainIsAncestors(index, span, chain, i);
      }
      ChainIsAncestors(index, span, chain, n);
    } else {
      forall chain ensures !LeadsToSpawner(index, span, chain) {
        if IsChain(index, span, chain) && |chain| >= 2 {
          ChainIsAncestors(index, span, chain, |chain| - 1);
          assert !SpawnedAt(index, span, |chain| - 1);
        }
      }
    }
  }

  // ---- the roll-up ------------------------------------------------------------

  /** `t` is the first text that is not empty, or empty if all are. */
  ghost predicate FirstText(texts: seq<string>, t: string) {
    || (t == "" && forall k :: 0 <= k < |texts| ==> texts[k] == "")
    || (t != "" && exists k :: 0 <= k < |texts| && texts[k] == t && forall j :: 0 <= j < k ==> texts[j] == "")
  }

  function Texts(field: Span -> string, spans: seq<Span>): seq<string> {
    seq(|spans|, k requires 0 <= k < |spans| => field(spans[k]))
  }

  lemma {:induction false} SameTexts(f: Span -> string, g: Span -> string, spans: seq<Span>)
    requires forall s :: f(s) == g(s)
    ensures Texts(f, spans) == Texts(g, spans)
  {
    forall k | 0 <= k < |spans| ensures Texts(f, spans)[k] == Texts(g, spans)[k] {
      assert f(spans[k]) == g(spans[k]);
    }
  }

  lemma {:induction false} FirstIsRead(field: Span -> string, spans: seq<Span>)
    ensures FirstText(Texts(field, spans), First(field, spans))
  {
    FirstIsEarliest(field, spans);
    var texts := Texts(field, spans);
    if First(field, spans) != "" {
      var k :| 0 <= k < |spans| && EarliestText(field, spans, k);
      assert texts[k] == First(field, spans) && forall j :: 0 <= j < k ==> texts[j] == "";
    } else {
      assert forall k :: 0 <= k < |spans| ==> texts[k] == field(spans[k]);
    }
  }

  /** A tool span carries the type of the child it spawns, so it is passed over. */
  function TypeShown(s: Span): string {
    if s.spanType == ToolSpan then "" else s.subagentType
  }

  /** The elapsed milliseconds between two nanosecond bounds. */
  predicate Elapsed(wall: int, start: int, end: int) {
    start <= end && wall * 1_000_000 <= end - start < (wall + 1) * 1_000_000
  }

  /** From the earliest start to the latest end, unless none was observed or they cross. */
  ghost predicate WallClock(spans: seq<Span>, wall: Option<int>) {
    if forall k :: 0 <= k < |spans| ==> spans[k].bounds.None? then wall == None
    else exists i, j :: Outermost(spans, i, j)
           && if spans[j].bounds.value.1 < spans[i].bounds.value.0 then wall == None
              else wall.Some? && Elapsed(wall.value, spans[i].bounds.value.0, spans[j].bounds.value.1)
  }

  ghost predicate Outermost(spans: seq<Span>, i: int, j: int) {
    && 0 <= i < |spans| && 0 <= j < |spans| && spans[i].bounds.Some? && spans[j].bounds.Some?
    && forall k :: 0 <= k < |spans| && spans[k].bounds.Some? ==>
         spans[i].bounds.value.0 <= spans[k].bounds.value.0 && spans[k].bounds.value.1 <= spans[j].bounds.value.1
  }

  lemma {:induction false} WallClockIsRead(spans: seq<Span>)
    ensures WallClock(spans, WallClockMs(Window(spans)))
  {
    WindowIsTight(spans);
    if Window(spans).Some? {
      var i, j :| 0 <= i < |spans| && 0 <= j < |spans| && spans[i].bounds.Some? && spans[j].bounds.Some?
        && Window(spans).value == (spans[i].bounds.value.0, spans[j].bounds.value.1);
      assert Outermost(spans, i, j);
    }
  }

  /** The spawning span of the earliest span that has one, and what the relation shows of it. */
  ghost predicate SpawnShown(spans: seq<Span>, index: SpanIndex, r: Relation) {
    if r.spawn.None? then
      (forall k, chain :: 0 <= k < |spans| ==> !LeadsToSpawner(index, spans[k], chain))
      && FirstText(Texts(TypeShown, spans), r.subagentType)
    else
      exists k, chain :: SpawnsAt(spans, index, k, chain) && ShowsSpawn(spans, r, chain[|chain| - 1])
  }

  ghost predicate SpawnsAt(spans: seq<Span>, index: SpanIndex, k: int, chain: seq<Span>) {
    && 0 <= k < |spans| && chain != [] && LeadsToSpawner(index, spans[k], chain)
    && forall j, other :: 0 <= j < k ==> !LeadsToSpawner(index, spans[j], other)
  }

  ghost predicate ShowsSpawn(spans: seq<Span>, r: Relation, spawn: Span) {
    && r.spawn.Some? && r.spawn.value.spanId == spawn.spanId && r.spawn.value.toolUseId == spawn.toolUseId
    && r.spawn.value.toolName == spawn.toolName && r.spawn.value.agentId == spawn.agentId
    && if spawn.subagentType != "" then r.subagentType == spawn.subagentType
       else FirstText(Texts(TypeShown, spans), r.subagentType)
  }

  lemma {:induction false} SpawnIsShown(spans: seq<Span>, index: SpanIndex, r: Relation)
    requires RollsUp(spans, index, r)
    ensures SpawnShown(spans, index, r)
  {
    var spawn: Option<Span> :| FirstSpawn(spans, index, spawn) && r.spawn == SpawnBlock(spawn)
      && r.subagentType == SubAgentRelations.FirstText(SpawnedType(spawn), First(OwnType, spans));
    TypesAreRead(spans);
    if spawn.None? {
      forall k, chain | 0 <= k < |spans| ensures !LeadsToSpawner(index, spans[k], chain) {
        SpawnIsRead(index, spans[k], None);
      }
    } else {
      var k :| 0 <= k < |spans| && SpawnFrom(spans, index, spawn, k);
      SpawnIsRead(index, spans[k], spawn);
      var chain :| LeadsToSpawner(index, spans[k], chain) && chain[|chain| - 1] == spawn.value;
      forall j, other | 0 <= j < k ensures !LeadsToSpawner(index, spans[j], other) {
        SpawnIsRead(index, spans[j], None);
      }
      assert SpawnsAt(spans, index, k, chain) && ShowsSpawn(spans, r, chain[|chain| - 1]);
    }
  }

  lemma {:induction false} TypesAreRead(spans: seq<Span>)
    ensures FirstText(Texts(TypeShown, spans), First(OwnType, spans))
  {
    FirstIsRead(OwnType, spans);
    SameTexts(OwnType, TypeShown, spans);
  }

  /** A relation rolled up from spans: the identity of their first, the earliest texts, the
      number and ids, the window, the spawning span, and the parents where they disagree. */
  lemma {:induction false} RollUpIsRead(spans: seq<Span>, index: SpanIndex, r: Relation)
    requires RollsUp(spans, index, r)
    ensures r.traceId == spans[0].traceId && r.agentId == spans[0].agentId && r.sessionId == spans[0].sessionId
    ensures r.provider == spans[0].provider && r.tool == spans[0].tool
    ensures FirstText(Texts((s: Span) => s.parentAgentId, spans), r.parentAgentId)
    ensures FirstText(Texts((s: Span) => s.workflowRunId, spans), r.workflowRunId)
    ensures FirstText(Texts((s: Span) => s.workflowName, spans), r.workflowName)
    ensures r.spanCount == |spans| && r.spanIds == Texts((s: Span) => s.spanId, spans)
    ensures WallClock(spans, r.wallClockMs) && SpawnShown(spans, index, r)
    ensures r.parentCandidates != [] ==> |r.parentCandidates| > 1
    ensures forall a :: a in r.parentCandidates ==> a != "" && exists k :: 0 <= k < |spans| && spans[k].parentAgentId == a
    ensures r.parentCandidates == [] ==>
              forall j, k :: 0 <= j < |spans| && 0 <= k < |spans| && spans[j].parentAgentId != "" && spans[k].parentAgentId != "" ==>
                spans[j].parentAgentId == spans[k].parentAgentId
  {
    TextsAreRead(spans);
    SpanIdsAreRead(spans);
    WallClockIsRead(spans);
    SpawnIsShown(spans, index, r);
    ParentsAreRead(spans);
  }

  lemma {:induction false} TextsAreRead(spans: seq<Span>)
    ensures FirstText(Texts((s: Span) => s.parentAgentId, spans), First(ParentAgentId, spans))
    ensures FirstText(Texts((s: Span) => s.workflowRunId, spans), First(WorkflowRunId, spans))
    ensures FirstText(Texts((s: Span) => s.workflowName, spans), First(WorkflowName, spans))
  {
    FirstIsRead(ParentAgentId, spans);
    FirstIsRead(WorkflowRunId, spans);
    FirstIsRead(WorkflowName, spans);
    SameTexts(ParentAgentId, (s: Span) => s.parentAgentId, spans);
    SameTexts(WorkflowRunId, (s: Span) => s.workflowRunId, spans);
    SameTexts(WorkflowName, (s: Span) => s.workflowName, spans);
  }

  lemma {:induction false} SpanIdsAreRead(spans: seq<Span>)
    ensures SpanIds(spans) == Texts((s: Span) => s.spanId, spans)
  {
    if spans != [] {
      SpanIdsAreRead(spans[..|spans| - 1]);
    }
  }

  lemma {:induction false} ParentsAreRead(spans: seq<Span>)
    ensures var ids := ParentIds(spans);
            && (forall a :: a in ids ==> a != "" && exists k :: 0 <= k < |spans| && spans[k].parentAgentId == a)
            && (|ids| <= 1 ==>
                  forall j, k :: 0 <= j < |spans| && 0 <= k < |spans| && spans[j].parentAgentId != "" && spans[k].parentAgentId != "" ==>
                    spans[j].parentAgentId == spans[k].parentAgentId)
  {
    ParentIdsAreDistinct(spans);
    var ids := ParentIds(spans);
    forall j, k | |ids| <= 1 && 0 <= j < |spans| && 0 <= k < |spans| && spans[j].parentAgentId != "" && spans[k].parentAgentId != ""
      ensures spans[j].parentAgentId == spans[k].parentAgentId
    {
      assert spans[j].parentAgentId in ids && spans[k].parentAgentId in ids;
    }
  }

  // ---- the groups -------------------------------------------------------------

  /** One agent's spans: those of its trace that carry its id. */
  function AgentSpans(traceId: string, agentId: string, spans: seq<Span>): seq<Span> {
    FilterMap((s: Span) => if s.traceId == traceId && s.agentId == agentId && s.agentId != "" then Some(s) else None, spans)
  }

  /** In the order of their ordering texts, and of their ids between equal ones. */
  ghost predicate InOrder(spans: seq<Span>) {
    forall i, j :: 0 <= i < j < |spans| ==>
      !StrLess(spans[j].orderingKey, spans[i].orderingKey)
      && (spans[i].orderingKey == spans[j].orderingKey ==> !StrLess(spans[j].spanId, spans[i].spanId))
  }

  /** An agent's spans, ordered, that the relation rolls up. */
  ghost predicate OfAgent(kept: seq<Span>, index: SpanIndex, r: Relation, group: seq<Span>) {
    && group != [] && InOrder(group) && multiset(group) == multiset(AgentSpans(r.traceId, r.agentId, kept))
    && RollsUp(group, index, r)
  }

  /** There is a relation for every agent of a span, and for no other; each rolls up that
      agent's spans in order; and they are listed by trace and agent. */
  lemma {:induction false} AgentsAreRead(kept: seq<Span>, index: SpanIndex, relations: seq<Relation>)
    requires Reconstructs(kept, index, relations)
    ensures forall s :: s in kept && s.agentId != "" ==>
              exists r :: r in relations && r.traceId == s.traceId && r.agentId == s.agentId
    ensures forall r :: r in relations ==> exists group :: OfAgent(kept, index, r, group)
    ensures forall i, j :: 0 <= i < j < |relations| ==>
              StrLess(relations[i].traceId, relations[j].traceId)
              || (relations[i].traceId == relations[j].traceId && StrLess(relations[i].agentId, relations[j].agentId))
  {
    forall s | s in kept && s.agentId != ""
      ensures exists r :: r in relations && r.traceId == s.traceId && r.agentId == s.agentId
    {
      GroupMember((s.traceId, s.agentId), kept, s);
      var r :| r in relations && RelationKey(r) == (s.traceId, s.agentId);
    }
    forall r | r in relations ensures exists group :: OfAgent(kept, index, r, group) {
      var group := SortBy(KeyLess, SpanOrder, Group(RelationKey(r), kept));
      GroupIsAgents(RelationKey(r), kept);
      GroupIsOrdered(Group(RelationKey(r), kept));
      assert OfAgent(kept, index, r, group);
    }
    forall i, j | 0 <= i < j < |relations|
      ensures StrLess(relations[i].traceId, relations[j].traceId)
              || (relations[i].traceId == relations[j].traceId && StrLess(relations[i].agentId, relations[j].agentId))
    {
      assert KeyLess(RelationKey(relations[i]), RelationKey(relations[j]));
    }
  }

  lemma {:induction false} GroupIsAgents(key: Id, kept: seq<Span>)
    ensures Group(key, kept) == AgentSpans(key.0, key.1, kept)
  {
    SameReading((s: Span) => InGroup(key, s),
                (s: Span) => if s.traceId == key.0 && s.agentId == key.1 && s.agentId != "" then Some(s) else None, kept);
  }

  lemma {:induction false} GroupIsOrdered(group: seq<Span>)
    ensures InOrder(SortBy(KeyLess, SpanOrder, group))
  {
    var sorted := SortBy(KeyLess, SpanOrder, group);
    KeyLessStrictTotal();
    SortBySorted(KeyLess, SpanOrder, group);
    forall i, j | 0 <= i < j < |sorted|
      ensures !StrLess(sorted[j].orderingKey, sorted[i].orderingKey)
      ensures sorted[i].orderingKey == sorted[j].orderingKey ==> !StrLess(sorted[j].spanId, sorted[i].spanId)
    {
      assert !KeyLess(SpanOrder(sorted[j]), SpanOrder(sorted[i]));
      StrLessIrreflexive(sorted[i].orderingKey);
    }
  }
}

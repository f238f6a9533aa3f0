/** Rolling each sub-agent's spans into one relation
    (relationFromGroup and ReconstructSubAgentRelations, subagent_relations.go). */
module SubAgentRelations {
  import opened Prelude
  import opened Ordering
  import opened Folds
  import opened SubAgents

  // ---- what a relation holds --------------------------------------------------

  /** A text is "" where the record leaves it out. */
  datatype Relation = Relation(
    traceId: string, agentId: string, sessionId: string, provider: string, tool: string,
    parentAgentId: string, subagentType: string, workflowRunId: string, workflowName: string,
    spanCount: int, totals: Totals, wallClockMs: Option<int>,
    spawn: Option<Spawn>, spanIds: seq<string>, parentCandidates: seq<string>)

  datatype Totals = Totals(
    llmRequests: int, toolCalls: int, input: Option<int>, output: Option<int>, cacheRead: Option<int>,
    cacheCreation: Option<int>, llmDurationMs: Option<int>, toolDurationMs: Option<int>)

  datatype Spawn = Spawn(spanId: string, toolUseId: string, toolName: string, agentId: string)

  function FirstText(a: string, b: string): string { if a != "" then a else b }

  function First(field: Span -> string, spans: seq<Span>): string {
    if spans == [] then "" else FirstText(First(field, spans[..|spans| - 1]), field(spans[|spans| - 1]))
  }

  /** The value of the earliest span that carries one. */
  lemma {:induction false} FirstIsEarliest(field: Span -> string, spans: seq<Span>)
    ensures First(field, spans) != "" ==> exists k :: 0 <= k < |spans| && EarliestText(field, spans, k)
    ensures First(field, spans) == "" ==> forall k :: 0 <= k < |spans| ==> field(spans[k]) == ""
  {
    if spans != [] {
      var front := spans[..|spans| - 1];
      FirstIsEarliest(field, front);
      if First(field, front) != "" {
        var k :| 0 <= k < |front| && EarliestText(field, front, k);
        assert EarliestText(field, spans, k);
      } else if First(field, spans) != "" {
        assert EarliestText(field, spans, |spans| - 1);
      }
    }
  }

  ghost predicate EarliestText(field: Span -> string, spans: seq<Span>, k: nat)
    requires k < |spans|
  {
    field(spans[k]) == First(field, spans) && forall j :: 0 <= j < k ==> field(spans[j]) == ""
  }

  function Count(kind: SpanType, spans: seq<Span>): int {
    if spans == [] then 0
    else Count(kind, spans[..|spans| - 1]) + if spans[|spans| - 1].spanType == kind then 1 else 0
  }

  /** The sum over the spans of one type that carry the field; None when none does. */
  function Total(kind: SpanType, field: Span -> Option<int>, spans: seq<Span>): Option<int> {
    if spans == [] then None
    else
      var last := spans[|spans| - 1];
      AddOptional(Total(kind, field, spans[..|spans| - 1]), if last.spanType == kind then field(last) else None)
  }

  function TotalsOf(spans: seq<Span>): Totals {
    Totals(
      Count(LlmRequest, spans), Count(ToolSpan, spans),
      Total(LlmRequest, InputTokens, spans), Total(LlmRequest, OutputTokens, spans),
      Total(LlmRequest, CacheRead, spans), Total(LlmRequest, CacheCreation, spans),
      Total(LlmRequest, DurationMs, spans), Total(ToolSpan, DurationMs, spans))
  }

  function InputTokens(s: Span): Option<int> { s.inputTokens }
  function OutputTokens(s: Span): Option<int> { s.outputTokens }
  function CacheRead(s: Span): Option<int> { s.cacheRead }
  function CacheCreation(s: Span): Option<int> { s.cacheCreation }
  function DurationMs(s: Span): Option<int> { s.durationMs }

  /** The earliest start and the latest end among the spans whose bounds were observed. */
  function Window(spans: seq<Span>): Option<(int, int)> {
    if spans == [] then None else Hull(Window(spans[..|spans| - 1]), spans[|spans| - 1].bounds)
  }

  function Hull(a: Option<(int, int)>, b: Option<(int, int)>): Option<(int, int)> {
    if b.None? then a
    else if a.None? then b
    else Some((if b.value.0 < a.value.0 then b.value.0 else a.value.0,
               if b.value.1 > a.value.1 then b.value.1 else a.value.1))
  }

  lemma {:induction false} WindowIsTight(spans: seq<Span>)
    ensures Window(spans).None? <==> forall k :: 0 <= k < |spans| ==> spans[k].bounds.None?
    ensures Window(spans).Some? ==>
              forall k :: 0 <= k < |spans| && spans[k].bounds.Some? ==>
                Window(spans).value.0 <= spans[k].bounds.value.0 && spans[k].bounds.value.1 <= Window(spans).value.1
    ensures Window(spans).Some? ==>
              exists i, j :: 0 <= i < |spans| && 0 <= j < |spans| && spans[i].bounds.Some? && spans[j].bounds.Some?
                && Window(spans).value == (spans[i].bounds.value.0, spans[j].bounds.value.1)
  {
    if spans != [] {
      WindowIsTight(spans[..|spans| - 1]);
    }
  }

  function WallClockMs(window: Option<(int, int)>): Option<int> {
    if window.None? || window.value.1 < window.value.0 then None
    else Some((window.value.1 - window.value.0) / 1_000_000)
  }

  /** The distinct non-empty parent ids, in first-seen order. */
  function ParentIds(spans: seq<Span>): seq<string> {
    if spans == [] then [] else AppendDistinct(ParentIds(spans[..|spans| - 1]), spans[|spans| - 1].parentAgentId)
  }

  function AppendDistinct(ids: seq<string>, id: string): seq<string> {
    if id == "" || id in ids then ids else ids + [id]
  }

  lemma {:induction false} ParentIdsAreDistinct(spans: seq<Span>)
    ensures forall i, j :: 0 <= i < j < |ParentIds(spans)| ==> ParentIds(spans)[i] != ParentIds(spans)[j]
    ensures forall id :: id in ParentIds(spans) <==> id != "" && exists k :: 0 <= k < |spans| && spans[k].parentAgentId == id
  {
    if spans != [] {
      ParentIdsAreDistinct(spans[..|spans| - 1]);
    }
  }

  /** The relation one agent's spans, sorted, roll up to. */
  ghost predicate RollsUp(spans: seq<Span>, index: SpanIndex, r: Relation) {
    && spans != []
    && var first := spans[0];
    && r.traceId == first.traceId && r.agentId == first.agentId
    && r.sessionId == first.sessionId && r.provider == first.provider && r.tool == first.tool
    && r.parentAgentId == First(ParentAgentId, spans)
    && r.workflowRunId == First(WorkflowRunId, spans)
    && r.workflowName == First(WorkflowName, spans)
    && r.spanCount == |spans| && r.totals == TotalsOf(spans) && r.wallClockMs == WallClockMs(Window(spans))
    && r.spanIds == SpanIds(spans)
    && r.parentCandidates == (if |ParentIds(spans)| > 1 then ParentIds(spans) else [])
    && exists spawn: Option<Span> ::
         FirstSpawn(spans, index, spawn) && r.spawn == SpawnBlock(spawn)
         && r.subagentType == FirstText(SpawnedType(spawn), First(OwnType, spans))
  }

  function ParentAgentId(s: Span): string { s.parentAgentId }
  function WorkflowRunId(s: Span): string { s.workflowRunId }
  function WorkflowName(s: Span): string { s.workflowName }

  function SpanIds(spans: seq<Span>): seq<string> {
    if spans == [] then [] else SpanIds(spans[..|spans| - 1]) + [spans[|spans| - 1].spanId]
  }

  /** An agent's tool spans carry the type of the child they spawn, not its own. */
  function OwnType(s: Span): string { if s.spanType.ToolSpan? then "" else s.subagentType }

  function SpawnedType(spawn: Option<Span>): string { if spawn.Some? then spawn.value.subagentType else "" }

  function SpawnBlock(spawn: Option<Span>): Option<Spawn> {
    if spawn.None? then None
    else Some(Spawn(spawn.value.spanId, spawn.value.toolUseId, spawn.value.toolName, spawn.value.agentId))
  }

  /** The nearest spawning span of the earliest span that has one. */
  ghost predicate FirstSpawn(spans: seq<Span>, index: SpanIndex, spawn: Option<Span>) {
    if spawn.None? then forall k :: 0 <= k < |spans| ==> NearestSpawn(index, spans[k], None)
    else exists k :: 0 <= k < |spans| && SpawnFrom(spans, index, spawn, k)
  }

  ghost predicate SpawnFrom(spans: seq<Span>, index: SpanIndex, spawn: Option<Span>, k: nat)
    requires k < |spans|
  {
    NearestSpawn(index, spans[k], spawn) && forall j :: 0 <= j < k ==> NearestSpawn(index, spans[j], None)
  }

  // ---- a relation is determined -----------------------------------------------

  lemma {:induction false} FirstSpawnUnique(spans: seq<Span>, index: SpanIndex, a: Option<Span>, b: Option<Span>)
    requires FirstSpawn(spans, index, a) && FirstSpawn(spans, index, b)
    ensures a == b
  {
    forall k, x, y | 0 <= k < |spans| && NearestSpawn(index, spans[k], x) && NearestSpawn(index, spans[k], y)
      ensures x == y
    {
      NearestIsUnique(index, spans[k], x, y);
    }
    if a.Some? && b.Some? {
      var k :| 0 <= k < |spans| && SpawnFrom(spans, index, a, k);
      var j :| 0 <= j < |spans| && SpawnFrom(spans, index, b, j);
      assert k == j;
    }
  }

  lemma {:induction false} RollUpUnique(spans: seq<Span>, index: SpanIndex, a: Relation, b: Relation)
    requires RollsUp(spans, index, a) && RollsUp(spans, index, b)
    ensures a == b
  {
    var x: Option<Span> :| FirstSpawn(spans, index, x) && a.spawn == SpawnBlock(x)
      && a.subagentType == FirstText(SpawnedType(x), First(OwnType, spans));
    var y: Option<Span> :| FirstSpawn(spans, index, y) && b.spawn == SpawnBlock(y)
      && b.subagentType == FirstText(SpawnedType(y), First(OwnType, spans));
    FirstSpawnUnique(spans, index, x, y);
  }

  // ---- relationFromGroup ------------------------------------------------------

  class BoundsTracker {
    var minStart: int
    var maxEnd: int
    var observed: bool

    constructor ()
      ensures !observed
    {
      minStart, maxEnd, observed := 0, 0, false;
    }

    ghost function Observed(): Option<(int, int)>
      reads this
    {
      if observed then Some((minStart, maxEnd)) else None
    }

    method Add(span: Span)
      modifies this
      ensures Observed() == Hull(old(Observed()), span.bounds)
    {
      if span.bounds.None? { return; }
      if !observed || span.bounds.value.0 < minStart {
        minStart := span.bounds.value.0;
      }
      if !observed || span.bounds.value.1 > maxEnd {
        maxEnd := span.bounds.value.1;
      }
      observed := true;
    }

    method WallClock() returns (wall: Option<int>)
      ensures wall == WallClockMs(Observed())
    {
      if !observed || maxEnd < minStart { return None; }
      return Some((maxEnd - minStart) / 1_000_000);
    }
  }

  /** accumulateSpan's counters, updated through the relation's pointers. */
  class Rollup {
    var parentAgentId: string
    var subagentType: string
    var workflowRunId: string
    var workflowName: string
    var totals: Totals

    constructor (spawnedType: string)
      ensures Holds(spawnedType, [])
    {
      parentAgentId, subagentType, workflowRunId, workflowName := "", spawnedType, "", "";
      totals := Totals(0, 0, None, None, None, None, None, None);
    }

    ghost predicate Holds(spawnedType: string, spans: seq<Span>)
      reads this
    {
      && parentAgentId == First(ParentAgentId, spans)
      && subagentType == FirstText(spawnedType, First(OwnType, spans))
      && workflowRunId == First(WorkflowRunId, spans)
      && workflowName == First(WorkflowName, spans)
      && totals == TotalsOf(spans)
    }

    method Accumulate(span: Span, ghost spawnedType: string, ghost spans: seq<Span>)
      requires Holds(spawnedType, spans)
      modifies this
      ensures Holds(spawnedType, spans + [span])
    {
      OneMoreSpan(spans, span);
      if span.parentAgentId != "" && parentAgentId == "" {
        parentAgentId := span.parentAgentId;
      }
      if !span.spanType.ToolSpan? && subagentType == "" {
        subagentType := span.subagentType;
      }
      if workflowRunId == "" {
        workflowRunId := span.workflowRunId;
      }
      if workflowName == "" {
        workflowName := span.workflowName;
      }
      if span.spanType.LlmRequest? {
        totals := WithRequest(totals, span);
      } else if span.spanType.ToolSpan? {
        totals := WithToolCall(totals, span);
      }
    }
  }

  function WithRequest(t: Totals, span: Span): Totals {
    t.(
      llmRequests := t.llmRequests + 1,
      input := AddOptional(t.input, span.inputTokens),
      output := AddOptional(t.output, span.outputTokens),
      cacheRead := AddOptional(t.cacheRead, span.cacheRead),
      cacheCreation := AddOptional(t.cacheCreation, span.cacheCreation),
      llmDurationMs := AddOptional(t.llmDurationMs, span.durationMs))
  }

  function WithToolCall(t: Totals, span: Span): Totals {
    t.(toolCalls := t.toolCalls + 1, toolDurationMs := AddOptional(t.toolDurationMs, span.durationMs))
  }

  /** What one more span adds to each sum. */
  lemma {:induction false} OneMoreSpan(spans: seq<Span>, span: Span)
    ensures First(ParentAgentId, spans + [span]) == FirstText(First(ParentAgentId, spans), span.parentAgentId)
    ensures First(OwnType, spans + [span]) == FirstText(First(OwnType, spans), OwnType(span))
    ensures First(WorkflowRunId, spans + [span]) == FirstText(First(WorkflowRunId, spans), span.workflowRunId)
    ensures First(WorkflowName, spans + [span]) == FirstText(First(WorkflowName, spans), span.workflowName)
    ensures TotalsOf(spans + [span])
            == if span.spanType.LlmRequest? then WithRequest(TotalsOf(spans), span)
               else if span.spanType.ToolSpan? then WithToolCall(TotalsOf(spans), span)
               else TotalsOf(spans)
  {
    assert (spans + [span])[..|spans|] == spans;
    assert forall kind :: Count(kind, spans + [span]) == Count(kind, spans) + (if span.spanType == kind then 1 else 0);
    assert forall kind, field ::
      Total(kind, field, spans + [span]) == AddOptional(Total(kind, field, spans), (if span.spanType == kind then field(span) else None));
  }

  /** (ordering key, span id), the order spans of one agent are taken in. */
  predicate KeyLess(a: Id, b: Id) {
    if a.0 != b.0 then StrLess(a.0, b.0) else StrLess(a.1, b.1)
  }

  function SpanOrder(s: Span): Id { (s.orderingKey, s.spanId) }

  lemma {:induction false} KeyLessStrictTotal()
    ensures StrictTotal(KeyLess)
  {
    StrLessStrictTotal();
    forall a: Id, b: Id ensures a == b || KeyLess(a, b) || KeyLess(b, a) {
      assert a == (a.0, a.1) && b == (b.0, b.1);
    }
    forall a: Id, b: Id, c: Id | KeyLess(a, b) && KeyLess(b, c) ensures KeyLess(a, c) {
      if a.0 == b.0 == c.0 {
        assert StrLess(a.1, b.1) && StrLess(b.1, c.1);
      }
    }
  }

  method SpawnOfGroup(sorted: seq<Span>, index: SpanIndex) returns (spawn: Option<Span>)
    requires forall id :: id in index ==> Identity(index[id]) == id
    ensures FirstSpawn(sorted, index, spawn)
  {
    for n := 0 to |sorted|
      invariant forall k :: 0 <= k < n ==> NearestSpawn(index, sorted[k], None)
    {
      var found := SpawnSpanFor(sorted[n], index);
      if found.Some? {
        assert SpawnFrom(sorted, index, found, n);
        return found;
      }
    }
    return None;
  }

  /** The loop over the group. */
  method TakeSpans(sorted: seq<Span>, rollup: Rollup, bounds: BoundsTracker, spawnedType: string)
    returns (spanIds: seq<string>, parents: seq<string>)
    requires rollup.Holds(spawnedType, []) && bounds.Observed() == Window([])
    modifies rollup, bounds
    ensures rollup.Holds(spawnedType, sorted) && bounds.Observed() == Window(sorted)
    ensures spanIds == SpanIds(sorted) && parents == ParentIds(sorted)
  {
    spanIds, parents := [], [];
    for n := 0 to |sorted|
      invariant rollup.Holds(spawnedType, sorted[..n]) && bounds.Observed() == Window(sorted[..n])
      invariant spanIds == SpanIds(sorted[..n]) && parents == ParentIds(sorted[..n])
    {
      IdsStep(sorted, n);
      spanIds := spanIds + [sorted[n].spanId];
      parents := AppendDistinct(parents, sorted[n].parentAgentId);
      rollup.Accumulate(sorted[n], spawnedType, sorted[..n]);
      bounds.Add(sorted[n]);
    }
    assert sorted[..|sorted|] == sorted;
  }

  lemma {:induction false} IdsStep(sorted: seq<Span>, n: nat)
    requires n < |sorted|
    ensures sorted[..n + 1] == sorted[..n] + [sorted[n]]
    ensures SpanIds(sorted[..n + 1]) == SpanIds(sorted[..n]) + [sorted[n].spanId]
    ensures ParentIds(sorted[..n + 1]) == AppendDistinct(ParentIds(sorted[..n]), sorted[n].parentAgentId)
  {
    assert sorted[..n + 1][..n] == sorted[..n];
  }

  /** relationFromGroup: the group is sorted before the fold. */
  method RelationFromGroup(spans: seq<Span>, index: SpanIndex) returns (r: Relation)
    requires spans != [] && forall id :: id in index ==> Identity(index[id]) == id
    ensures RollsUp(SortBy(KeyLess, SpanOrder, spans), index, r)
  {
    r := RelationFromSorted(SortBy(KeyLess, SpanOrder, spans), index);
  }

  method RelationFromSorted(sorted: seq<Span>, index: SpanIndex) returns (r: Relation)
    requires sorted != [] && forall id :: id in index ==> Identity(index[id]) == id
    ensures RollsUp(sorted, index, r)
  {
    var spawn := SpawnOfGroup(sorted, index);
    var rollup := new Rollup(SpawnedType(spawn));
    var bounds := new BoundsTracker();
    var spanIds, parents := TakeSpans(sorted, rollup, bounds, SpawnedType(spawn));
    var wall := bounds.WallClock();
    r := Relation(
      sorted[0].traceId, sorted[0].agentId, sorted[0].sessionId, sorted[0].provider, sorted[0].tool,
      rollup.parentAgentId, rollup.subagentType, rollup.workflowRunId, rollup.workflowName,
      |sorted|, rollup.totals, wall, SpawnBlock(spawn), spanIds, if |parents| > 1 then parents else []);
  }

  // ---- the columns, one by one ------------------------------------------------

  /** What the request spans carry of a field, and what the tool spans carry. */
  function OfRequests(field: Span -> Option<int>): Span -> Option<int> {
    (s: Span) => if s.spanType.LlmRequest? then field(s) else None
  }

  function OfTools(field: Span -> Option<int>): Span -> Option<int> {
    (s: Span) => if s.spanType.ToolSpan? then field(s) else None
  }

  function OfType(kind: SpanType): Span -> Option<Span> {
    (s: Span) => if s.spanType == kind then Some(s) else None
  }

  function SumOf(values: seq<int>): int {
    if values == [] then 0 else SumOf(values[..|values| - 1]) + values[|values| - 1]
  }

  /** The sum of what there is; none of nothing. */
  predicate IsSum(total: Option<int>, values: seq<int>) {
    total == if values == [] then None else Some(SumOf(values))
  }

  lemma {:induction false} TotalIsSum(kind: SpanType, field: Span -> Option<int>, spans: seq<Span>)
    ensures IsSum(Total(kind, field, spans), FilterMap((s: Span) => if s.spanType == kind then field(s) else None, spans))
  {
    if spans != [] {
      var front, last := spans[..|spans| - 1], spans[|spans| - 1];
      var f := (s: Span) => if s.spanType == kind then field(s) else None;
      TotalIsSum(kind, field, front);
      if f(last).Some? {
        assert (FilterMap(f, front) + [f(last).value])[..|FilterMap(f, front)|] == FilterMap(f, front);
      }
    }
  }

  lemma {:induction false} CountIsLength(kind: SpanType, spans: seq<Span>)
    ensures Count(kind, spans) == |FilterMap(OfType(kind), spans)|
  {
    if spans != [] {
      CountIsLength(kind, spans[..|spans| - 1]);
    }
  }

  lemma {:induction false} SameReading<A, B>(f: A -> Option<B>, g: A -> Option<B>, xs: seq<A>)
    requires forall x :: f(x) == g(x)
    ensures FilterMap(f, xs) == FilterMap(g, xs)
  {
    if xs != [] {
      SameReading(f, g, xs[..|xs| - 1]);
    }
  }

  /** Each column sums its own field over the spans of its own type. */
  lemma {:induction false} ColumnsAreSums(spans: seq<Span>)
    ensures var t := TotalsOf(spans);
            && t.llmRequests == |FilterMap(OfType(LlmRequest), spans)| && t.toolCalls == |FilterMap(OfType(ToolSpan), spans)|
            && IsSum(t.input, FilterMap(OfRequests((s: Span) => s.inputTokens), spans))
            && IsSum(t.output, FilterMap(OfRequests((s: Span) => s.outputTokens), spans))
            && IsSum(t.cacheRead, FilterMap(OfRequests((s: Span) => s.cacheRead), spans))
            && IsSum(t.cacheCreation, FilterMap(OfRequests((s: Span) => s.cacheCreation), spans))
            && IsSum(t.llmDurationMs, FilterMap(OfRequests((s: Span) => s.durationMs), spans))
            && IsSum(t.toolDurationMs, FilterMap(OfTools((s: Span) => s.durationMs), spans))
  {
    CountIsLength(LlmRequest, spans);
    CountIsLength(ToolSpan, spans);
    RequestColumn(InputTokens, (s: Span) => s.inputTokens, spans);
    RequestColumn(OutputTokens, (s: Span) => s.outputTokens, spans);
    RequestColumn(CacheRead, (s: Span) => s.cacheRead, spans);
    RequestColumn(CacheCreation, (s: Span) => s.cacheCreation, spans);
    RequestColumn(DurationMs, (s: Span) => s.durationMs, spans);
    ToolColumn(DurationMs, (s: Span) => s.durationMs, spans);
  }

  lemma {:induction false} RequestColumn(field: Span -> Option<int>, named: Span -> Option<int>, spans: seq<Span>)
    requires forall s :: field(s) == named(s)
    ensures IsSum(Total(LlmRequest, field, spans), FilterMap(OfRequests(named), spans))
  {
    TotalIsSum(LlmRequest, field, spans);
    SameReading((s: Span) => if s.spanType == LlmRequest then field(s) else None, OfRequests(named), spans);
  }

  lemma {:induction false} ToolColumn(field: Span -> Option<int>, named: Span -> Option<int>, spans: seq<Span>)
    requires forall s :: field(s) == named(s)
    ensures IsSum(Total(ToolSpan, field, spans), FilterMap(OfTools(named), spans))
  {
    TotalIsSum(ToolSpan, field, spans);
    SameReading((s: Span) => if s.spanType == ToolSpan then field(s) else None, OfTools(named), spans);
  }
}

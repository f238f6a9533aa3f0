/** Pairing tool_use blocks with their tool_results
    (internal/normalize/claude/jsonl_toolcalls.go). */
module ToolCalls {
  import opened Prelude
  import opened Residual

  datatype Category = Mcp | OtherCategory(name: string)
  datatype Outcome = Unknown | Failed | Success

  /** The tool_use side of a call. */
  datatype Invocation = Invocation(
    toolUseId: string, sessionId: string, uuid: string, parentUuid: Option<string>, isSidechain: bool,
    occurredAt: int, version: string, category: Category, name: string, input: Raw)

  /** A reconstructed call. A nil body is JNull; `shared` is the "record" scope marker. */
  datatype Call = Call(
    use: Invocation, cwd: string, result: Raw, outcome: Outcome, resultMeta: Raw, shared: bool,
    resultPromptId: string, resultRecord: Option<Raw>)

  datatype Block =
    | ToolUse(id: string, name: string, input: Raw)
    | ToolResult(toolUseId: string, content: Raw, isError: Option<bool>)
    | OtherBlock

  /** A decoded line: `blocks` is None without a content array, `at` None when the
      timestamp does not parse, `hasText` whether the record carries prompt text. */
  datatype Line = Line(
    uuid: string, parentUuid: Option<string>, sessionId: string, at: Option<int>, version: string, cwd: string,
    isSidechain: bool, promptId: string, toolUseResult: Raw, blocks: Option<seq<Block>>,
    hasText: bool, residual: Option<Raw>)

  // ---- what one line does, block by block -------------------------------------

  datatype Step =
    | Use(id: string, call: Call)
    | Result(id: string, content: Raw, outcome: Outcome, cwd: string, promptId: string, record: Option<Raw>)
    | Attach(meta: Raw, ids: seq<string>)

  datatype State = State(order: seq<string>, calls: map<string, Call>)

  const NO_CALLS := State([], map[])

  /** The first of the ids that has a call. */
  function FirstKnown(ids: seq<string>, calls: map<string, Call>): (r: Option<string>)
    ensures r.Some? ==> r.value in calls
  {
    if ids == [] then None
    else
      var front := FirstKnown(ids[..|ids| - 1], calls);
      if front.Some? then front
      else if ids[|ids| - 1] in calls then Some(ids[|ids| - 1])
      else None
  }

  function WithResult(c: Call, step: Step): Call
    requires step.Result?
  {
    c.(result := step.content, outcome := step.outcome, cwd := if c.cwd == "" then step.cwd else c.cwd,
       resultPromptId := step.promptId, resultRecord := step.record)
  }

  function Apply(s: State, step: Step): State {
    match step
    case Use(id, call) => State(if id in s.calls then s.order else s.order + [id], s.calls[id := call])
    case Result(id, _, _, _, _, _) =>
      if id in s.calls then s.(calls := s.calls[id := WithResult(s.calls[id], step)]) else s
    case Attach(meta, ids) =>
      var first := FirstKnown(ids, s.calls);
      if meta.JNull? || first.None? then s
      else
        var c := s.calls[first.value];
        s.(calls := s.calls[first.value := c.(resultMeta := meta, shared := c.shared || |ids| > 1)])
  }

  function Run(s: State, steps: seq<Step>): State {
    if steps == [] then s else Apply(Run(s, steps[..|steps| - 1]), steps[|steps| - 1])
  }

  lemma {:induction false} RunConcat(s: State, a: seq<Step>, b: seq<Step>)
    ensures Run(s, a + b) == Run(Run(s, a), b)
  {
    if b == [] {
      assert a + b == a;
    } else {
      assert (a + b)[..|a + b| - 1] == a + b[..|b| - 1];
      RunConcat(s, a, b[..|b| - 1]);
    }
  }

  lemma {:induction false} RunSnoc(s: State, steps: seq<Step>, step: Step)
    ensures Run(s, steps + [step]) == Apply(Run(s, steps), step)
  {
    assert (steps + [step])[..|steps|] == steps;
  }

  function NativeSession(id: string): string {
    "claude:" + if TrimSpace(id) == "" then "unknown" else TrimSpace(id)
  }

  function TrimmedParent(parent: Option<string>): Option<string> {
    if parent.None? || TrimSpace(parent.value) == "" then None else Some(TrimSpace(parent.value))
  }

  function NewCall(line: Line, block: Block, categoryOf: string -> Category): Call
    requires block.ToolUse? && line.at.Some?
  {
    Call(
      Invocation(
        block.id, NativeSession(line.sessionId), TrimSpace(line.uuid), TrimmedParent(line.parentUuid), line.isSidechain,
        line.at.value, line.version, categoryOf(block.name), block.name, block.input),
      TrimSpace(line.cwd), JNull, Unknown, JNull, false, "", None)
  }

  function BlockOutcome(isError: Option<bool>): Outcome {
    if isError.None? then Unknown else if isError.value then Failed else Success
  }

  function UseStep(line: Line, block: Block, categoryOf: string -> Category): Option<Step>
    requires line.at.Some?
  {
    if block.ToolUse? && !Blank(block.id) then Some(Use(block.id, NewCall(line, block, categoryOf))) else None
  }

  /** The uses an assistant line records; none when it has no content array or no time. */
  function UseSteps(line: Line, categoryOf: string -> Category): seq<Step> {
    if line.blocks.None? || line.at.None? then []
    else FilterMap((b: Block) => UseStep(line, b, categoryOf), line.blocks.value)
  }

  function ResultStep(line: Line, block: Block): Option<Step> {
    if block.ToolResult? && !Blank(block.toolUseId) then
      Some(Result(
        block.toolUseId, block.content, BlockOutcome(block.isError), TrimSpace(line.cwd), TrimSpace(line.promptId),
        if line.hasText then None else line.residual))
    else None
  }

  function ResultId(block: Block): Option<string> {
    if block.ToolResult? && !Blank(block.toolUseId) then Some(block.toolUseId) else None
  }

  function Pairings(line: Line, blocks: seq<Block>): seq<Step> {
    FilterMap((b: Block) => ResultStep(line, b), blocks)
  }

  lemma {:induction false} PairingsStep(line: Line, blocks: seq<Block>, n: nat)
    requires n < |blocks|
    ensures Pairings(line, blocks[..n + 1])
            == Pairings(line, blocks[..n])
               + (if ResultStep(line, blocks[n]).Some? then [ResultStep(line, blocks[n]).value] else [])
    ensures FilterMap(ResultId, blocks[..n + 1])
            == FilterMap(ResultId, blocks[..n]) + (if ResultId(blocks[n]).Some? then [blocks[n].toolUseId] else [])
  {
    FilterMapStep((b: Block) => ResultStep(line, b), blocks, n);
    FilterMapStep(ResultId, blocks, n);
  }

  /** The results a user line records, then its record-scoped result. */
  function ResultSteps(line: Line): seq<Step> {
    if line.blocks.None? then []
    else
      Pairings(line, line.blocks.value)
      + [Attach(line.toolUseResult, FilterMap(ResultId, line.blocks.value))]
  }

  // ---- the collector ----------------------------------------------------------

  class ToolCallCollector {
    var order: seq<string>
    var calls: map<string, Call>

    constructor ()
      ensures Contents() == NO_CALLS
    {
      order, calls := [], map[];
    }

    function Contents(): State
      reads this
    {
      State(order, calls)
    }

    method CollectToolUses(line: Line, categoryOf: string -> Category)
      modifies this
      ensures Contents() == Run(old(Contents()), UseSteps(line, categoryOf))
    {
      if line.blocks.None? || line.at.None? { return; }
      var blocks := line.blocks.value;
      ghost var f := (b: Block) => UseStep(line, b, categoryOf);
      ghost var steps: seq<Step> := [];
      for n := 0 to |blocks|
        invariant steps == FilterMap(f, blocks[..n])
        invariant Contents() == Run(old(Contents()), steps)
      {
        var block := blocks[n];
        FilterMapStep(f, blocks, n);
        if !block.ToolUse? || Blank(block.id) { continue; }
        var call := NewCall(line, block, categoryOf);
        RunSnoc(old(Contents()), steps, Use(block.id, call));
        steps := steps + [Use(block.id, call)];
        if block.id !in calls {
          order := order + [block.id];
        }
        calls := calls[block.id := call];
      }
      assert blocks[..|blocks|] == blocks;
    }

    method CollectToolResults(line: Line)
      modifies this
      ensures Contents() == Run(old(Contents()), ResultSteps(line))
    {
      if line.blocks.None? { return; }
      var resultBlockCount, matched := PairResults(line, line.blocks.value);
      RunSnoc(old(Contents()), Pairings(line, line.blocks.value),
              Attach(line.toolUseResult, FilterMap(ResultId, line.blocks.value)));
      AttachRecordResult(line.toolUseResult, resultBlockCount, matched, FilterMap(ResultId, line.blocks.value));
    }

    /** The loop over the result blocks: how many there are, and which have a call. */
    method PairResults(line: Line, blocks: seq<Block>) returns (resultBlockCount: nat, matched: seq<string>)
      modifies this
      ensures Contents() == Run(old(Contents()), Pairings(line, blocks))
      ensures resultBlockCount == |FilterMap(ResultId, blocks)| && |matched| <= resultBlockCount
      ensures (if matched == [] then None else Some(matched[0])) == FirstKnown(FilterMap(ResultId, blocks), calls)
    {
      var recordCwd, promptId := TrimSpace(line.cwd), TrimSpace(line.promptId);
      var record := if line.hasText then None else line.residual;
      resultBlockCount, matched := 0, [];
      ghost var steps: seq<Step>, ids: seq<string> := [], [];
      for n := 0 to |blocks|
        invariant steps == Pairings(line, blocks[..n]) && ids == FilterMap(ResultId, blocks[..n])
        invariant Contents() == Run(old(Contents()), steps)
        invariant resultBlockCount == |ids| && |matched| <= resultBlockCount
        invariant (if matched == [] then None else Some(matched[0])) == FirstKnown(ids, calls)
      {
        PairingsStep(line, blocks, n);
        if !blocks[n].ToolResult? || Blank(blocks[n].toolUseId) { continue; }
        ghost var step := ResultStep(line, blocks[n]).value;
        RunSnoc(old(Contents()), steps, step);
        matched := PairResult(line, blocks[n], recordCwd, promptId, record, matched, ids);
        steps, ids := steps + [step], ids + [blocks[n].toolUseId];
        resultBlockCount := resultBlockCount + 1;
      }
      assert blocks[..|blocks|] == blocks;
    }

    /** One result block: its call is answered and remembered, if there is one. */
    method PairResult(
        line: Line, block: Block, recordCwd: string, promptId: string, record: Option<Raw>,
        matched: seq<string>, ghost ids: seq<string>)
      returns (matched': seq<string>)
      requires ResultStep(line, block).Some?
      requires recordCwd == TrimSpace(line.cwd) && promptId == TrimSpace(line.promptId)
      requires record == if line.hasText then None else line.residual
      requires (if matched == [] then None else Some(matched[0])) == FirstKnown(ids, calls)
      modifies this
      ensures Contents() == Apply(old(Contents()), ResultStep(line, block).value)
      ensures |matched'| <= |matched| + 1
      ensures (if matched' == [] then None else Some(matched'[0])) == FirstKnown(ids + [block.toolUseId], calls)
    {
      matched' := matched;
      FirstKnownSnoc(ids, block.toolUseId, calls);
      if block.toolUseId in calls {
        AnswerIsResult(calls[block.toolUseId], line, block, recordCwd, promptId, record);
        matched' := matched + [block.toolUseId];
      }
      Settle(block, recordCwd, promptId, record, ResultStep(line, block).value, ids + [block.toolUseId]);
    }

    /** Writes one result block on its call, if there is one. */
    method Settle(
        block: Block, recordCwd: string, promptId: string, record: Option<Raw>, ghost step: Step, ghost ids: seq<string>)
      requires block.ToolResult? && step.Result? && step.id == block.toolUseId
      requires block.toolUseId in calls ==>
                 WithResult(calls[block.toolUseId], step) == Answer(calls[block.toolUseId], block, recordCwd, promptId, record)
      modifies this
      ensures Contents() == Apply(old(Contents()), step)
      ensures FirstKnown(ids, calls) == FirstKnown(ids, old(calls))
    {
      if block.toolUseId in calls {
        calls := calls[block.toolUseId := Answer(calls[block.toolUseId], block, recordCwd, promptId, record)];
      }
      KnownByKeys(ids, old(calls), calls);
    }

    method AttachRecordResult(meta: Raw, resultBlockCount: nat, matched: seq<string>, ghost ids: seq<string>)
      requires resultBlockCount == |ids| && |matched| <= resultBlockCount
      requires (if matched == [] then None else Some(matched[0])) == FirstKnown(ids, calls)
      modifies this
      ensures Contents() == Apply(old(Contents()), Attach(meta, ids))
    {
      if matched == [] || meta.JNull? { return; }
      var call := calls[matched[0]].(resultMeta := meta);
      if resultBlockCount > 1 || |matched| > 1 {
        call := call.(shared := true);
      }
      calls := calls[matched[0] := call];
    }

    method Reconstructed() returns (result: seq<Call>)
      requires Whole(Contents())
      ensures result == CallsOf(Contents())
    {
      result := [];
      for n := 0 to |order|
        invariant |result| == n && forall i :: 0 <= i < n ==> result[i] == calls[order[i]]
      {
        result := result + [calls[order[n]]];
      }
    }
  }

  /** The fields a result writes on its call. */
  function Answer(call: Call, block: Block, recordCwd: string, promptId: string, record: Option<Raw>): Call
    requires block.ToolResult?
  {
    var answered := call.(result := block.content, outcome := BlockOutcome(block.isError));
    var placed := if answered.cwd == "" && recordCwd != "" then answered.(cwd := recordCwd) else answered;
    placed.(resultPromptId := promptId, resultRecord := record)
  }

  lemma {:induction false} AnswerIsResult(c: Call, line: Line, block: Block, recordCwd: string, promptId: string, record: Option<Raw>)
    requires ResultStep(line, block).Some?
    requires recordCwd == TrimSpace(line.cwd) && promptId == TrimSpace(line.promptId)
    requires record == if line.hasText then None else line.residual
    ensures WithResult(c, ResultStep(line, block).value) == Answer(c, block, recordCwd, promptId, record)
  {}

  lemma {:induction false} KnownByKeys(ids: seq<string>, a: map<string, Call>, b: map<string, Call>)
    requires a.Keys == b.Keys
    ensures FirstKnown(ids, a) == FirstKnown(ids, b)
  {
    if ids != [] {
      KnownByKeys(ids[..|ids| - 1], a, b);
      assert ids[|ids| - 1] in a <==> ids[|ids| - 1] in a.Keys;
    }
  }

  lemma {:induction false} FirstIsKnown(ids: seq<string>, calls: map<string, Call>)
    requires ids != [] && ids[0] in calls
    ensures FirstKnown(ids, calls) == Some(ids[0])
  {
    if |ids| > 1 {
      FirstIsKnown(ids[..|ids| - 1], calls);
    } else {
      assert ids[..0] == [];
    }
  }

  lemma {:induction false} FirstKnownSnoc(ids: seq<string>, id: string, calls: map<string, Call>)
    ensures FirstKnown(ids + [id], calls)
            == if FirstKnown(ids, calls).Some? then FirstKnown(ids, calls) else if id in calls then Some(id) else None
  {
    assert (ids + [id])[..|ids|] == ids;
  }

  /** The order lists exactly the ids with a call, each once. */
  ghost predicate Whole(s: State) {
    && NoRepeats(s.order)
    && (forall i :: 0 <= i < |s.order| ==> s.order[i] in s.calls)
    && forall id :: id in s.calls ==> id in s.order
  }

  ghost function CallsOf(s: State): seq<Call>
    requires Whole(s)
  {
    seq(|s.order|, i requires 0 <= i < |s.order| => s.calls[s.order[i]])
  }

  // ---- what any run leaves ----------------------------------------------------

  /** The ids used, each at its first use. */
  function FirstSeen(steps: seq<Step>): seq<string> {
    if steps == [] then []
    else
      var seen, last := FirstSeen(steps[..|steps| - 1]), steps[|steps| - 1];
      if last.Use? && last.id !in seen then seen + [last.id] else seen
  }

  /** One call per id, in first-seen order. */
  lemma {:induction false} OneCallPerId(steps: seq<Step>)
    ensures Whole(Run(NO_CALLS, steps))
    ensures Run(NO_CALLS, steps).order == FirstSeen(steps)
  {
    if steps != [] {
      var front, last := steps[..|steps| - 1], steps[|steps| - 1];
      OneCallPerId(front);
    }
  }

  ghost predicate LastUse(steps: seq<Step>, id: string, u: nat) {
    && u < |steps| && steps[u].Use? && steps[u].id == id
    && forall k :: u < k < |steps| ==> !(steps[k].Use? && steps[k].id == id)
  }

  ghost predicate LastResult(steps: seq<Step>, id: string, u: nat, r: nat) {
    && u < r < |steps| && steps[r].Result? && steps[r].id == id
    && forall k :: r < k < |steps| ==> !(steps[k].Result? && steps[k].id == id)
  }

  ghost predicate NoResultSince(steps: seq<Step>, id: string, u: nat) {
    forall k :: u < k < |steps| ==> !(steps[k].Result? && steps[k].id == id)
  }

  ghost predicate Answers(c: Call, step: Step)
    requires step.Result?
  {
    c.result == step.content && c.outcome == step.outcome
    && c.resultPromptId == step.promptId && c.resultRecord == step.record
  }

  ghost predicate Unanswered(c: Call) {
    c.result == JNull && c.outcome == Unknown && c.resultPromptId == "" && c.resultRecord == None
  }

  /** Uses as lines record them: under their own id, and not answered yet. */
  ghost predicate Fresh(steps: seq<Step>) {
    forall k :: 0 <= k < |steps| && steps[k].Use? ==>
      steps[k].call.use.toolUseId == steps[k].id && Unanswered(steps[k].call) && steps[k].call.resultMeta == JNull && !steps[k].call.shared
  }

  /** The invocation kept is the last use's; the answer is the last result's after it. */
  ghost predicate Paired(steps: seq<Step>, id: string, c: Call, u: nat) {
    && LastUse(steps, id, u) && c.use == steps[u].call.use
    && if NoResultSince(steps, id, u) then Unanswered(c)
       else exists r :: 0 <= r < |steps| && LastResult(steps, id, u, r) && Answers(c, steps[r])
  }

  lemma {:induction false} LastResultIsKept(steps: seq<Step>, id: string)
    requires Fresh(steps)
    ensures id in Run(NO_CALLS, steps).calls <==> exists u :: 0 <= u < |steps| && steps[u].Use? && steps[u].id == id
    ensures id in Run(NO_CALLS, steps).calls ==> exists u: nat :: Paired(steps, id, Run(NO_CALLS, steps).calls[id], u)
  {
    if steps != [] {
      var n := |steps| - 1;
      var front, last := steps[..n], steps[n];
      LastResultIsKept(front, id);
      var before := Run(NO_CALLS, front);
      if last.Use? && last.id == id {
        assert Paired(steps, id, Run(NO_CALLS, steps).calls[id], n);
      } else if id in before.calls {
        var u: nat :| Paired(front, id, before.calls[id], u);
        PairedGrows(steps, id, before.calls[id], Run(NO_CALLS, steps).calls[id], u);
      }
    }
  }

  lemma {:induction false} PairedGrows(steps: seq<Step>, id: string, before: Call, after: Call, u: nat)
    requires steps != [] && Paired(steps[..|steps| - 1], id, before, u)
    requires var last := steps[|steps| - 1];
             && !(last.Use? && last.id == id)
             && after == if last.Result? && last.id == id then WithResult(before, last)
                         else before.(resultMeta := after.resultMeta, shared := after.shared)
    ensures Paired(steps, id, after, u)
  {
    var n := |steps| - 1;
    var front, last := steps[..n], steps[n];
    if last.Result? && last.id == id {
      assert LastResult(steps, id, u, n) && Answers(after, steps[n]);
      assert !NoResultSince(steps, id, u);
    } else if NoResultSince(front, id, u) {
      assert NoResultSince(steps, id, u);
    } else {
      var r :| 0 <= r < |front| && LastResult(front, id, u, r) && Answers(before, front[r]);
      assert LastResult(steps, id, u, r) && Answers(after, steps[r]);
      assert !NoResultSince(steps, id, u);
    }
  }

  // ---- record-scoped results --------------------------------------------------

  /** Step `k` attaches its record's result to the call `id`. */
  ghost predicate AttachedTo(steps: seq<Step>, k: nat, id: string) {
    && k < |steps| && steps[k].Attach? && !steps[k].meta.JNull?
    && FirstKnown(steps[k].ids, Run(NO_CALLS, steps[..k]).calls) == Some(id)
  }

  ghost predicate LastAttach(steps: seq<Step>, id: string, u: nat, a: nat) {
    u < a && AttachedTo(steps, a, id) && forall k :: a < k < |steps| ==> !AttachedTo(steps, k, id)
  }

  ghost predicate SharedSince(steps: seq<Step>, id: string, u: nat) {
    exists k :: u < k < |steps| && AttachedTo(steps, k, id) && |steps[k].ids| > 1
  }

  ghost predicate NoAttachSince(steps: seq<Step>, id: string, u: nat) {
    forall k :: u < k < |steps| ==> !AttachedTo(steps, k, id)
  }

  /** The record-scoped result kept is the last one attached since the last use, but the
      marker tells of any of them. */
  ghost predicate Scoped(steps: seq<Step>, id: string, c: Call, u: nat) {
    && LastUse(steps, id, u)
    && (c.shared <==> SharedSince(steps, id, u))
    && if NoAttachSince(steps, id, u) then c.resultMeta == JNull
       else exists a: nat :: LastAttach(steps, id, u, a) && c.resultMeta == steps[a].meta
  }

  lemma {:induction false} AttachesBefore(steps: seq<Step>, id: string, k: nat)
    requires steps != [] && k < |steps| - 1
    ensures AttachedTo(steps, k, id) <==> AttachedTo(steps[..|steps| - 1], k, id)
  {
    assert steps[..|steps| - 1][..k] == steps[..k];
  }

  lemma {:induction false} LastAttachIsKept(steps: seq<Step>, id: string)
    requires Fresh(steps) && id in Run(NO_CALLS, steps).calls
    ensures exists u: nat :: Scoped(steps, id, Run(NO_CALLS, steps).calls[id], u)
  {
    var n := |steps| - 1;
    var front, last := steps[..n], steps[n];
    var before, c := Run(NO_CALLS, front), Run(NO_CALLS, steps).calls[id];
    if last.Use? && last.id == id {
      assert Scoped(steps, id, c, n);
    } else {
      LastAttachIsKept(front, id);
      var u: nat :| Scoped(front, id, before.calls[id], u);
      ScopedGrows(steps, id, before.calls[id], c, u);
    }
  }

  lemma {:induction false} ScopedGrows(steps: seq<Step>, id: string, before: Call, after: Call, u: nat)
    requires steps != [] && Scoped(steps[..|steps| - 1], id, before, u)
    requires !(steps[|steps| - 1].Use? && steps[|steps| - 1].id == id)
    requires if AttachedTo(steps, |steps| - 1, id)
             then after.resultMeta == steps[|steps| - 1].meta
                  && (after.shared <==> before.shared || |steps[|steps| - 1].ids| > 1)
             else after.resultMeta == before.resultMeta && after.shared == before.shared
    ensures Scoped(steps, id, after, u)
  {
    LastUseStays(steps, id, u);
    SharedGrows(steps, id, u);
    NoAttachGrows(steps, id, u);
    if AttachedTo(steps, |steps| - 1, id) {
      assert LastAttach(steps, id, u, |steps| - 1);
    } else if !NoAttachSince(steps[..|steps| - 1], id, u) {
      var a: nat :| LastAttach(steps[..|steps| - 1], id, u, a) && before.resultMeta == steps[..|steps| - 1][a].meta;
      LastAttachStays(steps, id, u, a);
    }
  }

  lemma {:induction false} LastUseStays(steps: seq<Step>, id: string, u: nat)
    requires steps != [] && LastUse(steps[..|steps| - 1], id, u)
    requires !(steps[|steps| - 1].Use? && steps[|steps| - 1].id == id)
    ensures LastUse(steps, id, u)
  {
    var front := steps[..|steps| - 1];
    forall k | u < k < |steps| ensures !(steps[k].Use? && steps[k].id == id) {
      assert k < |front| ==> steps[k] == front[k];
    }
  }

  lemma {:induction false} LastAttachStays(steps: seq<Step>, id: string, u: nat, a: nat)
    requires steps != [] && LastAttach(steps[..|steps| - 1], id, u, a) && !AttachedTo(steps, |steps| - 1, id)
    ensures LastAttach(steps, id, u, a) && steps[a] == steps[..|steps| - 1][a]
  {
    AttachesBefore(steps, id, a);
    forall k | a < k < |steps| ensures !AttachedTo(steps, k, id) {
      if k < |steps| - 1 {
        AttachesBefore(steps, id, k);
      }
    }
  }

  lemma {:induction false} NoAttachGrows(steps: seq<Step>, id: string, u: nat)
    requires steps != [] && u < |steps| - 1
    ensures NoAttachSince(steps, id, u)
            <==> NoAttachSince(steps[..|steps| - 1], id, u) && !AttachedTo(steps, |steps| - 1, id)
  {
    var n := |steps| - 1;
    var front := steps[..n];
    forall k: nat | k < n ensures AttachedTo(steps, k, id) <==> AttachedTo(front, k, id) {
      AttachesBefore(steps, id, k);
    }
  }

  lemma {:induction false} SharedGrows(steps: seq<Step>, id: string, u: nat)
    requires steps != [] && u < |steps| - 1
    ensures SharedSince(steps, id, u)
            <==> SharedSince(steps[..|steps| - 1], id, u)
                 || (AttachedTo(steps, |steps| - 1, id) && |steps[|steps| - 1].ids| > 1)
  {
    var front := steps[..|steps| - 1];
    forall k: nat | k < |front| ensures AttachedTo(steps, k, id) <==> AttachedTo(front, k, id) {
      AttachesBefore(steps, id, k);
    }
    if SharedSince(front, id, u) {
      var k :| u < k < |front| && AttachedTo(front, k, id) && |front[k].ids| > 1;
      assert AttachedTo(steps, k, id) && |steps[k].ids| > 1;
    }
  }

  /** The marker describes the result it stands beside exactly when that result was
      shared, or no shared one came since the call's last use. */
  lemma {:induction false} ScopeIsRightUnlessSharedBefore(steps: seq<Step>, id: string, u: nat, a: nat)
    requires Fresh(steps) && id in Run(NO_CALLS, steps).calls
    requires LastUse(steps, id, u) && LastAttach(steps, id, u, a)
    ensures Run(NO_CALLS, steps).calls[id].resultMeta == steps[a].meta
    ensures (Run(NO_CALLS, steps).calls[id].shared <==> |steps[a].ids| > 1)
            <==> |steps[a].ids| > 1 || !SharedSince(steps, id, u)
  {
    LastAttachIsKept(steps, id);
    var c := Run(NO_CALLS, steps).calls[id];
    var u': nat :| Scoped(steps, id, c, u');
    assert u' == u;
    var a': nat :| LastAttach(steps, id, u, a') && c.resultMeta == steps[a'].meta;
    assert a' == a;
  }

  lemma {:induction false} AttachToFirst(s: State, meta: Raw, ids: seq<string>)
    requires ids != [] && ids[0] in s.calls && !meta.JNull?
    ensures var c := Apply(s, Attach(meta, ids)).calls;
            ids[0] in c && c[ids[0]].resultMeta == meta && c[ids[0]].shared == (s.calls[ids[0]].shared || |ids| > 1)
  {
    FirstIsKnown(ids, s.calls);
  }
}

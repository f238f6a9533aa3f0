/** What a transcript says of each call, read off its decoded lines
    (internal/normalize/claude/jsonl_toolcalls.go). */
module TranscriptCalls {
  import opened Prelude
  import opened Ordering
  import opened Residual
  import opened ToolCalls
  import opened Transcript

  /** A block of the transcript and the line it stands on. */
  datatype Place = Place(line: Line, block: Block)

  predicate UsesKey(b: Block, key: string) { b.ToolUse? && b.id == key }

  predicate AnswersKey(b: Block, key: string) { b.ToolResult? && b.toolUseId == key }

  /** The last of the blocks that uses the id. */
  function LastUseIn(blocks: seq<Block>, key: string): (r: Option<Block>)
    ensures r.Some? ==> UsesKey(r.value, key)
  {
    if blocks == [] then None
    else if UsesKey(blocks[|blocks| - 1], key) then Some(blocks[|blocks| - 1])
    else LastUseIn(blocks[..|blocks| - 1], key)
  }

  function LastAnswerIn(blocks: seq<Block>, key: string): (r: Option<Block>)
    ensures r.Some? ==> AnswersKey(r.value, key)
  {
    if blocks == [] then None
    else if AnswersKey(blocks[|blocks| - 1], key) then Some(blocks[|blocks| - 1])
    else LastAnswerIn(blocks[..|blocks| - 1], key)
  }

  function UseOn(d: Decoded, key: string): (r: Option<Place>)
    ensures r.Some? ==> UsesKey(r.value.block, key)
  {
    if !d.Assistant? || d.line.at.None? || d.line.blocks.None? || Blank(key) then None
    else
      match LastUseIn(d.line.blocks.value, key)
      case Some(b) => Some(Place(d.line, b))
      case None => None
  }

  function AnswerOn(d: Decoded, key: string): Option<Place> {
    if !d.User? || d.line.blocks.None? || Blank(key) then None
    else
      match LastAnswerIn(d.line.blocks.value, key)
      case Some(b) => Some(Place(d.line, b))
      case None => None
  }

  /** The last tool_use block with this id. */
  function LastUse(decoded: seq<Decoded>, key: string): (r: Option<Place>)
    ensures r.Some? ==> UsesKey(r.value.block, key)
  {
    if decoded == [] then None
    else
      var here := UseOn(decoded[|decoded| - 1], key);
      if here.Some? then here else LastUse(decoded[..|decoded| - 1], key)
  }

  /** The last tool_result block for this id on a line after its last use. */
  function LastAnswer(decoded: seq<Decoded>, key: string): Option<Place> {
    if decoded == [] || UseOn(decoded[|decoded| - 1], key).Some? then None
    else
      var here := AnswerOn(decoded[|decoded| - 1], key);
      if here.Some? then here else LastAnswer(decoded[..|decoded| - 1], key)
  }

  /** The directory of the last use's line, or else of the first answer after it that has one. */
  function DirectoryOf(decoded: seq<Decoded>, key: string): string {
    if decoded == [] then ""
    else
      var last := decoded[|decoded| - 1];
      var before := DirectoryOf(decoded[..|decoded| - 1], key);
      if UseOn(last, key).Some? then TrimSpace(last.line.cwd)
      else if before == "" && AnswerOn(last, key).Some? then TrimSpace(last.line.cwd)
      else before
  }

  // ---- what the lines say -----------------------------------------------------

  /** "claude:" and the trimmed session id. */
  function SessionText(line: Line): string {
    "claude:" + if Blank(line.sessionId) then "unknown" else TrimSpace(line.sessionId)
  }

  /** The invocation is that of the block and its line. */
  ghost predicate Invokes(use: Invocation, at: Place, categoryOf: string -> Category) {
    && at.block.ToolUse? && Some(use.occurredAt) == at.line.at
    && use.toolUseId == at.block.id && use.name == at.block.name && use.input == at.block.input
    && use.category == categoryOf(at.block.name)
    && use.sessionId == SessionText(at.line)
    && use.uuid == TrimSpace(at.line.uuid)
    && (use.parentUuid.None? <==> at.line.parentUuid.None? || Blank(at.line.parentUuid.value))
    && (use.parentUuid.Some? ==> use.parentUuid.value == TrimSpace(at.line.parentUuid.value))
    && use.isSidechain == at.line.isSidechain && use.version == at.line.version
  }

  /** The answer is that of the block: failed if it says so, a success if it denies it, and
      unknown if it is silent. A line without prompt text lends its raw record. */
  ghost predicate AnsweredBy(c: Call, at: Place) {
    && at.block.ToolResult? && c.result == at.block.content
    && (c.outcome == Failed <==> at.block.isError == Some(true))
    && (c.outcome == Success <==> at.block.isError == Some(false))
    && (c.outcome == Unknown <==> at.block.isError == None)
    && c.resultPromptId == TrimSpace(at.line.promptId)
    && (at.line.hasText ==> c.resultRecord == None)
    && (!at.line.hasText ==> c.resultRecord == at.line.residual)
  }

  ghost predicate NotAnswered(c: Call) {
    c.result == JNull && c.outcome == Unknown && c.resultPromptId == "" && c.resultRecord == None
  }

  ghost predicate Tells(decoded: seq<Decoded>, categoryOf: string -> Category, key: string, c: Call) {
    && LastUse(decoded, key).Some? && Invokes(c.use, LastUse(decoded, key).value, categoryOf)
    && c.cwd == DirectoryOf(decoded, key)
    && match LastAnswer(decoded, key)
       case Some(at) => AnsweredBy(c, at)
       case None => NotAnswered(c)
  }

  // ---- one line at a time -----------------------------------------------------

  /** The call under `key`, but for the record-scoped result. */
  function CallUnder(s: State, key: string): Option<Call> {
    if key in s.calls then Some(s.calls[key].(resultMeta := JNull, shared := false)) else None
  }

  lemma {:induction false} StepChangesCall(s: State, step: Step, key: string)
    requires step.Use? ==> step.call.resultMeta == JNull && !step.call.shared
    ensures CallUnder(Apply(s, step), key)
            == if step.Use? && step.id == key then Some(step.call)
               else if step.Result? && step.id == key && CallUnder(s, key).Some?
               then Some(WithResult(CallUnder(s, key).value, step))
               else CallUnder(s, key)
  {}

  lemma {:induction false} UsesChangeCall(
      s: State, line: Line, blocks: seq<Block>, categoryOf: string -> Category, key: string)
    requires line.at.Some? && !Blank(key)
    ensures CallUnder(Run(s, FilterMap((b: Block) => UseStep(line, b, categoryOf), blocks)), key)
            == match LastUseIn(blocks, key)
               case Some(b) => Some(NewCall(line, b, categoryOf))
               case None => CallUnder(s, key)
  {
    if blocks != [] {
      var n := |blocks| - 1;
      var f := (b: Block) => UseStep(line, b, categoryOf);
      UsesChangeCall(s, line, blocks[..n], categoryOf, key);
      UseChangesCall(s, FilterMap(f, blocks[..n]), line, blocks[n], categoryOf, key);
      FilterMapStep(f, blocks, n);
      assert blocks[..n + 1] == blocks;
    }
  }

  lemma {:induction false} UseChangesCall(
      s: State, steps: seq<Step>, line: Line, b: Block, categoryOf: string -> Category, key: string)
    requires line.at.Some? && !Blank(key)
    ensures var step := UseStep(line, b, categoryOf);
            CallUnder(Run(s, steps + if step.Some? then [step.value] else []), key)
            == if UsesKey(b, key) then Some(NewCall(line, b, categoryOf)) else CallUnder(Run(s, steps), key)
  {
    var step := UseStep(line, b, categoryOf);
    if step.Some? {
      RunSnoc(s, steps, step.value);
      StepChangesCall(Run(s, steps), step.value, key);
    } else {
      assert steps + [] == steps;
    }
  }

  /** The call as the last of these blocks that answers it leaves it. */
  function Replied(c: Option<Call>, line: Line, answer: Option<Block>): Option<Call>
    requires answer.Some? ==> ResultStep(line, answer.value).Some?
  {
    if c.None? || answer.None? then c else Some(WithResult(c.value, ResultStep(line, answer.value).value))
  }

  lemma {:induction false} ResultsChangeCall(s: State, line: Line, blocks: seq<Block>, key: string)
    requires !Blank(key)
    ensures CallUnder(Run(s, Pairings(line, blocks)), key) == Replied(CallUnder(s, key), line, LastAnswerIn(blocks, key))
  {
    if blocks != [] {
      var n := |blocks| - 1;
      var f := (b: Block) => ResultStep(line, b);
      ResultsChangeCall(s, line, blocks[..n], key);
      ResultChangesCall(s, Pairings(line, blocks[..n]), line, blocks[n], key);
      FilterMapStep(f, blocks, n);
      assert blocks[..n + 1] == blocks;
    }
  }

  lemma {:induction false} ResultChangesCall(s: State, steps: seq<Step>, line: Line, b: Block, key: string)
    requires !Blank(key)
    ensures var step := ResultStep(line, b);
            CallUnder(Run(s, steps + if step.Some? then [step.value] else []), key)
            == if AnswersKey(b, key) then Replied(CallUnder(Run(s, steps), key), line, Some(b))
               else CallUnder(Run(s, steps), key)
  {
    var step := ResultStep(line, b);
    if step.Some? {
      RunSnoc(s, steps, step.value);
      StepChangesCall(Run(s, steps), step.value, key);
    } else {
      assert steps + [] == steps;
    }
  }

  lemma {:induction false} LineChangesCall(s: State, d: Decoded, categoryOf: string -> Category, key: string)
    requires !Blank(key)
    ensures UseOn(d, key).Some? ==>
              && d.Assistant? && d.line.at.Some? && UseOn(d, key).value.line == d.line
              && UsesKey(UseOn(d, key).value.block, key)
              && CallUnder(Run(s, StepsOf(d, categoryOf)), key) == Some(NewCall(d.line, UseOn(d, key).value.block, categoryOf))
    ensures AnswerOn(d, key).Some? ==>
              && UseOn(d, key).None? && AnswerOn(d, key).value.line == d.line
              && ResultStep(d.line, AnswerOn(d, key).value.block).Some?
              && CallUnder(Run(s, StepsOf(d, categoryOf)), key)
                 == Replied(CallUnder(s, key), d.line, Some(AnswerOn(d, key).value.block))
    ensures UseOn(d, key).None? && AnswerOn(d, key).None? ==>
              CallUnder(Run(s, StepsOf(d, categoryOf)), key) == CallUnder(s, key)
  {
    if d.Assistant? && d.line.at.Some? && d.line.blocks.Some? {
      UsesChangeCall(s, d.line, d.line.blocks.value, categoryOf, key);
    } else if d.User? && d.line.blocks.Some? {
      var blocks := d.line.blocks.value;
      var attach := Attach(d.line.toolUseResult, FilterMap(ResultId, blocks));
      ResultsChangeCall(s, d.line, blocks, key);
      RunSnoc(s, Pairings(d.line, blocks), attach);
      StepChangesCall(Run(s, Pairings(d.line, blocks)), attach, key);
    }
  }

  lemma {:induction false} NewCallInvokes(line: Line, block: Block, categoryOf: string -> Category)
    requires block.ToolUse? && line.at.Some?
    ensures Invokes(NewCall(line, block, categoryOf).use, Place(line, block), categoryOf)
    ensures NewCall(line, block, categoryOf).cwd == TrimSpace(line.cwd) && NotAnswered(NewCall(line, block, categoryOf))
  {
    BlankTrimsToNothing(line.sessionId);
    if line.parentUuid.Some? {
      BlankTrimsToNothing(line.parentUuid.value);
    }
  }

  lemma {:induction false} ReplyAnswers(c: Call, line: Line, block: Block)
    requires ResultStep(line, block).Some?
    ensures var after := WithResult(c, ResultStep(line, block).value);
            && AnsweredBy(after, Place(line, block)) && after.use == c.use
            && after.cwd == if c.cwd == "" then TrimSpace(line.cwd) else c.cwd
  {}

  /** The calls collected are exactly the ids the lines use, each with the invocation of its
      last use, the answer of the last result after it, and the directory of the two. */
  lemma {:induction false} CallsAreTold(decoded: seq<Decoded>, categoryOf: string -> Category, key: string)
    ensures key in CallsAfter(decoded, categoryOf).calls <==> LastUse(decoded, key).Some?
    ensures key in CallsAfter(decoded, categoryOf).calls ==>
              Tells(decoded, categoryOf, key, CallsAfter(decoded, categoryOf).calls[key])
  {
    if Blank(key) {
      BlankIsNoCall(decoded, categoryOf, key);
    } else if decoded != [] {
      var front, last := decoded[..|decoded| - 1], decoded[|decoded| - 1];
      var before := CallsAfter(front, categoryOf);
      CallsAreTold(front, categoryOf, key);
      RunConcat(NO_CALLS, AllSteps(front, categoryOf), StepsOf(last, categoryOf));
      LineChangesCall(before, last, categoryOf, key);
      if UseOn(last, key).Some? {
        NewCallInvokes(last.line, UseOn(last, key).value.block, categoryOf);
      } else if AnswerOn(last, key).Some? && key in before.calls {
        ReplyAnswers(CallUnder(before, key).value, last.line, AnswerOn(last, key).value.block);
      }
    }
  }

  lemma {:induction false} BlankIsNoCall(decoded: seq<Decoded>, categoryOf: string -> Category, key: string)
    requires Blank(key)
    ensures key !in CallsAfter(decoded, categoryOf).calls && LastUse(decoded, key).None?
  {
    if decoded != [] {
      var front, last := decoded[..|decoded| - 1], decoded[|decoded| - 1];
      BlankIsNoCall(front, categoryOf, key);
      RunConcat(NO_CALLS, AllSteps(front, categoryOf), StepsOf(last, categoryOf));
      forall step | step in StepsOf(last, categoryOf) ensures step.Use? ==> step.id != key {
        if last.Assistant? {
          FilterMapMember((b: Block) => UseStep(last.line, b, categoryOf), last.line.blocks.value, step);
        } else {
          FilterMapMember((b: Block) => ResultStep(last.line, b), last.line.blocks.value, step);
        }
      }
      OtherUsesOnly(CallsAfter(front, categoryOf), StepsOf(last, categoryOf), key);
    }
  }

  lemma {:induction false} OtherUsesOnly(s: State, steps: seq<Step>, key: string)
    requires key !in s.calls && forall step :: step in steps && step.Use? ==> step.id != key
    ensures key !in Run(s, steps).calls
  {
    if steps != [] {
      OtherUsesOnly(s, steps[..|steps| - 1], key);
    }
  }

  // ---- what is returned -------------------------------------------------------

  /** The event of a call: where its id, type and time come from. */
  ghost predicate CallEventOf(decoded: seq<Decoded>, categoryOf: string -> Category, key: string, e: Event) {
    && LastUse(decoded, key).Some? && e.call.Some? && Tells(decoded, categoryOf, key, e.call.value)
    && var at := LastUse(decoded, key).value;
    && Some(e.occurredAt) == at.line.at
    && (categoryOf(at.block.name) == Mcp ==>
          e.eventType == "mcp_call" && e.id == SessionText(at.line) + ":mcp:" + key)
    && (categoryOf(at.block.name) != Mcp ==>
          e.eventType == "tool_call" && e.id == SessionText(at.line) + ":toolcall:" + key)
  }

  /** The event of a record: an assistant record, or a user record with prompt text. */
  ghost predicate RecordEventOf(d: Decoded, e: Event) {
    && e.call.None? && (d.Assistant? || (d.User? && d.line.hasText))
    && d.typed && !Blank(d.line.uuid) && !Blank(d.line.sessionId) && Some(e.occurredAt) == d.line.at
    && e.id == SessionText(d.line) + ":" + TrimSpace(d.line.uuid)
    && e.eventType == if d.Assistant? then "assistant_message" else "user_message"
  }

  lemma {:induction false} EventsAreTold(
      decoded: seq<Decoded>, receivedAt: int, categoryOf: string -> Category, r: Emitted<Event>, e: Event)
    requires Normalizes(decoded, receivedAt, categoryOf, r) && r.Emitted? && e in r.items
    ensures e.receivedAt == receivedAt
    ensures (exists key :: CallEventOf(decoded, categoryOf, key, e)) || exists d :: d in decoded && RecordEventOf(d, e)
  {
    var s := CallsAfter(decoded, categoryOf);
    if e in OwnEvents(decoded, receivedAt) {
      var d := RecordOf(decoded, receivedAt, e);
    } else {
      var k :| 0 <= k < |s.order| && CallEvents(CallsOf(s), receivedAt)[k] == e;
      var key := s.order[k];
      CallsAreTold(decoded, categoryOf, key);
      CallEventTold(decoded, categoryOf, key, s.calls[key], receivedAt);
    }
  }

  lemma {:induction false} CallEventTold(
      decoded: seq<Decoded>, categoryOf: string -> Category, key: string, c: Call, receivedAt: int)
    requires LastUse(decoded, key).Some? && Tells(decoded, categoryOf, key, c)
    ensures CallEventOf(decoded, categoryOf, key, CallEvent(c, receivedAt))
    ensures OperationOf(decoded, categoryOf, key, CallOperation(c))
  {}

  lemma {:induction false} RecordOf(decoded: seq<Decoded>, receivedAt: int, e: Event) returns (d: Decoded)
    requires e in OwnEvents(decoded, receivedAt)
    ensures d in decoded && RecordEventOf(d, e) && e.receivedAt == receivedAt
  {
    var n := |decoded| - 1;
    if e in OwnEvents(decoded[..n], receivedAt) {
      d := RecordOf(decoded[..n], receivedAt, e);
    } else {
      d := decoded[n];
      BlankTrimsToNothing(d.line.uuid);
      BlankTrimsToNothing(d.line.sessionId);
    }
  }

  /** An operation is that of a call, under its session and id. */
  lemma {:induction false} OperationsAreTold(
      decoded: seq<Decoded>, categoryOf: string -> Category, r: Emitted<Operation>, o: Operation)
    requires Extracts(decoded, categoryOf, r) && r.Emitted? && o in r.items
    ensures exists key :: OperationOf(decoded, categoryOf, key, o)
  {
    var s := CallsAfter(decoded, categoryOf);
    var k :| 0 <= k < |s.order| && CallOperations(CallsOf(s))[k] == o;
    var key := s.order[k];
    CallsAreTold(decoded, categoryOf, key);
    CallEventTold(decoded, categoryOf, key, s.calls[key], 0);
  }

  ghost predicate OperationOf(decoded: seq<Decoded>, categoryOf: string -> Category, key: string, o: Operation) {
    && LastUse(decoded, key).Some? && Tells(decoded, categoryOf, key, o.call)
    && var session := SessionText(LastUse(decoded, key).value.line);
    o.sessionId == session && o.id == session + ":tool:" + key
  }

  // ---- when a transcript is refused, and in what order it is returned ----------

  /** A line that is not JSON, or an assistant record of the wrong shape or without a uuid,
      a session or a time. */
  ghost predicate Malformed(d: Decoded) {
    || d == NotJson
    || (d.Assistant? && (!d.typed || Blank(d.line.uuid) || Blank(d.line.sessionId) || d.line.at == None))
  }

  lemma {:induction false} MalformedLinesAbort(d: Decoded)
    ensures Aborts(d) <==> Malformed(d)
  {
    if d.Assistant? {
      BlankTrimsToNothing(d.line.uuid);
      BlankTrimsToNothing(d.line.sessionId);
    }
  }

  /** Events come by time and id; and of the events listed under one id the returned one is
      no later, and between equal times of no greater type, or receipt. */
  lemma {:induction false} EventsAreOrdered(
      decoded: seq<Decoded>, receivedAt: int, categoryOf: string -> Category, r: Emitted<Event>)
    requires Normalizes(decoded, receivedAt, categoryOf, r) && r.Emitted?
    ensures forall i, j :: 0 <= i < j < |r.items| ==>
              r.items[i].occurredAt < r.items[j].occurredAt
              || (r.items[i].occurredAt == r.items[j].occurredAt && StrLess(r.items[i].id, r.items[j].id))
    ensures forall x :: x in Listed(decoded, receivedAt, categoryOf) ==> exists y :: y in r.items && NoLater(y, x)
  {
    StrLessStrictTotal();
    var listed := Listed(decoded, receivedAt, categoryOf);
    forall i, j | 0 <= i < j < |r.items|
      ensures r.items[i].occurredAt < r.items[j].occurredAt
              || (r.items[i].occurredAt == r.items[j].occurredAt && StrLess(r.items[i].id, r.items[j].id))
    {
      var a, b := r.items[i], r.items[j];
      assert !EventLess(KeyOfEvent(b), KeyOfEvent(a)) && IdOfEvent(a) != IdOfEvent(b);
      StrLessTotal(a.id, b.id);
    }
    forall x | x in listed ensures exists y :: y in r.items && NoLater(y, x) {
      assert Represented(EventLess, KeyOfEvent, IdOfEvent, r.items, x);
      var k :| 0 <= k < |r.items| && IdOfEvent(r.items[k]) == IdOfEvent(x) && !EventLess(KeyOfEvent(x), KeyOfEvent(r.items[k]));
      StrLessTotal(r.items[k].eventType, x.eventType);
      assert r.items[k] in r.items && NoLater(r.items[k], x);
    }
  }

  predicate NoLater(y: Event, x: Event) {
    && y.id == x.id
    && (y.occurredAt < x.occurredAt
        || (y.occurredAt == x.occurredAt
            && (StrLess(y.eventType, x.eventType) || (y.eventType == x.eventType && y.receivedAt <= x.receivedAt))))
  }

  /** Operations come by id, and by session between equal ids. */
  lemma {:induction false} OperationsAreOrdered(
      decoded: seq<Decoded>, categoryOf: string -> Category, r: Emitted<Operation>, i: nat, j: nat)
    requires Extracts(decoded, categoryOf, r) && r.Emitted? && i < j < |r.items|
    ensures StrLess(r.items[i].id, r.items[j].id)
            || (r.items[i].id == r.items[j].id && StrLess(r.items[i].sessionId, r.items[j].sessionId))
  {
    var a, b := r.items[i], r.items[j];
    assert !OperationLess(KeyOfOperation(b), KeyOfOperation(a)) && KeyOfOperation(a) != KeyOfOperation(b);
    StrLessTotal(a.id, b.id);
    StrLessTotal(a.sessionId, b.sessionId);
  }
}

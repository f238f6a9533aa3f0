/** Walking a session transcript and emitting its events
    (walkTranscript and NormalizeTranscript, internal/normalize/claude/jsonl.go;
    CorrelateEvents and CorrelateOperations, internal/normalize/normalize.go). */
module Transcript {
  import opened Prelude
  import opened Ordering
  import opened ToolCalls

  /** An emitted event: its identity, and the call it reports if it reports one. */
  datatype Event = Event(occurredAt: int, id: string, eventType: string, receivedAt: int, call: Option<Call>)

  datatype Operation = Operation(id: string, sessionId: string, call: Call)

  /** A line by its record type. `typed` says whether its fields have the record's types. */
  datatype Decoded =
    | NotJson
    | Assistant(line: Line, typed: bool)
    | User(line: Line, typed: bool)
    | Auxiliary

  const ASSISTANT_MESSAGE := "assistant_message"
  const USER_MESSAGE := "user_message"
  const MCP_CALL := "mcp_call"
  const TOOL_CALL := "tool_call"

  // ---- lines ------------------------------------------------------------------

  function LineEnd(data: string): nat
    ensures LineEnd(data) <= |data|
  {
    if data == "" || data[0] == '\n' then 0 else 1 + LineEnd(data[1..])
  }

  function AfterLine(data: string): string {
    if LineEnd(data) < |data| then data[LineEnd(data) + 1..] else ""
  }

  /** nextTranscriptLine */
  method NextTranscriptLine(remaining: string) returns (line: string, rest: string)
    ensures line == remaining[..LineEnd(remaining)] && rest == AfterLine(remaining)
  {
    var i := 0;
    while i < |remaining| && remaining[i] != '\n'
      invariant i <= |remaining|
      invariant LineEnd(remaining) == i + LineEnd(remaining[i..])
    {
      assert remaining[i..][1..] == remaining[i + 1..];
      i := i + 1;
    }
    line := remaining[..i];
    rest := if i < |remaining| then remaining[i + 1..] else "";
  }

  /** A line decoded, unless it is blank. */
  function DecodeLine(decode: string -> Decoded, line: string): seq<Decoded> {
    if TrimSpace(line) == "" then [] else [decode(TrimSpace(line))]
  }

  /** The decoded lines of a transcript. */
  function Decode(decode: string -> Decoded, data: string): seq<Decoded>
    decreases |data|
  {
    if data == "" then [] else DecodeLine(decode, data[..LineEnd(data)]) + Decode(decode, AfterLine(data))
  }

  // ---- the walk ---------------------------------------------------------------

  /** The record has the fields every event needs. */
  predicate Structural(line: Line, typed: bool) {
    typed && TrimSpace(line.uuid) != "" && TrimSpace(line.sessionId) != "" && line.at.Some?
  }

  /** A line that is not JSON, or an assistant record that lacks a structural field. */
  predicate Aborts(d: Decoded) {
    d.NotJson? || (d.Assistant? && !Structural(d.line, d.typed))
  }

  function RecordId(line: Line): string {
    NativeSession(line.sessionId) + ":" + TrimSpace(line.uuid)
  }

  function RecordEvent(line: Line, eventType: string, receivedAt: int): Event
    requires line.at.Some?
  {
    Event(line.at.value, RecordId(line), eventType, receivedAt, None)
  }

  /** The record has an event of its own: userEvent passes over what it cannot use. */
  predicate HasEvent(d: Decoded) {
    (d.Assistant? || (d.User? && d.line.hasText)) && Structural(d.line, d.typed)
  }

  /** assistantEvent, userEvent */
  function OwnEvent(d: Decoded, receivedAt: int): Option<Event> {
    if HasEvent(d) then Some(RecordEvent(d.line, if d.Assistant? then ASSISTANT_MESSAGE else USER_MESSAGE, receivedAt))
    else None
  }

  function OwnEvents(decoded: seq<Decoded>, receivedAt: int): seq<Event> {
    if decoded == [] then []
    else
      var own := OwnEvent(decoded[|decoded| - 1], receivedAt);
      OwnEvents(decoded[..|decoded| - 1], receivedAt) + if own.Some? then [own.value] else []
  }

  function StepsOf(d: Decoded, categoryOf: string -> Category): seq<Step> {
    if d.Assistant? then UseSteps(d.line, categoryOf)
    else if d.User? then ResultSteps(d.line)
    else []
  }

  function AllSteps(decoded: seq<Decoded>, categoryOf: string -> Category): seq<Step> {
    if decoded == [] then []
    else AllSteps(decoded[..|decoded| - 1], categoryOf) + StepsOf(decoded[|decoded| - 1], categoryOf)
  }

  /** The collector's state after these lines. */
  function CallsAfter(decoded: seq<Decoded>, categoryOf: string -> Category): State {
    Run(NO_CALLS, AllSteps(decoded, categoryOf))
  }

  datatype Walked = Aborted | Walked(events: seq<Event>, calls: seq<Call>)

  method WalkTranscript(data: string, receivedAt: int, decode: string -> Decoded, categoryOf: string -> Category)
    returns (r: Walked)
    ensures var decoded := Decode(decode, data);
            && (r.Aborted? <==> exists d :: d in decoded && Aborts(d))
            && (r.Walked? ==>
                  && r.events == OwnEvents(decoded, receivedAt)
                  && Whole(CallsAfter(decoded, categoryOf)) && r.calls == CallsOf(CallsAfter(decoded, categoryOf)))
  {
    var events: seq<Event> := [];
    var collector := new ToolCallCollector();
    var remaining := data;
    ghost var all, done: seq<Decoded> := Decode(decode, data), [];
    while remaining != ""
      invariant fresh(collector)
      invariant all == done + Decode(decode, remaining)
      invariant Read(done, receivedAt, categoryOf, events, collector.Contents())
      decreases |remaining|
    {
      LineTaken(decode, all, done, remaining);
      var line: string;
      line, remaining := NextTranscriptLine(remaining);
      var trimmed := TrimSpace(line);
      if trimmed == "" { continue; }
      var d := decode(trimmed);
      if d.NotJson? { return Aborted; }
      var ok, event := Dispatch(collector, d, receivedAt, categoryOf);
      if !ok { return Aborted; }
      Dispatched(done, d, receivedAt, categoryOf, events);
      if event.Some? {
        events := events + [event.value];
      }
      done := done + [d];
    }
    OneCallPerId(AllSteps(done, categoryOf));
    var calls := collector.Reconstructed();
    assert done + [] == done;
    r := Walked(events, calls);
  }

  /** A blank line adds nothing; any other adds what it decodes to. */
  lemma {:induction false} LineTaken(decode: string -> Decoded, all: seq<Decoded>, done: seq<Decoded>, remaining: string)
    requires remaining != "" && all == done + Decode(decode, remaining)
    ensures |AfterLine(remaining)| < |remaining|
    ensures var line := TrimSpace(remaining[..LineEnd(remaining)]);
            && (line == "" ==> all == done + Decode(decode, AfterLine(remaining)))
            && (line != "" ==>
                  && decode(line) in all
                  && all == done + [decode(line)] + Decode(decode, AfterLine(remaining)))
  {
    var first, rest := DecodeLine(decode, remaining[..LineEnd(remaining)]), Decode(decode, AfterLine(remaining));
    Regroup(done, first, rest);
    if first == [] {
      assert done + first == done;
    } else {
      assert first[0] in all;
    }
  }

  /** dispatchTranscriptRecord */
  method Dispatch(collector: ToolCallCollector, d: Decoded, receivedAt: int, categoryOf: string -> Category)
    returns (ok: bool, event: Option<Event>)
    requires !d.NotJson?
    modifies collector
    ensures ok <==> !Aborts(d)
    ensures ok ==>
              event == OwnEvent(d, receivedAt) && collector.Contents() == Run(old(collector.Contents()), StepsOf(d, categoryOf))
  {
    match d
    case Assistant(line, typed) =>
      if !Structural(line, typed) { return false, None; }
      collector.CollectToolUses(line, categoryOf);
      return true, Some(RecordEvent(line, ASSISTANT_MESSAGE, receivedAt));
    case User(line, typed) =>
      collector.CollectToolResults(line);
      if !Structural(line, typed) || !line.hasText { return true, None; }
      return true, Some(RecordEvent(line, USER_MESSAGE, receivedAt));
    case Auxiliary =>
      return true, None;
  }

  /** The walk stands after these lines. */
  ghost predicate Read(
      done: seq<Decoded>, receivedAt: int, categoryOf: string -> Category, events: seq<Event>, state: State)
  {
    && (forall d :: d in done ==> !Aborts(d))
    && events == OwnEvents(done, receivedAt)
    && state == CallsAfter(done, categoryOf)
  }

  lemma {:induction false} Dispatched(
      done: seq<Decoded>, d: Decoded, receivedAt: int, categoryOf: string -> Category, events: seq<Event>)
    requires Read(done, receivedAt, categoryOf, events, CallsAfter(done, categoryOf)) && !Aborts(d)
    ensures Read(
              done + [d], receivedAt, categoryOf,
              if OwnEvent(d, receivedAt).Some? then events + [OwnEvent(d, receivedAt).value] else events,
              Run(CallsAfter(done, categoryOf), StepsOf(d, categoryOf)))
  {
    assert (done + [d])[..|done|] == done;
    CallsSnoc(done, d, categoryOf);
  }

  lemma {:induction false} CallsSnoc(done: seq<Decoded>, d: Decoded, categoryOf: string -> Category)
    ensures CallsAfter(done + [d], categoryOf) == Run(CallsAfter(done, categoryOf), StepsOf(d, categoryOf))
  {
    assert (done + [d])[..|done|] == done;
    RunConcat(NO_CALLS, AllSteps(done, categoryOf), StepsOf(d, categoryOf));
  }

  lemma {:induction false} LinesAreFresh(decoded: seq<Decoded>, categoryOf: string -> Category)
    ensures Fresh(AllSteps(decoded, categoryOf))
  {
    if decoded != [] {
      var d := decoded[|decoded| - 1];
      LinesAreFresh(decoded[..|decoded| - 1], categoryOf);
      forall k | 0 <= k < |StepsOf(d, categoryOf)| && StepsOf(d, categoryOf)[k].Use?
        ensures Fresh([StepsOf(d, categoryOf)[k]])
      {
        UsesAreFresh(d, categoryOf, StepsOf(d, categoryOf)[k]);
      }
      assert forall step :: Fresh([step]) ==> [step][0] == step;
    }
  }

  lemma {:induction false} UsesAreFresh(d: Decoded, categoryOf: string -> Category, step: Step)
    requires step in StepsOf(d, categoryOf) && step.Use?
    ensures step.call.use.toolUseId == step.id && Unanswered(step.call)
    ensures step.call.resultMeta.JNull? && !step.call.shared
  {
    if d.Assistant? {
      var f := (b: Block) => UseStep(d.line, b, categoryOf);
      FilterMapMember(f, d.line.blocks.value, step);
    } else {
      var f := (b: Block) => ResultStep(d.line, b);
      FilterMapMember(f, d.line.blocks.value, step);
    }
  }

  /** After any walk, each call carries the invocation of its last tool_use, and the
      result and outcome of the last tool_result after it. */
  lemma {:induction false} CallsAreLastPairs(decoded: seq<Decoded>, categoryOf: string -> Category, id: string)
    requires id in CallsAfter(decoded, categoryOf).calls
    ensures CallsAfter(decoded, categoryOf).calls[id].use.toolUseId == id
    ensures exists u: nat :: Paired(AllSteps(decoded, categoryOf), id, CallsAfter(decoded, categoryOf).calls[id], u)
  {
    LinesAreFresh(decoded, categoryOf);
    LastResultIsKept(AllSteps(decoded, categoryOf), id);
  }

  // ---- collapsing duplicates --------------------------------------------------

  /** Some element kept has this id, and is not above `x`. */
  ghost predicate Represented<T, K, I>(less: (K, K) -> bool, key: T -> K, id: T -> I, r: seq<T>, x: T) {
    exists k :: 0 <= k < |r| && id(r[k]) == id(x) && !less(key(x), key(r[k]))
  }

  /** One element per id, in order: of those that share an id, the least. */
  ghost predicate Collapsed<T, K, I>(less: (K, K) -> bool, key: T -> K, id: T -> I, xs: seq<T>, r: seq<T>) {
    && SortedBy(less, key, r)
    && DistinctKeys(id, r)
    && (forall x :: x in r ==> x in xs)
    && forall x :: x in xs ==> Represented(less, key, id, r, x)
  }

  /** The first `n` sorted elements have been collapsed to `r`. */
  ghost predicate CollapsedTo<T, K, I>(
      less: (K, K) -> bool, key: T -> K, id: T -> I, ordered: seq<T>, n: nat, r: seq<T>)
  {
    && n <= |ordered| && DistinctKeys(id, r) && SortedBy(less, key, r)
    && Within(r, ordered, n)
    && forall j :: 0 <= j < n ==> Represented(less, key, id, r, ordered[j])
  }

  /** The sort and the `seen` loop that the Correlate functions share. */
  method Collapse<T, K(!new), I(==)>(less: (K, K) -> bool, key: T -> K, id: T -> I, xs: seq<T>) returns (r: seq<T>)
    requires StrictTotal(less)
    ensures Collapsed(less, key, id, xs, r)
  {
    var ordered := SortBy(less, key, xs);
    SortBySorted(less, key, xs);
    var seen: set<I> := {};
    r := [];
    for n := 0 to |ordered|
      invariant seen == IdsIn(id, r)
      invariant CollapsedTo(less, key, id, ordered, n, r)
    {
      if id(ordered[n]) in seen {
        CollapseKeeps(less, key, id, ordered, n, r);
      } else {
        CollapseAppends(less, key, id, ordered, n, r);
        seen := seen + {id(ordered[n])};
        r := r + [ordered[n]];
      }
    }
    Collapses(less, key, id, xs, ordered, r);
  }

  ghost function IdsIn<T, I>(id: T -> I, r: seq<T>): set<I> {
    set k | 0 <= k < |r| :: id(r[k])
  }

  lemma {:induction false} FromPrefixNotAbove<T, K(!new), I>(
      less: (K, K) -> bool, key: T -> K, id: T -> I, ordered: seq<T>, n: nat, r: seq<T>)
    requires n < |ordered| && SortedBy(less, key, ordered)
    requires CollapsedTo(less, key, id, ordered, n, r)
    ensures forall k :: 0 <= k < |r| ==> !less(key(ordered[n]), key(r[k]))
  {
    forall k | 0 <= k < |r| ensures !less(key(ordered[n]), key(r[k])) {
      var j :| 0 <= j < n && ordered[j] == r[k];
    }
  }

  lemma {:induction false} CollapseKeeps<T, K(!new), I>(
      less: (K, K) -> bool, key: T -> K, id: T -> I, ordered: seq<T>, n: nat, r: seq<T>)
    requires n < |ordered| && SortedBy(less, key, ordered)
    requires CollapsedTo(less, key, id, ordered, n, r) && id(ordered[n]) in IdsIn(id, r)
    ensures CollapsedTo(less, key, id, ordered, n + 1, r)
  {
    FromPrefixNotAbove(less, key, id, ordered, n, r);
    assert Represented(less, key, id, r, ordered[n]);
  }

  lemma {:induction false} IdAdded<T, I>(id: T -> I, r: seq<T>, x: T)
    ensures IdsIn(id, r + [x]) == IdsIn(id, r) + {id(x)}
  {
    var r' := r + [x];
    assert forall k :: 0 <= k < |r| ==> r'[k] == r[k];
    forall i | i in IdsIn(id, r) + {id(x)} ensures i in IdsIn(id, r') {
      if i == id(x) {
        assert id(r'[|r|]) == i;
      } else {
        var k :| 0 <= k < |r| && id(r[k]) == i;
        assert id(r'[k]) == i;
      }
    }
    forall i | i in IdsIn(id, r') ensures i in IdsIn(id, r) + {id(x)} {
      var k :| 0 <= k < |r'| && id(r'[k]) == i;
      if k < |r| {
        assert id(r[k]) == i;
      }
    }
    assert IdsIn(id, r') == IdsIn(id, r) + {id(x)};
  }

  lemma {:induction false} RepresentedStill<T, K(!new), I>(
      less: (K, K) -> bool, key: T -> K, id: T -> I, r: seq<T>, x: T, y: T)
    requires Represented(less, key, id, r, y)
    ensures Represented(less, key, id, r + [x], y)
  {
    var k :| 0 <= k < |r| && id(r[k]) == id(y) && !less(key(y), key(r[k]));
    assert (r + [x])[k] == r[k];
  }

  lemma {:induction false} StaysOrdered<T, K(!new), I>(less: (K, K) -> bool, key: T -> K, id: T -> I, r: seq<T>, x: T)
    requires SortedBy(less, key, r) && DistinctKeys(id, r)
    requires forall k :: 0 <= k < |r| ==> !less(key(x), key(r[k])) && id(r[k]) != id(x)
    ensures SortedBy(less, key, r + [x]) && DistinctKeys(id, r + [x])
  {}

  /** Each of `r` is among the first `n` of `ordered`. */
  ghost predicate Within<T>(r: seq<T>, ordered: seq<T>, n: nat)
    requires n <= |ordered|
  {
    forall k :: 0 <= k < |r| ==> exists j :: 0 <= j < n && ordered[j] == r[k]
  }

  lemma {:induction false} WithinGrows<T>(r: seq<T>, ordered: seq<T>, n: nat)
    requires n < |ordered| && Within(r, ordered, n)
    ensures Within(r, ordered, n + 1) && Within(r + [ordered[n]], ordered, n + 1)
  {}

  lemma {:induction false} CollapseAppends<T, K(!new), I>(
      less: (K, K) -> bool, key: T -> K, id: T -> I, ordered: seq<T>, n: nat, r: seq<T>)
    requires StrictTotal(less) && n < |ordered| && SortedBy(less, key, ordered)
    requires CollapsedTo(less, key, id, ordered, n, r) && id(ordered[n]) !in IdsIn(id, r)
    ensures CollapsedTo(less, key, id, ordered, n + 1, r + [ordered[n]])
    ensures IdsIn(id, r + [ordered[n]]) == IdsIn(id, r) + {id(ordered[n])}
  {
    var x, r' := ordered[n], r + [ordered[n]];
    FromPrefixNotAbove(less, key, id, ordered, n, r);
    IdAdded(id, r, x);
    WithinGrows(r, ordered, n);
    assert forall k :: 0 <= k < |r| ==> id(r[k]) in IdsIn(id, r);
    StaysOrdered(less, key, id, r, x);
    assert id(r'[|r|]) == id(x) && !less(key(x), key(r'[|r|]));
    forall j | 0 <= j < n ensures Represented(less, key, id, r', ordered[j]) {
      RepresentedStill(less, key, id, r, x, ordered[j]);
    }
  }

  lemma {:induction false} Collapses<T, K(!new), I>(
      less: (K, K) -> bool, key: T -> K, id: T -> I, xs: seq<T>, ordered: seq<T>, r: seq<T>)
    requires ordered == SortBy(less, key, xs) && CollapsedTo(less, key, id, ordered, |ordered|, r)
    ensures Collapsed(less, key, id, xs, r)
  {
    forall x ensures x in ordered <==> x in xs {
      MembersOfSort(less, key, xs, x);
    }
    forall x | x in xs ensures Represented(less, key, id, r, x) {
      var j :| 0 <= j < |ordered| && ordered[j] == x;
    }
    forall x | x in r ensures x in xs {
      var k :| 0 <= k < |r| && r[k] == x;
      var j :| 0 <= j < |ordered| && ordered[j] == r[k];
    }
  }

  // ---- events and operations --------------------------------------------------

  type EventKey = (Stamp, (string, int))

  function KeyOfEvent(e: Event): EventKey { (Stamp(e.occurredAt, e.id), (e.eventType, e.receivedAt)) }

  predicate EventLess(a: EventKey, b: EventKey) {
    if a.0 != b.0 then Before(a.0, b.0)
    else if a.1.0 != b.1.0 then StrLess(a.1.0, b.1.0)
    else a.1.1 < b.1.1
  }

  lemma {:induction false} EventLessStrictTotal()
    ensures StrictTotal(EventLess)
  {
    BeforeStrictTotal();
    StrLessStrictTotal();
    forall a: EventKey, b: EventKey ensures a == b || EventLess(a, b) || EventLess(b, a) {
      assert a == (a.0, (a.1.0, a.1.1)) && b == (b.0, (b.1.0, b.1.1));
    }
    forall a: EventKey, b: EventKey, c: EventKey | EventLess(a, b) && EventLess(b, c) ensures EventLess(a, c) {
      EventLessTransitive(a, b, c);
    }
  }

  lemma {:induction false} EventLessTransitive(a: EventKey, b: EventKey, c: EventKey)
    requires EventLess(a, b) && EventLess(b, c)
    ensures EventLess(a, c)
  {
    BeforeStrictTotal();
    StrLessStrictTotal();
    assert forall x: Stamp, y: Stamp, z: Stamp :: Before(x, y) && Before(y, z) ==> Before(x, z);
    assert forall x: Stamp :: !Before(x, x);
    assert forall x: string, y: string, z: string :: StrLess(x, y) && StrLess(y, z) ==> StrLess(x, z);
    assert forall x: string :: !StrLess(x, x);
  }

  function IdOfEvent(e: Event): string { e.id }

  method CorrelateEvents(events: seq<Event>) returns (r: seq<Event>)
    ensures Collapsed(EventLess, KeyOfEvent, IdOfEvent, events, r)
  {
    EventLessStrictTotal();
    r := Collapse(EventLess, KeyOfEvent, IdOfEvent, events);
  }

  /** (operation id, session id): the order of operations, and their identity. */
  type OperationKey = (string, string)

  function KeyOfOperation(o: Operation): OperationKey { (o.id, o.sessionId) }

  predicate OperationLess(a: OperationKey, b: OperationKey) {
    if a.0 != b.0 then StrLess(a.0, b.0) else StrLess(a.1, b.1)
  }

  lemma {:induction false} OperationLessStrictTotal()
    ensures StrictTotal(OperationLess)
  {
    StrLessStrictTotal();
    forall a: OperationKey, b: OperationKey ensures a == b || OperationLess(a, b) || OperationLess(b, a) {
      assert a == (a.0, a.1) && b == (b.0, b.1);
    }
    forall a: OperationKey, b: OperationKey, c: OperationKey | OperationLess(a, b) && OperationLess(b, c)
      ensures OperationLess(a, c)
    {
      if a.0 == b.0 == c.0 {
        assert StrLess(a.1, b.1) && StrLess(b.1, c.1);
      }
    }
  }

  method CorrelateOperations(records: seq<Operation>) returns (r: seq<Operation>)
    ensures Collapsed(OperationLess, KeyOfOperation, KeyOfOperation, records, r)
  {
    OperationLessStrictTotal();
    r := Collapse(OperationLess, KeyOfOperation, KeyOfOperation, records);
  }

  /** The id of the event that reports the call of this invocation. */
  function CallEventId(use: Invocation): string {
    use.sessionId + (if use.category == Mcp then ":mcp:" else ":toolcall:") + use.toolUseId
  }

  /** correlationEvent */
  function CallEvent(c: Call, receivedAt: int): Event {
    Event(
      c.use.occurredAt, CallEventId(c.use), if c.use.category == Mcp then MCP_CALL else TOOL_CALL, receivedAt, Some(c))
  }

  function CallOperation(c: Call): Operation {
    Operation(c.use.sessionId + ":tool:" + c.use.toolUseId, c.use.sessionId, c)
  }

  datatype Emitted<T> = Refused | Emitted(items: seq<T>)

  function CallEvents(calls: seq<Call>, receivedAt: int): seq<Event> {
    seq(|calls|, k requires 0 <= k < |calls| => CallEvent(calls[k], receivedAt))
  }

  function CallOperations(calls: seq<Call>): seq<Operation> {
    seq(|calls|, k requires 0 <= k < |calls| => CallOperation(calls[k]))
  }

  method AppendCallEvents(own: seq<Event>, calls: seq<Call>, receivedAt: int) returns (events: seq<Event>)
    ensures events == own + CallEvents(calls, receivedAt)
  {
    events := own;
    for n := 0 to |calls|
      invariant events == own + CallEvents(calls[..n], receivedAt)
    {
      events := events + [CallEvent(calls[n], receivedAt)];
    }
    assert calls[..|calls|] == calls;
  }

  /** What the walk lists before collapsing: the records' own events, then the calls'. */
  ghost function Listed(decoded: seq<Decoded>, receivedAt: int, categoryOf: string -> Category): seq<Event>
    requires Whole(CallsAfter(decoded, categoryOf))
  {
    OwnEvents(decoded, receivedAt) + CallEvents(CallsOf(CallsAfter(decoded, categoryOf)), receivedAt)
  }

  /** `r` is what a transcript with these lines normalizes to. */
  ghost predicate Normalizes(
      decoded: seq<Decoded>, receivedAt: int, categoryOf: string -> Category, r: Emitted<Event>)
  {
    && Whole(CallsAfter(decoded, categoryOf))
    && (r.Refused? <==> exists d :: d in decoded && Aborts(d))
    && (r.Emitted? ==>
          Collapsed(EventLess, KeyOfEvent, IdOfEvent, Listed(decoded, receivedAt, categoryOf), r.items))
  }

  /** `r` is the list of operations of a transcript with these lines. */
  ghost predicate Extracts(decoded: seq<Decoded>, categoryOf: string -> Category, r: Emitted<Operation>) {
    && Whole(CallsAfter(decoded, categoryOf))
    && (r.Refused? <==> exists d :: d in decoded && Aborts(d))
    && (r.Emitted? ==>
          Collapsed(OperationLess, KeyOfOperation, KeyOfOperation,
                    CallOperations(CallsOf(CallsAfter(decoded, categoryOf))), r.items))
  }

  method NormalizeTranscript(data: string, receivedAt: int, decode: string -> Decoded, categoryOf: string -> Category)
    returns (r: Emitted<Event>)
    ensures Normalizes(Decode(decode, data), receivedAt, categoryOf, r)
  {
    OneCallPerId(AllSteps(Decode(decode, data), categoryOf));
    var walked := WalkTranscript(data, receivedAt, decode, categoryOf);
    if walked.Aborted? { return Refused; }
    var events := AppendCallEvents(walked.events, walked.calls, receivedAt);
    var items := CorrelateEvents(events);
    r := Emitted(items);
  }

  method OperationsOf(calls: seq<Call>) returns (operations: seq<Operation>)
    ensures operations == CallOperations(calls)
  {
    operations := [];
    for n := 0 to |calls|
      invariant operations == CallOperations(calls[..n])
    {
      operations := operations + [CallOperation(calls[n])];
    }
    assert calls[..|calls|] == calls;
  }

  method ExtractTranscriptOperations(data: string, decode: string -> Decoded, categoryOf: string -> Category)
    returns (r: Emitted<Operation>)
    ensures Extracts(Decode(decode, data), categoryOf, r)
  {
    OneCallPerId(AllSteps(Decode(decode, data), categoryOf));
    var walked := WalkTranscript(data, 0, decode, categoryOf);
    if walked.Aborted? { return Refused; }
    var operations := OperationsOf(walked.calls);
    var items := CorrelateOperations(operations);
    r := Emitted(items);
  }

  // ---- a transcript that grows ------------------------------------------------

  /** Lines appended to a transcript decode after its own. */
  lemma {:induction false} AppendedLines(decode: string -> Decoded, data: string, more: string)
    ensures Decode(decode, data + "\n" + more) == Decode(decode, data) + Decode(decode, more)
    decreases |data|
  {
    var whole := data + "\n" + more;
    var first := DecodeLine(decode, data[..LineEnd(data)]);
    AppendedLineEnd(data, more);
    AppendedRest(data, more);
    assert whole[..LineEnd(whole)] == data[..LineEnd(data)];
    assert Decode(decode, whole) == first + Decode(decode, AfterLine(whole));
    if LineEnd(data) < |data| {
      AppendedLines(decode, AfterLine(data), more);
      Regroup(first, Decode(decode, AfterLine(data)), Decode(decode, more));
    } else {
      assert data[..LineEnd(data)] == data;
      assert Decode(decode, data) == first;
    }
  }

  lemma {:induction false} AppendedRest(data: string, more: string)
    ensures AfterLine(data + "\n" + more) == if LineEnd(data) < |data| then AfterLine(data) + "\n" + more else more
  {
    AppendedLineEnd(data, more);
  }

  lemma {:induction false} AppendedLineEnd(data: string, more: string)
    ensures LineEnd(data + "\n" + more) == LineEnd(data)
  {
    if data != "" && data[0] != '\n' {
      assert (data + "\n" + more)[1..] == data[1..] + "\n" + more;
      AppendedLineEnd(data[1..], more);
    }
  }
}

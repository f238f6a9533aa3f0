/** Which events a transcript emits: the identities its lines give to records and calls,
    and what collapsing keeps of them. */
module TranscriptIds {
  import opened Prelude
  import opened Ordering
  import opened Residual
  import opened ToolCalls
  import opened Transcript

  // ---- the calls, read off the lines ------------------------------------------

  /** The invocation of the last of the blocks that uses this id. */
  function LastIn(line: Line, blocks: seq<Block>, categoryOf: string -> Category, key: string): Option<Invocation>
    requires line.at.Some?
  {
    if blocks == [] then None
    else
      var block := blocks[|blocks| - 1];
      if block.ToolUse? && block.id == key then Some(NewCall(line, block, categoryOf).use)
      else LastIn(line, blocks[..|blocks| - 1], categoryOf, key)
  }

  function LastInLine(d: Decoded, categoryOf: string -> Category, key: string): Option<Invocation> {
    if d.Assistant? && d.line.at.Some? && d.line.blocks.Some? && !Blank(key)
    then LastIn(d.line, d.line.blocks.value, categoryOf, key)
    else None
  }

  /** The invocation of the last tool_use block with this id, anywhere in the lines. */
  function LastUsed(decoded: seq<Decoded>, categoryOf: string -> Category, key: string): Option<Invocation> {
    if decoded == [] then None
    else
      var here := LastInLine(decoded[|decoded| - 1], categoryOf, key);
      if here.Some? then here else LastUsed(decoded[..|decoded| - 1], categoryOf, key)
  }

  function UseOf(s: State, key: string): Option<Invocation> {
    if key in s.calls then Some(s.calls[key].use) else None
  }

  lemma {:induction false} StepChangesUse(s: State, step: Step, key: string)
    ensures UseOf(Apply(s, step), key) == if step.Use? && step.id == key then Some(step.call.use) else UseOf(s, key)
  {}

  lemma {:induction false} ResultsKeepUses(s: State, steps: seq<Step>, key: string)
    requires forall step :: step in steps ==> !step.Use?
    ensures UseOf(Run(s, steps), key) == UseOf(s, key)
  {
    if steps != [] {
      ResultsKeepUses(s, steps[..|steps| - 1], key);
      StepChangesUse(Run(s, steps[..|steps| - 1]), steps[|steps| - 1], key);
    }
  }

  lemma {:induction false} BlocksChangeUse(
      s: State, line: Line, blocks: seq<Block>, categoryOf: string -> Category, key: string)
    requires line.at.Some?
    ensures UseOf(Run(s, FilterMap((b: Block) => UseStep(line, b, categoryOf), blocks)), key)
            == if !Blank(key) && LastIn(line, blocks, categoryOf, key).Some? then LastIn(line, blocks, categoryOf, key)
               else UseOf(s, key)
  {
    if blocks != [] {
      var n := |blocks| - 1;
      var f := (b: Block) => UseStep(line, b, categoryOf);
      BlocksChangeUse(s, line, blocks[..n], categoryOf, key);
      if f(blocks[n]).Some? {
        RunSnoc(s, FilterMap(f, blocks[..n]), f(blocks[n]).value);
        StepChangesUse(Run(s, FilterMap(f, blocks[..n])), f(blocks[n]).value, key);
      }
    }
  }

  lemma {:induction false} LineChangesUse(s: State, d: Decoded, categoryOf: string -> Category, key: string)
    ensures UseOf(Run(s, StepsOf(d, categoryOf)), key)
            == if LastInLine(d, categoryOf, key).Some? then LastInLine(d, categoryOf, key) else UseOf(s, key)
  {
    if d.Assistant? && d.line.at.Some? && d.line.blocks.Some? {
      BlocksChangeUse(s, d.line, d.line.blocks.value, categoryOf, key);
    } else if d.User? {
      forall step | step in StepsOf(d, categoryOf) ensures !step.Use? {
        ResultsAreNotUses(d.line, step);
      }
      ResultsKeepUses(s, StepsOf(d, categoryOf), key);
    }
  }

  lemma {:induction false} ResultsAreNotUses(line: Line, step: Step)
    requires step in ResultSteps(line)
    ensures !step.Use?
  {
    if step in Pairings(line, line.blocks.value) {
      FilterMapMember((b: Block) => ResultStep(line, b), line.blocks.value, step);
    }
  }

  /** The calls the walk collects are exactly the ids the lines use, each by its last use. */
  lemma {:induction false} CallsAreLastUses(decoded: seq<Decoded>, categoryOf: string -> Category, key: string)
    ensures UseOf(CallsAfter(decoded, categoryOf), key) == LastUsed(decoded, categoryOf, key)
    ensures LastUsed(decoded, categoryOf, key).Some? ==> LastUsed(decoded, categoryOf, key).value.toolUseId == key
  {
    if decoded != [] {
      var front, last := decoded[..|decoded| - 1], decoded[|decoded| - 1];
      CallsAreLastUses(front, categoryOf, key);
      LineChangesUse(CallsAfter(front, categoryOf), last, categoryOf, key);
      RunConcat(NO_CALLS, AllSteps(front, categoryOf), StepsOf(last, categoryOf));
      if LastInLine(last, categoryOf, key).Some? {
        LastInUsesIt(last.line, last.line.blocks.value, categoryOf, key);
      }
    }
  }

  lemma {:induction false} LastInUsesIt(line: Line, blocks: seq<Block>, categoryOf: string -> Category, key: string)
    requires line.at.Some? && LastIn(line, blocks, categoryOf, key).Some?
    ensures LastIn(line, blocks, categoryOf, key).value.toolUseId == key
    ensures LastIn(line, blocks, categoryOf, key).value.sessionId == NativeSession(line.sessionId)
  {
    var block := blocks[|blocks| - 1];
    if !(block.ToolUse? && block.id == key) {
      LastInUsesIt(line, blocks[..|blocks| - 1], categoryOf, key);
    }
  }

  // ---- one operation per call -------------------------------------------------

  /** Each call is kept under its own tool_use id. */
  ghost predicate OwnIds(s: State) {
    Whole(s) && forall id :: id in s.calls ==> s.calls[id].use.toolUseId == id
  }

  lemma {:induction false} WalksKeepOwnIds(decoded: seq<Decoded>, categoryOf: string -> Category)
    ensures OwnIds(CallsAfter(decoded, categoryOf))
  {
    OneCallPerId(AllSteps(decoded, categoryOf));
    forall id | id in CallsAfter(decoded, categoryOf).calls
      ensures CallsAfter(decoded, categoryOf).calls[id].use.toolUseId == id
    {
      CallsAreLastUses(decoded, categoryOf, id);
    }
  }

  lemma {:induction false} SameSuffix(prefix: string, a: string, b: string)
    requires prefix + a == prefix + b
    ensures a == b
  {
    assert (prefix + a)[|prefix|..] == a && (prefix + b)[|prefix|..] == b;
  }

  lemma {:induction false} OperationKeysDiffer(s: State, i: nat, j: nat)
    requires OwnIds(s) && i < j < |s.order|
    ensures KeyOfOperation(CallOperation(CallsOf(s)[i])) != KeyOfOperation(CallOperation(CallsOf(s)[j]))
  {
    var a, b := CallsOf(s)[i], CallsOf(s)[j];
    assert a.use.toolUseId == s.order[i] && b.use.toolUseId == s.order[j];
    if a.use.sessionId == b.use.sessionId && CallOperation(a).id == CallOperation(b).id {
      SameSuffix(a.use.sessionId + ":tool:", a.use.toolUseId, b.use.toolUseId);
    }
  }

  /** Every tool_use id of the transcript yields exactly one operation, that of its call:
      collapsing drops none and adds none. */
  lemma {:induction false} OneOperationPerCall(
      decoded: seq<Decoded>, categoryOf: string -> Category, r: Emitted<Operation>)
    requires Extracts(decoded, categoryOf, r) && r.Emitted?
    ensures multiset(r.items) == multiset(CallOperations(CallsOf(CallsAfter(decoded, categoryOf))))
    ensures |r.items| == |FirstSeen(AllSteps(decoded, categoryOf))|
  {
    WalksKeepOwnIds(decoded, categoryOf);
    OneCallPerId(AllSteps(decoded, categoryOf));
    var s := CallsAfter(decoded, categoryOf);
    var all := CallOperations(CallsOf(s));
    forall i, j | 0 <= i < j < |all| ensures KeyOfOperation(all[i]) != KeyOfOperation(all[j]) {
      OperationKeysDiffer(s, i, j);
    }
    CollapseOfDistinct(OperationLess, KeyOfOperation, KeyOfOperation, all, r.items);
    assert |r.items| == |multiset(r.items)| == |multiset(all)| == |all|;
  }

  /** Collapsing keeps a list whole exactly when no two of its elements share an id. */
  lemma {:induction false} CollapseOfDistinct<T, K(!new), I>(
      less: (K, K) -> bool, key: T -> K, id: T -> I, xs: seq<T>, r: seq<T>)
    requires Collapsed(less, key, id, xs, r)
    ensures multiset(r) == multiset(xs) <==> DistinctKeys(id, xs)
  {
    if DistinctKeys(id, xs) {
      forall x ensures x in xs <==> x in r {
        if x in xs {
          assert Represented(less, key, id, r, x);
          var k :| 0 <= k < |r| && id(r[k]) == id(x);
          assert r[k] in r && r[k] in xs;
          var i :| 0 <= i < |xs| && xs[i] == r[k];
          var j :| 0 <= j < |xs| && xs[j] == x;
          assert i == j;
        }
      }
      SameMembersOnce(id, r, xs);
    }
    if multiset(r) == multiset(xs) {
      forall i, j | 0 <= i < j < |xs| ensures id(xs[i]) != id(xs[j]) {
        DistinctInPermutation(id, r, xs, i, j);
      }
    }
  }

  // ---- the ids of the listed events -------------------------------------------

  lemma {:induction false} OwnEventMember(decoded: seq<Decoded>, receivedAt: int, e: Event)
    ensures e in OwnEvents(decoded, receivedAt) <==> exists d :: d in decoded && OwnEvent(d, receivedAt) == Some(e)
  {
    if decoded != [] {
      var n := |decoded| - 1;
      OwnEventMember(decoded[..n], receivedAt, e);
      assert decoded == decoded[..n] + [decoded[n]];
    }
  }

  lemma {:induction false} CallEventMember(s: State, receivedAt: int, e: Event)
    requires Whole(s)
    ensures e in CallEvents(CallsOf(s), receivedAt)
            <==> exists key :: key in s.calls && CallEvent(s.calls[key], receivedAt) == e
  {
    var listed := CallEvents(CallsOf(s), receivedAt);
    forall k | 0 <= k < |listed| && listed[k] == e
      ensures exists key :: key in s.calls && CallEvent(s.calls[key], receivedAt) == e
    {
      var id := s.order[k];
      assert id in s.calls && CallEvent(s.calls[id], receivedAt) == e;
    }
    forall key | key in s.calls && CallEvent(s.calls[key], receivedAt) == e ensures e in listed {
      var k :| 0 <= k < |s.order| && s.order[k] == key;
      assert listed[k] == e;
    }
  }

  /** Records, calls, and the two together have ids of their own. */
  ghost predicate RecordsApart(decoded: seq<Decoded>) {
    forall i, j :: 0 <= i < j < |decoded| && HasEvent(decoded[i]) && HasEvent(decoded[j]) ==>
      RecordId(decoded[i].line) != RecordId(decoded[j].line)
  }

  ghost predicate CallsApart(decoded: seq<Decoded>, categoryOf: string -> Category) {
    forall a, b ::
      a != b && LastUsed(decoded, categoryOf, a).Some? && LastUsed(decoded, categoryOf, b).Some? ==>
        CallEventId(LastUsed(decoded, categoryOf, a).value) != CallEventId(LastUsed(decoded, categoryOf, b).value)
  }

  ghost predicate RecordsFromCalls(decoded: seq<Decoded>, categoryOf: string -> Category) {
    forall d, key :: d in decoded && HasEvent(d) && LastUsed(decoded, categoryOf, key).Some? ==>
      RecordId(d.line) != CallEventId(LastUsed(decoded, categoryOf, key).value)
  }

  lemma {:induction false} OwnEventsDistinct(decoded: seq<Decoded>, receivedAt: int)
    ensures DistinctKeys(IdOfEvent, OwnEvents(decoded, receivedAt)) <==> RecordsApart(decoded)
  {
    if decoded != [] {
      var front, last := decoded[..|decoded| - 1], decoded[|decoded| - 1];
      assert decoded == front + [last];
      OwnEventsDistinct(front, receivedAt);
      ApartSnoc(front, last);
      OwnEventsSnoc(front, last, receivedAt);
    }
  }

  lemma {:induction false} OwnEventsSnoc(front: seq<Decoded>, last: Decoded, receivedAt: int)
    ensures DistinctKeys(IdOfEvent, OwnEvents(front + [last], receivedAt))
            <==> DistinctKeys(IdOfEvent, OwnEvents(front, receivedAt)) && (HasEvent(last) ==> NewTo(front, RecordId(last.line)))
    ensures forall e :: e in OwnEvents(front + [last], receivedAt)
                        <==> e in OwnEvents(front, receivedAt) || OwnEvent(last, receivedAt) == Some(e)
  {
    var own := OwnEvents(front, receivedAt);
    assert (front + [last])[..|front|] == front;
    if HasEvent(last) {
      DistinctSnoc(IdOfEvent, own, OwnEvent(last, receivedAt).value);
      NewAmongOwn(front, receivedAt, RecordId(last.line));
    } else {
      assert OwnEvents(front + [last], receivedAt) == own;
    }
  }

  /** No record of these lines has this id. */
  ghost predicate NewTo(decoded: seq<Decoded>, id: string) {
    forall k :: 0 <= k < |decoded| && HasEvent(decoded[k]) ==> RecordId(decoded[k].line) != id
  }

  lemma {:induction false} ApartSnoc(front: seq<Decoded>, last: Decoded)
    ensures RecordsApart(front + [last])
            <==> RecordsApart(front) && (HasEvent(last) ==> NewTo(front, RecordId(last.line)))
  {
    var decoded := front + [last];
    if RecordsApart(decoded) {
      forall i, j | 0 <= i < j < |front| && HasEvent(front[i]) && HasEvent(front[j])
        ensures RecordId(front[i].line) != RecordId(front[j].line)
      {
        assert decoded[i] == front[i] && decoded[j] == front[j];
      }
      forall k | 0 <= k < |front| && HasEvent(front[k]) && HasEvent(last)
        ensures RecordId(front[k].line) != RecordId(last.line)
      {
        assert decoded[k] == front[k] && decoded[|front|] == last;
      }
    }
  }

  lemma {:induction false} NewAmongOwn(decoded: seq<Decoded>, receivedAt: int, id: string)
    ensures NewTo(decoded, id) <==> forall e :: e in OwnEvents(decoded, receivedAt) ==> IdOfEvent(e) != id
  {
    if decoded != [] {
      var n := |decoded| - 1;
      var front, last := decoded[..n], decoded[n];
      NewAmongOwn(front, receivedAt, id);
      assert NewTo(decoded, id) <==> NewTo(front, id) && (HasEvent(last) ==> RecordId(last.line) != id) by {
        assert forall k :: 0 <= k < n ==> decoded[k] == front[k];
      }
      var own := OwnEvents(front, receivedAt);
      if HasEvent(last) {
        var x := OwnEvent(last, receivedAt).value;
        assert forall e :: e in own + [x] <==> e in own || e == x;
        assert IdOfEvent(x) == RecordId(last.line);
      }
    }
  }

  lemma {:induction false} DistinctSnoc<T, I>(id: T -> I, xs: seq<T>, x: T)
    ensures DistinctKeys(id, xs + [x]) <==> DistinctKeys(id, xs) && forall y :: y in xs ==> id(y) != id(x)
  {
    var all := xs + [x];
    if DistinctKeys(id, all) {
      forall i, j | 0 <= i < j < |xs| ensures id(xs[i]) != id(xs[j]) {
        assert all[i] == xs[i] && all[j] == xs[j];
      }
      forall y | y in xs ensures id(y) != id(x) {
        var i :| 0 <= i < |xs| && xs[i] == y;
        assert all[i] == y && all[|xs|] == x;
      }
    }
  }

  lemma {:induction false} CallEventAt(decoded: seq<Decoded>, receivedAt: int, categoryOf: string -> Category, k: nat)
    requires Whole(CallsAfter(decoded, categoryOf)) && k < |CallsAfter(decoded, categoryOf).order|
    ensures var use := LastUsed(decoded, categoryOf, CallsAfter(decoded, categoryOf).order[k]);
            use.Some? && IdOfEvent(CallEvents(CallsOf(CallsAfter(decoded, categoryOf)), receivedAt)[k]) == CallEventId(use.value)
  {
    CallsAreLastUses(decoded, categoryOf, CallsAfter(decoded, categoryOf).order[k]);
  }

  lemma {:induction false} CallPosition(decoded: seq<Decoded>, categoryOf: string -> Category, key: string) returns (k: nat)
    requires Whole(CallsAfter(decoded, categoryOf)) && LastUsed(decoded, categoryOf, key).Some?
    ensures k < |CallsAfter(decoded, categoryOf).order| && CallsAfter(decoded, categoryOf).order[k] == key
  {
    CallsAreLastUses(decoded, categoryOf, key);
    k :| k < |CallsAfter(decoded, categoryOf).order| && CallsAfter(decoded, categoryOf).order[k] == key;
  }

  lemma {:induction false} CallEventsDistinct(decoded: seq<Decoded>, receivedAt: int, categoryOf: string -> Category)
    requires Whole(CallsAfter(decoded, categoryOf))
    ensures DistinctKeys(IdOfEvent, CallEvents(CallsOf(CallsAfter(decoded, categoryOf)), receivedAt))
            <==> CallsApart(decoded, categoryOf)
  {
    var s := CallsAfter(decoded, categoryOf);
    var listed := CallEvents(CallsOf(s), receivedAt);
    if DistinctKeys(IdOfEvent, listed) {
      forall a, b | a != b && LastUsed(decoded, categoryOf, a).Some? && LastUsed(decoded, categoryOf, b).Some?
        ensures CallEventId(LastUsed(decoded, categoryOf, a).value) != CallEventId(LastUsed(decoded, categoryOf, b).value)
      {
        var i := CallPosition(decoded, categoryOf, a);
        var j := CallPosition(decoded, categoryOf, b);
        CallEventAt(decoded, receivedAt, categoryOf, i);
        CallEventAt(decoded, receivedAt, categoryOf, j);
        assert IdOfEvent(listed[i]) != IdOfEvent(listed[j]);
      }
    }
    if CallsApart(decoded, categoryOf) {
      forall i, j | 0 <= i < j < |listed| ensures IdOfEvent(listed[i]) != IdOfEvent(listed[j]) {
        CallEventAt(decoded, receivedAt, categoryOf, i);
        CallEventAt(decoded, receivedAt, categoryOf, j);
      }
    }
  }

  ghost predicate Disjoint(own: seq<Event>, calls: seq<Event>) {
    forall e, c :: e in own && c in calls ==> e.id != c.id
  }

  lemma {:induction false} DistinctConcat(own: seq<Event>, calls: seq<Event>)
    ensures DistinctKeys(IdOfEvent, own + calls)
            <==> DistinctKeys(IdOfEvent, own) && DistinctKeys(IdOfEvent, calls) && Disjoint(own, calls)
  {
    var all, n := own + calls, |own|;
    if DistinctKeys(IdOfEvent, all) {
      forall i, j | 0 <= i < j < |calls| ensures IdOfEvent(calls[i]) != IdOfEvent(calls[j]) {
        assert all[n + i] == calls[i] && all[n + j] == calls[j];
      }
      forall i, j | 0 <= i < j < |own| ensures IdOfEvent(own[i]) != IdOfEvent(own[j]) {
        assert all[i] == own[i] && all[j] == own[j];
      }
      forall e, c | e in own && c in calls ensures e.id != c.id {
        var i :| 0 <= i < |own| && own[i] == e;
        var j :| 0 <= j < |calls| && calls[j] == c;
        assert IdOfEvent(all[i]) != IdOfEvent(all[n + j]);
      }
    }
    if DistinctKeys(IdOfEvent, own) && DistinctKeys(IdOfEvent, calls) && Disjoint(own, calls) {
      forall i, j | 0 <= i < j < |all| ensures IdOfEvent(all[i]) != IdOfEvent(all[j]) {
        if i < n <= j {
          assert all[i] in own && all[j] in calls;
        } else if n <= i {
          assert all[i] == calls[i - n] && all[j] == calls[j - n];
        }
      }
    }
  }

  lemma {:induction false} DisjointOnLines(decoded: seq<Decoded>, receivedAt: int, categoryOf: string -> Category)
    requires Whole(CallsAfter(decoded, categoryOf))
    ensures Disjoint(OwnEvents(decoded, receivedAt), CallEvents(CallsOf(CallsAfter(decoded, categoryOf)), receivedAt))
            <==> RecordsFromCalls(decoded, categoryOf)
  {
    var own, s := OwnEvents(decoded, receivedAt), CallsAfter(decoded, categoryOf);
    var calls := CallEvents(CallsOf(s), receivedAt);
    if Disjoint(own, calls) {
      forall d, key | d in decoded && HasEvent(d) && LastUsed(decoded, categoryOf, key).Some?
        ensures RecordId(d.line) != CallEventId(LastUsed(decoded, categoryOf, key).value)
      {
        CallsAreLastUses(decoded, categoryOf, key);
        OwnEventMember(decoded, receivedAt, OwnEvent(d, receivedAt).value);
        CallEventMember(s, receivedAt, CallEvent(s.calls[key], receivedAt));
      }
    }
    if RecordsFromCalls(decoded, categoryOf) {
      forall e, c | e in own && c in calls ensures e.id != c.id {
        OwnEventMember(decoded, receivedAt, e);
        CallEventMember(s, receivedAt, c);
        var d :| d in decoded && OwnEvent(d, receivedAt) == Some(e);
        var key :| key in s.calls && CallEvent(s.calls[key], receivedAt) == c;
        CallsAreLastUses(decoded, categoryOf, key);
      }
    }
  }

  // ---- one event per record and per call --------------------------------------

  /** Every event listed is emitted, once, exactly when records and calls have ids of
      their own. */
  lemma {:induction false} EveryEventIsEmitted(
      decoded: seq<Decoded>, receivedAt: int, categoryOf: string -> Category, r: Emitted<Event>)
    requires Normalizes(decoded, receivedAt, categoryOf, r) && r.Emitted?
    ensures multiset(r.items) == multiset(Listed(decoded, receivedAt, categoryOf))
            <==> RecordsApart(decoded) && CallsApart(decoded, categoryOf) && RecordsFromCalls(decoded, categoryOf)
  {
    CollapseOfDistinct(EventLess, KeyOfEvent, IdOfEvent, Listed(decoded, receivedAt, categoryOf), r.items);
    DistinctConcat(OwnEvents(decoded, receivedAt), CallEvents(CallsOf(CallsAfter(decoded, categoryOf)), receivedAt));
    OwnEventsDistinct(decoded, receivedAt);
    CallEventsDistinct(decoded, receivedAt, categoryOf);
    DisjointOnLines(decoded, receivedAt, categoryOf);
  }

  /** Every call of the transcript is reported by its event. */
  ghost predicate ReportsCalls(decoded: seq<Decoded>, receivedAt: int, categoryOf: string -> Category, items: seq<Event>) {
    forall key :: key in CallsAfter(decoded, categoryOf).calls ==>
      CallEvent(CallsAfter(decoded, categoryOf).calls[key], receivedAt) in items
  }

  /** A record that has a call's id comes after the call: later, or a user's at the same time. */
  ghost predicate CallsComeFirst(decoded: seq<Decoded>, categoryOf: string -> Category) {
    forall d, key :: d in decoded && HasEvent(d) && LastUsed(decoded, categoryOf, key).Some? ==>
      Yields(d, LastUsed(decoded, categoryOf, key).value)
  }

  predicate Yields(d: Decoded, use: Invocation)
    requires HasEvent(d)
  {
    RecordId(d.line) == CallEventId(use) ==>
      use.occurredAt < d.line.at.value || (use.occurredAt == d.line.at.value && d.User?)
  }

  lemma {:induction false} YieldsIsOrder(d: Decoded, c: Call, receivedAt: int)
    requires HasEvent(d) && RecordId(d.line) == CallEventId(c.use)
    ensures var e, x := OwnEvent(d, receivedAt).value, CallEvent(c, receivedAt);
            && (Yields(d, c.use) <==> EventLess(KeyOfEvent(x), KeyOfEvent(e)))
            && (Yields(d, c.use) <==> !EventLess(KeyOfEvent(e), KeyOfEvent(x)))
  {
    assert ASSISTANT_MESSAGE[0] == 'a' && USER_MESSAGE[0] == 'u' && MCP_CALL[0] == 'm' && TOOL_CALL[0] == 't';
    var e, x := OwnEvent(d, receivedAt).value, CallEvent(c, receivedAt);
    assert e.id == x.id;
    StrLessIrreflexive(e.id);
    assert d.Assistant? ==> StrLess(e.eventType, x.eventType) && !StrLess(x.eventType, e.eventType);
    assert d.User? ==> !StrLess(e.eventType, x.eventType) && StrLess(x.eventType, e.eventType);
  }

  /** Every call's event is emitted exactly when no two calls share an id and every record
      with a call's id comes after it; and no other event reports a call. */
  lemma {:induction false} OneEventPerCall(
      decoded: seq<Decoded>, receivedAt: int, categoryOf: string -> Category, r: Emitted<Event>)
    requires Normalizes(decoded, receivedAt, categoryOf, r) && r.Emitted?
    ensures ReportsCalls(decoded, receivedAt, categoryOf, r.items)
            <==> CallsApart(decoded, categoryOf) && CallsComeFirst(decoded, categoryOf)
    ensures forall e :: e in r.items && e.call.Some? ==>
              exists key :: key in CallsAfter(decoded, categoryOf).calls
                            && e == CallEvent(CallsAfter(decoded, categoryOf).calls[key], receivedAt)
  {
    if ReportsCalls(decoded, receivedAt, categoryOf, r.items) {
      ReportedCallsAreApart(decoded, receivedAt, categoryOf, r);
      forall d, key | d in decoded && HasEvent(d) && LastUsed(decoded, categoryOf, key).Some?
        ensures Yields(d, LastUsed(decoded, categoryOf, key).value)
      {
        CallsAreLastUses(decoded, categoryOf, key);
        ReportedCallComesFirst(decoded, receivedAt, categoryOf, r, d, CallsAfter(decoded, categoryOf).calls[key]);
      }
    }
    if CallsApart(decoded, categoryOf) && CallsComeFirst(decoded, categoryOf) {
      forall key | key in CallsAfter(decoded, categoryOf).calls
        ensures CallEvent(CallsAfter(decoded, categoryOf).calls[key], receivedAt) in r.items
      {
        CallIsReported(decoded, receivedAt, categoryOf, r, key);
      }
    }
    forall e | e in r.items && e.call.Some?
      ensures exists key :: key in CallsAfter(decoded, categoryOf).calls
                            && e == CallEvent(CallsAfter(decoded, categoryOf).calls[key], receivedAt)
    {
      OwnEventMember(decoded, receivedAt, e);
      CallEventMember(CallsAfter(decoded, categoryOf), receivedAt, e);
    }
  }

  lemma {:induction false} ReportedCallsAreApart(
      decoded: seq<Decoded>, receivedAt: int, categoryOf: string -> Category, r: Emitted<Event>)
    requires Normalizes(decoded, receivedAt, categoryOf, r) && r.Emitted?
    requires ReportsCalls(decoded, receivedAt, categoryOf, r.items)
    ensures CallsApart(decoded, categoryOf)
  {
    forall a, b | a != b && LastUsed(decoded, categoryOf, a).Some? && LastUsed(decoded, categoryOf, b).Some?
      ensures CallEventId(LastUsed(decoded, categoryOf, a).value) != CallEventId(LastUsed(decoded, categoryOf, b).value)
    {
      CallsAreLastUses(decoded, categoryOf, a);
      CallsAreLastUses(decoded, categoryOf, b);
      var s := CallsAfter(decoded, categoryOf);
      KeptEventsDiffer(r.items, CallEvent(s.calls[a], receivedAt), CallEvent(s.calls[b], receivedAt));
    }
  }

  lemma {:induction false} KeptEventsDiffer(items: seq<Event>, x: Event, y: Event)
    requires DistinctKeys(IdOfEvent, items) && x in items && y in items && x != y
    ensures x.id != y.id
  {
    var i :| 0 <= i < |items| && items[i] == x;
    var j :| 0 <= j < |items| && items[j] == y;
    assert IdOfEvent(items[i]) != IdOfEvent(items[j]);
  }

  lemma {:induction false} ReportedCallComesFirst(
      decoded: seq<Decoded>, receivedAt: int, categoryOf: string -> Category, r: Emitted<Event>, d: Decoded, c: Call)
    requires Normalizes(decoded, receivedAt, categoryOf, r) && r.Emitted?
    requires d in decoded && HasEvent(d) && CallEvent(c, receivedAt) in r.items
    ensures Yields(d, c.use)
  {
    var e, x := OwnEvent(d, receivedAt).value, CallEvent(c, receivedAt);
    if RecordId(d.line) == CallEventId(c.use) {
      OwnEventMember(decoded, receivedAt, e);
      KeptIsLeast(Listed(decoded, receivedAt, categoryOf), r.items, e, x);
      YieldsIsOrder(d, c, receivedAt);
    }
  }

  lemma {:induction false} KeptIsLeast(xs: seq<Event>, r: seq<Event>, e: Event, kept: Event)
    requires Collapsed(EventLess, KeyOfEvent, IdOfEvent, xs, r)
    requires e in xs && kept in r && e.id == kept.id
    ensures !EventLess(KeyOfEvent(e), KeyOfEvent(kept))
  {
    assert Represented(EventLess, KeyOfEvent, IdOfEvent, r, e);
    var k :| 0 <= k < |r| && IdOfEvent(r[k]) == IdOfEvent(e) && !EventLess(KeyOfEvent(e), KeyOfEvent(r[k]));
    var i :| 0 <= i < |r| && r[i] == kept;
    assert IdOfEvent(r[i]) == IdOfEvent(r[k]);
  }

  lemma {:induction false} CallIsReported(
      decoded: seq<Decoded>, receivedAt: int, categoryOf: string -> Category, r: Emitted<Event>, key: string)
    requires Normalizes(decoded, receivedAt, categoryOf, r) && r.Emitted?
    requires CallsApart(decoded, categoryOf) && CallsComeFirst(decoded, categoryOf)
    requires key in CallsAfter(decoded, categoryOf).calls
    ensures CallEvent(CallsAfter(decoded, categoryOf).calls[key], receivedAt) in r.items
  {
    var s := CallsAfter(decoded, categoryOf);
    var x := CallEvent(s.calls[key], receivedAt);
    CallEventMember(s, receivedAt, x);
    assert Represented(EventLess, KeyOfEvent, IdOfEvent, r.items, x);
    var k :| 0 <= k < |r.items| && IdOfEvent(r.items[k]) == IdOfEvent(x) && !EventLess(KeyOfEvent(x), KeyOfEvent(r.items[k]));
    var e := r.items[k];
    assert e in Listed(decoded, receivedAt, categoryOf);
    CallsAreLastUses(decoded, categoryOf, key);
    if e in OwnEvents(decoded, receivedAt) {
      OwnEventMember(decoded, receivedAt, e);
      var d :| d in decoded && OwnEvent(d, receivedAt) == Some(e);
      YieldsIsOrder(d, s.calls[key], receivedAt);
      assert false;
    } else {
      CallEventMember(s, receivedAt, e);
      var other :| other in s.calls && CallEvent(s.calls[other], receivedAt) == e;
      CallsAreLastUses(decoded, categoryOf, other);
    }
  }

  // ---- transcripts whose sessions keep apart ----------------------------------

  predicate IsRecord(d: Decoded) {
    d.Assistant? || d.User?
  }

  /** No session's name begins with another's and a colon. */
  ghost predicate SessionsApart(decoded: seq<Decoded>) {
    forall d, e :: d in decoded && e in decoded && IsRecord(d) && IsRecord(e) ==>
      !(NativeSession(d.line.sessionId) + ":" <= NativeSession(e.line.sessionId))
  }

  /** Every record is of this session, as a transcript file's are. */
  ghost predicate InSession(decoded: seq<Decoded>, session: string) {
    forall d :: d in decoded && IsRecord(d) ==> NativeSession(d.line.sessionId) == session
  }

  lemma {:induction false} OneSessionIsApart(decoded: seq<Decoded>, session: string)
    requires InSession(decoded, session)
    ensures SessionsApart(decoded)
  {}

  /** No record's uuid reads like the tail of a call's id. */
  ghost predicate PlainUuids(decoded: seq<Decoded>) {
    forall d :: d in decoded && HasEvent(d) ==> Plain(TrimSpace(d.line.uuid))
  }

  predicate Plain(uuid: string) {
    !("mcp:" <= uuid) && !("toolcall:" <= uuid)
  }

  /** The record of an id's last use. */
  lemma {:induction false} RecordOfUse(decoded: seq<Decoded>, categoryOf: string -> Category, key: string) returns (d: Decoded)
    requires LastUsed(decoded, categoryOf, key).Some?
    ensures d in decoded && IsRecord(d) && NativeSession(d.line.sessionId) == LastUsed(decoded, categoryOf, key).value.sessionId
    ensures LastUsed(decoded, categoryOf, key).value.toolUseId == key
  {
    var front, last := decoded[..|decoded| - 1], decoded[|decoded| - 1];
    if LastInLine(last, categoryOf, key).Some? {
      LastInUsesIt(last.line, last.line.blocks.value, categoryOf, key);
      d := last;
    } else {
      d := RecordOfUse(front, categoryOf, key);
    }
  }

  /** Texts joined at a colon come apart one way, where no head begins with the other's. */
  lemma {:induction false} HeadsApart(s: string, x: string, t: string, y: string)
    requires !(s + ":" <= t) && !(t + ":" <= s) && s + ":" + x == t + ":" + y
    ensures s == t && x == y
  {
    if |s| < |t| {
      HeadIsPrefix(s, x, t, y);
    } else if |t| < |s| {
      HeadIsPrefix(t, y, s, x);
    } else {
      assert (s + ":" + x)[..|s|] == s && (t + ":" + y)[..|t|] == t;
      SameSuffix(s + ":", x, y);
    }
  }

  lemma {:induction false} HeadIsPrefix(s: string, x: string, t: string, y: string)
    requires s + ":" + x == t + ":" + y && |s| < |t|
    ensures s + ":" <= t
  {
    var whole := s + ":" + x;
    assert whole[..|t|] == t;
    assert s + ":" == whole[..|s| + 1] == t[..|s| + 1];
  }

  function KindOf(use: Invocation): string {
    if use.category == Mcp then "mcp:" else "toolcall:"
  }

  lemma {:induction false} CallIdParts(use: Invocation)
    ensures CallEventId(use) == use.sessionId + ":" + (KindOf(use) + use.toolUseId)
  {
    assert ":" + KindOf(use) == if use.category == Mcp then ":mcp:" else ":toolcall:";
  }

  /** Two calls share an id exactly when they share session, kind and tool_use id. */
  lemma {:induction false} CallIdsDiffer(a: Invocation, b: Invocation)
    requires !(a.sessionId + ":" <= b.sessionId) && !(b.sessionId + ":" <= a.sessionId)
    ensures CallEventId(a) == CallEventId(b)
            <==> a.sessionId == b.sessionId && a.toolUseId == b.toolUseId && (a.category == Mcp <==> b.category == Mcp)
  {
    CallIdParts(a);
    CallIdParts(b);
    if CallEventId(a) == CallEventId(b) {
      HeadsApart(a.sessionId, KindOf(a) + a.toolUseId, b.sessionId, KindOf(b) + b.toolUseId);
      assert (KindOf(a) + a.toolUseId)[0] == KindOf(a)[0] && (KindOf(b) + b.toolUseId)[0] == KindOf(b)[0];
      SameSuffix(KindOf(a), a.toolUseId, b.toolUseId);
    }
  }

  lemma {:induction false} PlainIsNotACall(line: Line, use: Invocation)
    requires Plain(TrimSpace(line.uuid))
    requires !(NativeSession(line.sessionId) + ":" <= use.sessionId) && !(use.sessionId + ":" <= NativeSession(line.sessionId))
    ensures RecordId(line) != CallEventId(use)
  {
    CallIdParts(use);
    if RecordId(line) == CallEventId(use) {
      HeadsApart(NativeSession(line.sessionId), TrimSpace(line.uuid), use.sessionId, KindOf(use) + use.toolUseId);
    }
  }

  lemma {:induction false} ApartCallsDiffer(decoded: seq<Decoded>, categoryOf: string -> Category, a: string, b: string)
    requires SessionsApart(decoded)
    requires a != b && LastUsed(decoded, categoryOf, a).Some? && LastUsed(decoded, categoryOf, b).Some?
    ensures CallEventId(LastUsed(decoded, categoryOf, a).value) != CallEventId(LastUsed(decoded, categoryOf, b).value)
  {
    var d := RecordOfUse(decoded, categoryOf, a);
    var e := RecordOfUse(decoded, categoryOf, b);
    CallIdsDiffer(LastUsed(decoded, categoryOf, a).value, LastUsed(decoded, categoryOf, b).value);
  }

  lemma {:induction false} ApartRecordIsNotACall(decoded: seq<Decoded>, categoryOf: string -> Category, d: Decoded, key: string)
    requires SessionsApart(decoded) && PlainUuids(decoded)
    requires d in decoded && HasEvent(d) && LastUsed(decoded, categoryOf, key).Some?
    ensures RecordId(d.line) != CallEventId(LastUsed(decoded, categoryOf, key).value)
  {
    var e := RecordOfUse(decoded, categoryOf, key);
    PlainIsNotACall(d.line, LastUsed(decoded, categoryOf, key).value);
  }

  /** Where sessions keep apart and uuids are plain every call is reported, and collapsing
      drops nothing unless two records share a session and a uuid. */
  lemma {:induction false} ApartSessionsReportCalls(
      decoded: seq<Decoded>, receivedAt: int, categoryOf: string -> Category, r: Emitted<Event>)
    requires SessionsApart(decoded) && PlainUuids(decoded)
    requires Normalizes(decoded, receivedAt, categoryOf, r) && r.Emitted?
    ensures ReportsCalls(decoded, receivedAt, categoryOf, r.items)
    ensures multiset(r.items) == multiset(Listed(decoded, receivedAt, categoryOf)) <==> RecordsApart(decoded)
  {
    forall a, b | a != b && LastUsed(decoded, categoryOf, a).Some? && LastUsed(decoded, categoryOf, b).Some?
      ensures CallEventId(LastUsed(decoded, categoryOf, a).value) != CallEventId(LastUsed(decoded, categoryOf, b).value)
    {
      ApartCallsDiffer(decoded, categoryOf, a, b);
    }
    forall d, key | d in decoded && HasEvent(d) && LastUsed(decoded, categoryOf, key).Some?
      ensures RecordId(d.line) != CallEventId(LastUsed(decoded, categoryOf, key).value)
    {
      ApartRecordIsNotACall(decoded, categoryOf, d, key);
    }
    assert CallsComeFirst(decoded, categoryOf);
    OneEventPerCall(decoded, receivedAt, categoryOf, r);
    EveryEventIsEmitted(decoded, receivedAt, categoryOf, r);
  }

  // ---- transcripts that lose a call's event -----------------------------------

  /** A record of this session, and of nothing but its blocks and record-scoped result. */
  function LineOf(uuid: string, sessionId: string, at: int, blocks: seq<Block>, toolUseResult: Raw): Line {
    Line(uuid, None, sessionId, Some(at), "", "", false, "", toolUseResult, Some(blocks), true, None)
  }

  predicate Edged(s: string) {
    s != "" && !IsSpace(s[0]) && !IsSpace(s[|s| - 1])
  }

  lemma {:induction false} TrimIsWhole(s: string)
    requires Edged(s)
    ensures TrimSpace(s) == s
  {}

  lemma {:induction false} PlainLineIsStructural(uuid: string, sessionId: string, at: int, blocks: seq<Block>)
    requires Edged(uuid) && Edged(sessionId)
    ensures Structural(LineOf(uuid, sessionId, at, blocks, JNull), true)
    ensures NativeSession(sessionId) == "claude:" + sessionId
    ensures RecordId(LineOf(uuid, sessionId, at, blocks, JNull)) == "claude:" + sessionId + ":" + uuid
  {
    TrimIsWhole(uuid);
    TrimIsWhole(sessionId);
  }

  /** A record that uses one tool, once. */
  function UseLine(uuid: string, sessionId: string, at: int, id: string, name: string): Decoded {
    Assistant(LineOf(uuid, sessionId, at, [ToolUse(id, name, JNull)], JNull), true)
  }

  lemma {:induction false} OneUse(
      uuid: string, sessionId: string, at: int, id: string, name: string, categoryOf: string -> Category, key: string)
    requires Edged(uuid) && Edged(sessionId) && Edged(id)
    ensures !Aborts(UseLine(uuid, sessionId, at, id, name))
    ensures var here := LastInLine(UseLine(uuid, sessionId, at, id, name), categoryOf, key);
            if key != id then here == None
            else
              && here.Some? && here.value.occurredAt == at
              && CallEventId(here.value)
                 == "claude:" + sessionId + (if categoryOf(name) == Mcp then ":mcp:" else ":toolcall:") + id
  {
    assert id[0] in id;
    var line, block := UseLine(uuid, sessionId, at, id, name).line, ToolUse(id, name, JNull);
    assert line.blocks.value == [block] && [block][..0] == [];
    assert key != id ==> LastIn(line, [block], categoryOf, key) == LastIn(line, [], categoryOf, key) == None;
    PlainLineIsStructural(uuid, sessionId, at, [block]);
  }

  /** Two sessions, one of whose names reads like the other's call id: their two calls
      share an id, and one is not reported. */
  lemma {:induction false} SessionsCollide(categoryOf: string -> Category, receivedAt: int, r: Emitted<Event>)
    requires categoryOf("Bash") != Mcp
    requires Normalizes(TWO_SESSIONS, receivedAt, categoryOf, r)
    ensures r.Emitted? && !ReportsCalls(TWO_SESSIONS, receivedAt, categoryOf, r.items)
  {
    TwoSessionsShareAnId(categoryOf);
    OneEventPerCall(TWO_SESSIONS, receivedAt, categoryOf, r);
  }

  lemma {:induction false} TwoSessionsShareAnId(categoryOf: string -> Category)
    requires categoryOf("Bash") != Mcp
    ensures !CallsApart(TWO_SESSIONS, categoryOf)
    ensures forall d :: d in TWO_SESSIONS ==> !Aborts(d)
  {
    var d0, d1 := TWO_SESSIONS[0], TWO_SESSIONS[1];
    OneUse("u1", "a", 0, "b:toolcall:c", "Bash", categoryOf, "b:toolcall:c");
    OneUse("u2", "a:toolcall:b", 0, "c", "Bash", categoryOf, "b:toolcall:c");
    OneUse("u2", "a:toolcall:b", 0, "c", "Bash", categoryOf, "c");
    TwoLines(d0, d1, categoryOf, "b:toolcall:c");
    TwoLines(d0, d1, categoryOf, "c");
    assert "claude:" + "a" + ":toolcall:" + "b:toolcall:c" == "claude:" + "a:toolcall:b" + ":toolcall:" + "c";
    var x, y := LastUsed(TWO_SESSIONS, categoryOf, "b:toolcall:c"), LastUsed(TWO_SESSIONS, categoryOf, "c");
    assert x.Some? && y.Some? && CallEventId(x.value) == CallEventId(y.value);
  }

  lemma {:induction false} TwoLines(d0: Decoded, d1: Decoded, categoryOf: string -> Category, key: string)
    ensures LastUsed([d0, d1], categoryOf, key)
            == if LastInLine(d1, categoryOf, key).Some? then LastInLine(d1, categoryOf, key) else LastInLine(d0, categoryOf, key)
  {
    assert [d0, d1][..1] == [d0] && [d0][..0] == [];
    assert LastUsed([d0], categoryOf, key) == LastInLine(d0, categoryOf, key);
  }

  const TWO_SESSIONS: seq<Decoded> := [
    UseLine("u1", "a", 0, "b:toolcall:c", "Bash"), UseLine("u2", "a:toolcall:b", 0, "c", "Bash")
  ]

  /** A record whose uuid reads like the tail of a call's id, from before the call: the
      call is not reported. */
  lemma {:induction false} RecordHidesCall(categoryOf: string -> Category, receivedAt: int, r: Emitted<Event>)
    requires categoryOf("Bash") != Mcp
    requires Normalizes(LIKE_A_CALL, receivedAt, categoryOf, r)
    ensures r.Emitted? && !ReportsCalls(LIKE_A_CALL, receivedAt, categoryOf, r.items)
  {
    var d0, d1 := LIKE_A_CALL[0], LIKE_A_CALL[1];
    PlainLineIsStructural("u1", "s", 1, d0.line.blocks.value);
    PlainLineIsStructural("toolcall:t", "s", 0, []);
    HidingRecord(categoryOf);
    OneEventPerCall(LIKE_A_CALL, receivedAt, categoryOf, r);
  }

  lemma {:induction false} HidingRecord(categoryOf: string -> Category)
    requires categoryOf("Bash") != Mcp
    ensures var use := LastUsed(LIKE_A_CALL, categoryOf, "t");
            use.Some? && LIKE_A_CALL[1] in LIKE_A_CALL && HasEvent(LIKE_A_CALL[1]) && !Yields(LIKE_A_CALL[1], use.value)
  {
    OneUse("u1", "s", 1, "t", "Bash", categoryOf, "t");
    TwoLines(LIKE_A_CALL[0], LIKE_A_CALL[1], categoryOf, "t");
    assert "claude:" + "s" + ":toolcall:" + "t" == "claude:" + "s" + ":" + "toolcall:t";
  }

  const LIKE_A_CALL: seq<Decoded> := [
    UseLine("u1", "s", 1, "t", "Bash"), User(LineOf("toolcall:t", "s", 0, [], JNull), true)
  ]
}

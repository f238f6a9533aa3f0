/** A Codex agent thread, updated event by event
    (codexAgentThread, internal/normalize/codex/agent_relations.go). */
module CodexThreads {
  import opened Prelude
  import opened Folds

  function OutcomeRank(outcome: string): nat {
    if outcome in {"interrupted", "cancelled", "failed"} then 2
    else if outcome == "completed" then 1
    else 0
  }

  /** The outcome kept when `value` is reported. */
  function NextOutcome(kept: Option<string>, value: string): Option<string> {
    if value != "" && (kept.None? || OutcomeRank(value) > OutcomeRank(kept.value)) then Some(value) else kept
  }

  /** A finished operation: its id and duration. */
  datatype Operation = Operation(id: string, durationMs: Option<int>)

  class Thread {
    var id: string
    var parentId: string
    var traceId: string
    var retained: bool
    var outcome: Option<string>
    var operationCount: Option<int>
    var toolDuration: Option<int>
    var seenOperations: set<string>

    constructor (id: string)
      ensures this.id == id && parentId == traceId == "" && !retained
      ensures outcome == None && Ledger() == NO_OPERATIONS
    {
      this.id, parentId, traceId, retained := id, "", "", false;
      outcome, operationCount, toolDuration, seenOperations := None, None, None, {};
    }

    function Ledger(): Operations
      reads this
    {
      Operations(seenOperations, operationCount, toolDuration)
    }

    method SetOutcome(value: string)
      modifies this`outcome
      ensures outcome == NextOutcome(old(outcome), value)
    {
      if value == "" { return; }
      if outcome.None? || OutcomeRank(value) > OutcomeRank(outcome.value) {
        outcome := Some(value);
      }
    }

    method ObserveOperation(op: Operation)
      modifies this`seenOperations, this`operationCount, this`toolDuration
      ensures Ledger() == Observe(old(Ledger()), op)
    {
      if op.id == "" || op.id in seenOperations { return; }
      seenOperations := seenOperations + {op.id};
      if operationCount.None? {
        operationCount := Some(0);
      }
      operationCount := Some(operationCount.value + 1);
      if op.durationMs.Some? {
        toolDuration := AddOptional(toolDuration, op.durationMs);
      }
    }
  }

  datatype Operations = Operations(seen: set<string>, count: Option<int>, durationMs: Option<int>)

  const NO_OPERATIONS := Operations({}, None, None)

  function Observe(ops: Operations, op: Operation): Operations {
    if op.id == "" || op.id in ops.seen then ops
    else Operations(ops.seen + {op.id}, AddOptional(ops.count, Some(1)), AddOptional(ops.durationMs, op.durationMs))
  }

  // ---- outcomes over a whole run ----------------------------------------------

  function OutcomeAfter(values: seq<string>): Option<string> {
    if values == [] then None else NextOutcome(OutcomeAfter(values[..|values| - 1]), values[|values| - 1])
  }

  /** The outcome kept is the first reported among those of the greatest rank: a
      failure is never replaced by a later completion. */
  lemma {:induction false} FirstOfGreatestRank(values: seq<string>)
    ensures OutcomeAfter(values).None? <==> forall k :: 0 <= k < |values| ==> values[k] == ""
    ensures OutcomeAfter(values).Some? ==> exists k :: 0 <= k < |values| && Leads(values, k) && OutcomeAfter(values) == Some(values[k])
  {
    if values != [] {
      var front, last := values[..|values| - 1], values[|values| - 1];
      FirstOfGreatestRank(front);
      if OutcomeAfter(values) != OutcomeAfter(front) {
        assert Leads(values, |values| - 1);
      } else if OutcomeAfter(front).Some? {
        var k :| 0 <= k < |front| && Leads(front, k) && OutcomeAfter(front) == Some(front[k]);
        LeadKept(values, k);
      }
    }
  }

  lemma {:induction false} LeadKept(values: seq<string>, k: nat)
    requires k < |values| - 1 && Leads(values[..|values| - 1], k)
    requires NextOutcome(Some(values[k]), values[|values| - 1]) == Some(values[k])
    ensures Leads(values, k)
  {
    assert values[..|values| - 1][k] == values[k];
  }

  ghost predicate Leads(values: seq<string>, k: nat)
    requires k < |values|
  {
    && values[k] != ""
    && (forall j :: 0 <= j < k && values[j] != "" ==> OutcomeRank(values[j]) < OutcomeRank(values[k]))
    && forall j :: k < j < |values| && values[j] != "" ==> OutcomeRank(values[j]) <= OutcomeRank(values[k])
  }

  predicate IsFailure(value: string) { value == "interrupted" || value == "cancelled" || value == "failed" }
  predicate IsCompletion(value: string) { value == "completed" }
  predicate IsAny(value: string) { value != "" }

  function FirstWhere(values: seq<string>, wanted: string -> bool): Option<string> {
    if values == [] then None
    else
      var first := FirstWhere(values[..|values| - 1], wanted);
      if first.None? && wanted(values[|values| - 1]) then Some(values[|values| - 1]) else first
  }

  /** The first failure if one was reported, else the completion if one was, else the first
      word there was. */
  lemma {:induction false} OutcomeIsWorst(values: seq<string>)
    ensures FirstWhere(values, IsFailure).Some? ==> OutcomeAfter(values) == FirstWhere(values, IsFailure)
    ensures FirstWhere(values, IsFailure).None? && FirstWhere(values, IsCompletion).Some? ==>
              OutcomeAfter(values) == Some("completed")
    ensures FirstWhere(values, IsFailure).None? && FirstWhere(values, IsCompletion).None? ==>
              OutcomeAfter(values) == FirstWhere(values, IsAny)
  {
    if values != [] {
      OutcomeIsWorst(values[..|values| - 1]);
      FirstIsWanted(values[..|values| - 1], IsFailure);
      FirstIsWanted(values[..|values| - 1], IsCompletion);
      FirstIsWanted(values[..|values| - 1], IsAny);
      NoneIsWanted(values[..|values| - 1]);
    }
  }

  lemma {:induction false} FirstIsWanted(values: seq<string>, wanted: string -> bool)
    ensures FirstWhere(values, wanted).Some? ==> wanted(FirstWhere(values, wanted).value) && FirstWhere(values, wanted).value in values
    ensures FirstWhere(values, wanted).None? <==> forall v :: v in values ==> !wanted(v)
  {
    if values != [] {
      FirstIsWanted(values[..|values| - 1], wanted);
      assert values == values[..|values| - 1] + [values[|values| - 1]];
    }
  }

  lemma {:induction false} NoneIsWanted(values: seq<string>)
    ensures FirstWhere(values, IsAny).None? ==> FirstWhere(values, IsFailure).None? && FirstWhere(values, IsCompletion).None?
  {
    FirstIsWanted(values, IsAny);
    FirstIsWanted(values, IsFailure);
    FirstIsWanted(values, IsCompletion);
  }

  // ---- operations over a whole run --------------------------------------------

  function Observed(ops: seq<Operation>): Operations {
    if ops == [] then NO_OPERATIONS else Observe(Observed(ops[..|ops| - 1]), ops[|ops| - 1])
  }

  /** The first report of each operation id. */
  function FirstReports(ops: seq<Operation>): seq<Operation> {
    if ops == [] then []
    else
      var front, last := ops[..|ops| - 1], ops[|ops| - 1];
      if last.id == "" || exists op :: op in front && op.id == last.id then FirstReports(front)
      else FirstReports(front) + [last]
  }

  /** Each operation counts once, with the duration of its first report. */
  lemma {:induction false} OperationsCountOnce(ops: seq<Operation>)
    ensures var l, firsts := Observed(ops), FirstReports(ops);
            && l.seen == (set op | op in ops && op.id != "" :: op.id)
            && l.count == (if firsts == [] then None else Some(|l.seen|))
            && |firsts| == |l.seen|
            && l.durationMs == Fold(AddOptional, None, (op: Operation) => op.durationMs, firsts)
  {
    SeenAreReported(ops);
    FirstsAreCounted(ops);
  }

  lemma {:induction false} SeenAreReported(ops: seq<Operation>)
    ensures forall id :: id in Observed(ops).seen <==> id != "" && Reported(ops, id)
    ensures Observed(ops).seen == set op | op in ops && op.id != "" :: op.id
  {
    if ops != [] {
      var front, last := ops[..|ops| - 1], ops[|ops| - 1];
      SeenAreReported(front);
      assert forall op :: op in ops <==> op in front || op == last;
      forall id ensures Reported(ops, id) <==> Reported(front, id) || last.id == id {}
    }
  }

  ghost predicate Reported(ops: seq<Operation>, id: string) {
    exists op :: op in ops && op.id == id
  }

  lemma {:induction false} FirstsAreCounted(ops: seq<Operation>)
    ensures var l, firsts := Observed(ops), FirstReports(ops);
            && l.count == (if firsts == [] then None else Some(|firsts|))
            && |firsts| == |l.seen|
            && l.durationMs == Fold(AddOptional, None, (op: Operation) => op.durationMs, firsts)
  {
    if ops != [] {
      var front, last := ops[..|ops| - 1], ops[|ops| - 1];
      FirstsAreCounted(front);
      SeenAreReported(front);
      assert last.id in Observed(front).seen <==> last.id != "" && Reported(front, last.id);
      var firsts := FirstReports(front);
      assert (firsts + [last])[..|firsts|] == firsts;
    }
  }
}

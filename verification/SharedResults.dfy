/** The "record" marker of a record-scoped result, and the result it stands beside
    (attachRecordResult, internal/normalize/claude/jsonl_toolcalls.go). */
module SharedResults {
  import opened Prelude
  import opened Residual
  import opened ToolCalls
  import opened Transcript
  import opened TranscriptIds

  lemma {:induction false} ResultsKeepMarkers(s: State, steps: seq<Step>, id: string)
    requires id in s.calls && forall step :: step in steps ==> step.Result?
    ensures id in Run(s, steps).calls && Run(s, steps).calls[id].shared == s.calls[id].shared
  {
    if steps != [] {
      ResultsKeepMarkers(s, steps[..|steps| - 1], id);
    }
  }

  /** The line carries a record-scoped result, and its first result block is for `id`. */
  ghost predicate ResultsFor(line: Line, id: string) {
    && line.blocks.Some? && !line.toolUseResult.JNull?
    && FilterMap(ResultId, line.blocks.value) != [] && FilterMap(ResultId, line.blocks.value)[0] == id
  }

  lemma {:induction false} LineAttaches(s: State, line: Line, id: string)
    requires ResultsFor(line, id) && id in s.calls
    ensures var c := Run(s, ResultSteps(line)).calls;
            && id in c && c[id].resultMeta == line.toolUseResult
            && (c[id].shared <==> s.calls[id].shared || |FilterMap(ResultId, line.blocks.value)| > 1)
  {
    var results, ids := Pairings(line, line.blocks.value), FilterMap(ResultId, line.blocks.value);
    forall step | step in results ensures step.Result? {
      FilterMapMember((b: Block) => ResultStep(line, b), line.blocks.value, step);
    }
    ResultsKeepMarkers(s, results, id);
    RunSnoc(s, results, Attach(line.toolUseResult, ids));
    AttachToFirst(Run(s, results), line.toolUseResult, ids);
  }

  /** Any transcript that goes on with a user line of several results, and then one whose
      only result is for the same call, leaves that call with its own result marked as
      shared. */
  lemma {:induction false} SharedMarkerOutlivesItsResult(
      decoded: seq<Decoded>, both: Decoded, own: Decoded, categoryOf: string -> Category, id: string)
    requires id in CallsAfter(decoded, categoryOf).calls && both.User? && own.User?
    requires ResultsFor(both.line, id) && |FilterMap(ResultId, both.line.blocks.value)| > 1
    requires ResultsFor(own.line, id) && |FilterMap(ResultId, own.line.blocks.value)| == 1
    ensures var c := CallsAfter(decoded + [both] + [own], categoryOf).calls;
            id in c && c[id].resultMeta == own.line.toolUseResult && c[id].shared
  {
    CallsSnoc(decoded, both, categoryOf);
    CallsSnoc(decoded + [both], own, categoryOf);
    LineAttaches(CallsAfter(decoded, categoryOf), both.line, id);
    LineAttaches(CallsAfter(decoded + [both], categoryOf), own.line, id);
  }

  // ---- four lines -------------------------------------------------------------

  const USES_A: Decoded := UseLine("u1", "s", 0, "a", "Read")
  const USES_B: Decoded := UseLine("u2", "s", 1, "b", "Read")
  const BOTH_RESULTS: Decoded :=
    User(LineOf("u3", "s", 2, [ToolResult("a", JNull, None), ToolResult("b", JNull, None)], JStr("both")), true)
  const OWN_RESULT: Decoded := User(LineOf("u4", "s", 3, [ToolResult("a", JNull, None)], JStr("own")), true)

  /** Two calls, a line with both results, and one with the first call's own. */
  lemma {:induction false} MarkerOutlivesOnFourLines(categoryOf: string -> Category)
    ensures var c := CallsAfter([USES_A, USES_B, BOTH_RESULTS, OWN_RESULT], categoryOf).calls;
            "a" in c && c["a"].resultMeta == JStr("own") && c["a"].shared
  {
    ResultsOfLines();
    FirstLinesCall(categoryOf);
    SharedMarkerOutlivesItsResult([USES_A, USES_B], BOTH_RESULTS, OWN_RESULT, categoryOf, "a");
    assert [USES_A, USES_B] + [BOTH_RESULTS] + [OWN_RESULT] == [USES_A, USES_B, BOTH_RESULTS, OWN_RESULT];
  }

  lemma {:induction false} ResultsOfLines()
    ensures ResultsFor(BOTH_RESULTS.line, "a") && |FilterMap(ResultId, BOTH_RESULTS.line.blocks.value)| > 1
    ensures ResultsFor(OWN_RESULT.line, "a") && |FilterMap(ResultId, OWN_RESULT.line.blocks.value)| == 1
  {
    assert "a"[0] in "a" && "b"[0] in "b";
    FilterMapTwo(ResultId, BOTH_RESULTS.line.blocks.value[0], BOTH_RESULTS.line.blocks.value[1]);
    OneResult(OWN_RESULT.line.blocks.value);
  }

  lemma {:induction false} FirstLinesCall(categoryOf: string -> Category)
    ensures "a" in CallsAfter([USES_A, USES_B], categoryOf).calls
  {
    OneUse("u1", "s", 0, "a", "Read", categoryOf, "a");
    TwoLines(USES_A, USES_B, categoryOf, "a");
    CallsAreLastUses([USES_A, USES_B], categoryOf, "a");
  }

  lemma {:induction false} OneResult(blocks: seq<Block>)
    requires |blocks| == 1 && ResultId(blocks[0]).Some?
    ensures FilterMap(ResultId, blocks) == [ResultId(blocks[0]).value]
  {
    FilterMapStep(ResultId, blocks, 0);
    assert blocks[..1] == blocks && blocks[..0] == [];
  }
}

/** Which records leave no raw echo: the fields that have typed homes, by name
    (internal/normalize/claude/jsonl_residual.go). */
module TypedRecords {
  import opened Prelude
  import opened Residual
  import opened ResidualLeaves
  import opened TypedHomes

  // ---- the fields, by name ----------------------------------------------------

  const PLAIN_FIELDS := {
    "type", "cwd", "gitBranch", "entrypoint", "userType", "requestId", "effort", "permissionMode", "promptSource",
    "turnOrigin"
  }
  const ID_FIELDS := {"uuid", "parentUuid", "promptId", "sessionId"}
  const TOKEN_FIELDS := {"input_tokens", "output_tokens", "cache_read_input_tokens", "cache_creation_input_tokens"}

  /** A field of the record itself that is stored as it stands. */
  ghost predicate EnvelopeTyped(clock: Clock, k: string, v: Raw) {
    || (k in PLAIN_FIELDS && v.JStr? && v.s != "")
    || (k in ID_FIELDS && v.JStr? && v.s != "" && TrimSpace(v.s) == v.s)
    || (k == "timestamp" && StoredTimestamp(clock, v))
    || (k == "version" && v.JStr? && !Blank(v.s))
    || (k == "apiBlockIndex" && StoredInteger(v))
    || (k == "isSidechain" && v.JBool?)
    || (k == "toolUseResult" && !v.JNull?)
  }

  ghost predicate Fully(v: Raw, typed: (string, Raw) -> bool) {
    v.JObj? && v.fields != map[] && forall k :: k in v.fields ==> typed(k, v.fields[k])
  }

  ghost predicate Counts(v: Raw, keys: set<string>) {
    v.JObj? && v.fields != map[] && forall k :: k in v.fields ==> k in keys && StoredInteger(v.fields[k])
  }

  ghost predicate UsageTyped(v: Raw) {
    Fully(v, UsageFieldTyped)
  }

  ghost predicate UsageFieldTyped(k: string, v: Raw) {
    || (k in TOKEN_FIELDS && StoredInteger(v))
    || (k == "output_tokens_details" && Counts(v, {"thinking_tokens"}))
    || (k == "cache_creation" && Counts(v, {"ephemeral_1h_input_tokens", "ephemeral_5m_input_tokens"}))
  }

  predicate NonEmptyText(v: Raw) { v.JStr? && v.s != "" }

  predicate VisibleText(v: Raw) { v.JStr? && !Blank(v.s) }

  /** A content block whose type and fields are all typed. */
  ghost predicate BlockTyped(v: Raw, blockType: string, required: string, typed: (string, Raw) -> bool) {
    && v.JObj? && HasKey(v.fields, "type") == Some(JStr(blockType)) && required in v.fields
    && forall k :: k in v.fields && k != "type" ==> typed(k, v.fields[k])
  }

  predicate TextField(k: string, v: Raw) { k == "text" && VisibleText(v) }

  predicate ThinkingField(k: string, v: Raw) { k == "thinking" && VisibleText(v) }

  predicate ToolUseField(k: string, v: Raw) {
    (k == "id" && VisibleText(v)) || (k == "name" && NonEmptyText(v)) || (k == "input" && !v.JNull?)
  }

  predicate ToolResultField(k: string, v: Raw) {
    (k == "tool_use_id" && VisibleText(v)) || (k == "content" && !v.JNull?) || (k == "is_error" && v.JBool?)
  }

  ghost predicate TextTyped(v: Raw) { BlockTyped(v, "text", "text", TextField) }

  ghost predicate ThinkingTyped(v: Raw) { BlockTyped(v, "thinking", "thinking", ThinkingField) }

  ghost predicate ToolUseTyped(v: Raw) { BlockTyped(v, "tool_use", "id", ToolUseField) }

  ghost predicate ToolResultTyped(v: Raw) { BlockTyped(v, "tool_result", "tool_use_id", ToolResultField) }

  ghost predicate AssistantBlockTyped(v: Raw) { TextTyped(v) || ThinkingTyped(v) || ToolUseTyped(v) }

  ghost predicate UserBlockTyped(v: Raw) { TextTyped(v) || ToolResultTyped(v) }

  ghost predicate AllBlocks(v: Raw, typed: Raw -> bool) {
    v.JArr? && v.items != [] && forall i :: 0 <= i < |v.items| ==> typed(v.items[i])
  }

  ghost predicate AssistantMessageField(k: string, v: Raw) {
    || (k in {"id", "stop_reason"} && NonEmptyText(v))
    || (k == "model" && v.JStr? && v.s != "" && TrimSpace(v.s) == v.s)
    || (k == "usage" && UsageTyped(v))
    || (k == "content" && AllBlocks(v, AssistantBlockTyped))
  }

  ghost predicate UserMessageField(k: string, v: Raw) {
    || (k in {"id", "stop_reason"} && NonEmptyText(v))
    || (k == "content" && (VisibleText(v) || AllBlocks(v, UserBlockTyped)))
  }

  ghost predicate ResultMessageField(k: string, v: Raw) {
    k == "content" && AllBlocks(v, ToolResultTyped)
  }

  ghost predicate ResultField(k: string, v: Raw) {
    (k == "toolUseResult" && !v.JNull?) || (k == "message" && Fully(v, ResultMessageField))
  }

  ghost predicate AssistantTyped(clock: Clock, record: Raw) {
    Fully(record, (k: string, v: Raw) =>
      EnvelopeTyped(clock, k, v) || (k == "message" && Fully(v, AssistantMessageField)))
  }

  ghost predicate UserTyped(clock: Clock, record: Raw) {
    Fully(record, (k: string, v: Raw) =>
      EnvelopeTyped(clock, k, v) || (k == "message" && Fully(v, UserMessageField)))
  }

  ghost predicate ResultTyped(record: Raw) {
    Fully(record, ResultField)
  }

  // ---- they are the tables' ---------------------------------------------------

  /** A table whose rules take a field exactly when it is typed. */
  ghost predicate TableFor(rules: map<string, Rule>, v: Raw, typed: (string, Raw) -> bool)
    requires v.JObj?
  {
    forall k :: k in v.fields ==> (k in rules && Taken(rules[k], v.fields[k]) <==> typed(k, v.fields[k]))
  }

  lemma {:induction false} TableTakes(rules: map<string, Rule>, v: Raw, typed: (string, Raw) -> bool)
    requires v.JObj? ==> TableFor(rules, v, typed)
    ensures Taken(Object(rules), v) <==> Fully(v, typed)
  {}

  lemma {:induction false} EnvelopeIsTyped(clock: Clock, k: string, v: Raw)
    ensures k in EnvelopeRules(clock) && Taken(EnvelopeRules(clock)[k], v) <==> EnvelopeTyped(clock, k, v)
  {}

  lemma {:induction false} CountsAreTyped(clock: Clock, rules: map<string, Rule>, v: Raw)
    requires forall k :: k in rules ==> rules[k] == Typed(clock, Integer)
    ensures Taken(Object(rules), v) <==> Counts(v, rules.Keys)
  {
    if v.JObj? {
      forall k | k in v.fields && k in rules ensures Taken(rules[k], v.fields[k]) <==> StoredInteger(v.fields[k]) {
        ScalarIsTyped(clock, Integer, v.fields[k]);
      }
    }
  }

  lemma {:induction false} ScalarIsTyped(clock: Clock, kind: Kind, v: Raw)
    ensures Taken(Typed(clock, kind), v) <==> StoredBy(clock, kind, v)
  {}

  lemma {:induction false} UsageIsTyped(clock: Clock, v: Raw)
    ensures Taken(UsageRules(clock), v) <==> UsageTyped(v)
  {
    var count := Typed(clock, Integer);
    var details := map["thinking_tokens" := count];
    var creation := map["ephemeral_1h_input_tokens" := count, "ephemeral_5m_input_tokens" := count];
    assert details.Keys == {"thinking_tokens"};
    assert creation.Keys == {"ephemeral_1h_input_tokens", "ephemeral_5m_input_tokens"};
    var rules := map[
      "input_tokens" := count, "output_tokens" := count,
      "cache_read_input_tokens" := count, "cache_creation_input_tokens" := count,
      "output_tokens_details" := Object(details), "cache_creation" := Object(creation)];
    if v.JObj? {
      forall k | k in v.fields ensures k in rules && Taken(rules[k], v.fields[k]) <==> UsageFieldTyped(k, v.fields[k]) {
        ScalarIsTyped(clock, Integer, v.fields[k]);
        CountsAreTyped(clock, details, v.fields[k]);
        CountsAreTyped(clock, creation, v.fields[k]);
      }
      TableTakes(rules, v, UsageFieldTyped);
    }
    assert UsageRules(clock) == Object(rules);
  }

  /** A block of a type whose rules take a field exactly when it is typed. */
  lemma {:induction false} BlockIsTyped(
      blocks: map<string, map<string, Rule>>, v: Raw, blockType: string, required: string, typed: (string, Raw) -> bool)
    requires v.JObj? && HasKey(v.fields, "type") == Some(JStr(blockType)) && blockType in blocks && required != "type"
    requires Admitted(blocks, v) <==> KeyTaken(blocks[blockType], v, required)
    requires TableFor(blocks[blockType], v, typed)
    ensures BlockTaken(blocks, v) <==> BlockTyped(v, blockType, required, typed)
  {}

  lemma {:induction false} TextIsTyped(clock: Clock, blocks: map<string, map<string, Rule>>, v: Raw)
    requires HasKey(blocks, "text") == Some(map["text" := Typed(clock, NonBlank)])
    requires v.JObj? && HasKey(v.fields, "type") == Some(JStr("text"))
    ensures BlockTaken(blocks, v) <==> TextTyped(v)
  {
    BlockIsTyped(blocks, v, "text", "text", TextField);
  }

  lemma {:induction false} ThinkingIsTyped(clock: Clock, blocks: map<string, map<string, Rule>>, v: Raw)
    requires HasKey(blocks, "thinking") == Some(map["thinking" := Typed(clock, NonBlank)])
    requires v.JObj? && HasKey(v.fields, "type") == Some(JStr("thinking"))
    ensures BlockTaken(blocks, v) <==> ThinkingTyped(v)
  {
    BlockIsTyped(blocks, v, "thinking", "thinking", ThinkingField);
  }

  lemma {:induction false} ToolUseIsTyped(clock: Clock, blocks: map<string, map<string, Rule>>, v: Raw)
    requires HasKey(blocks, "tool_use")
             == Some(map["id" := Typed(clock, NonBlank), "name" := Typed(clock, NonEmpty), "input" := Typed(clock, Body)])
    requires v.JObj? && HasKey(v.fields, "type") == Some(JStr("tool_use"))
    ensures BlockTaken(blocks, v) <==> ToolUseTyped(v)
  {
    BlockIsTyped(blocks, v, "tool_use", "id", ToolUseField);
  }

  lemma {:induction false} ToolResultIsTyped(clock: Clock, blocks: map<string, map<string, Rule>>, v: Raw)
    requires HasKey(blocks, "tool_result") == Some(ToolResultBlock(clock))
    requires v.JObj? && HasKey(v.fields, "type") == Some(JStr("tool_result"))
    ensures BlockTaken(blocks, v) <==> ToolResultTyped(v)
  {
    BlockIsTyped(blocks, v, "tool_result", "tool_use_id", ToolResultField);
  }

  lemma {:induction false} BlocksAreTyped(blocks: map<string, map<string, Rule>>, stringTyped: bool, v: Raw, typed: Raw -> bool)
    requires v.JArr? ==> forall i :: 0 <= i < |v.items| ==> (BlockTaken(blocks, v.items[i]) <==> typed(v.items[i]))
    ensures Taken(Content(stringTyped, blocks), v) <==> (stringTyped && VisibleText(v)) || AllBlocks(v, typed)
  {}

  lemma {:induction false} AssistantBlockIsTyped(clock: Clock, v: Raw)
    ensures BlockTaken(AssistantBlocks(clock), v) <==> AssistantBlockTyped(v)
  {
    var blocks := AssistantBlocks(clock);
    if v.JObj? && "type" in v.fields && v.fields["type"].JStr? && v.fields["type"].s in blocks {
      if v.fields["type"].s == "text" {
        TextIsTyped(clock, blocks, v);
      } else if v.fields["type"].s == "thinking" {
        ThinkingIsTyped(clock, blocks, v);
      } else {
        ToolUseIsTyped(clock, blocks, v);
      }
    }
  }

  lemma {:induction false} UserBlockIsTyped(clock: Clock, v: Raw)
    ensures BlockTaken(UserBlocks(clock), v) <==> UserBlockTyped(v)
  {
    var blocks := UserBlocks(clock);
    if v.JObj? && "type" in v.fields && v.fields["type"].JStr? && v.fields["type"].s in blocks {
      if v.fields["type"].s == "text" {
        TextIsTyped(clock, blocks, v);
      } else {
        ToolResultIsTyped(clock, blocks, v);
      }
    }
  }

  lemma {:induction false} ResultBlockIsTyped(clock: Clock, v: Raw)
    ensures BlockTaken(ResultBlocks(clock), v) <==> ToolResultTyped(v)
  {
    var blocks := ResultBlocks(clock);
    if v.JObj? && "type" in v.fields && v.fields["type"].JStr? && v.fields["type"].s in blocks {
      ToolResultIsTyped(clock, blocks, v);
    }
  }

  lemma {:induction false} AssistantMessageIsTyped(clock: Clock, v: Raw)
    ensures Taken(Object(AssistantMessage(clock)), v) <==> Fully(v, AssistantMessageField)
  {
    var rules := AssistantMessage(clock);
    if v.JObj? {
      forall k | k in v.fields ensures k in rules && Taken(rules[k], v.fields[k]) <==> AssistantMessageField(k, v.fields[k]) {
        var x := v.fields[k];
        ScalarIsTyped(clock, NonEmpty, x);
        ScalarIsTyped(clock, Trimmed, x);
        UsageIsTyped(clock, x);
        if x.JArr? {
          forall i | 0 <= i < |x.items|
            ensures BlockTaken(AssistantBlocks(clock), x.items[i]) <==> AssistantBlockTyped(x.items[i])
          {
            AssistantBlockIsTyped(clock, x.items[i]);
          }
        }
        BlocksAreTyped(AssistantBlocks(clock), false, x, AssistantBlockTyped);
      }
      TableTakes(rules, v, AssistantMessageField);
    }
  }

  lemma {:induction false} UserMessageIsTyped(clock: Clock, v: Raw)
    ensures Taken(Object(UserMessage(clock)), v) <==> Fully(v, UserMessageField)
  {
    var rules := UserMessage(clock);
    if v.JObj? {
      forall k | k in v.fields ensures k in rules && Taken(rules[k], v.fields[k]) <==> UserMessageField(k, v.fields[k]) {
        var x := v.fields[k];
        ScalarIsTyped(clock, NonEmpty, x);
        if x.JArr? {
          forall i | 0 <= i < |x.items| ensures BlockTaken(UserBlocks(clock), x.items[i]) <==> UserBlockTyped(x.items[i]) {
            UserBlockIsTyped(clock, x.items[i]);
          }
        }
        BlocksAreTyped(UserBlocks(clock), true, x, UserBlockTyped);
      }
      TableTakes(rules, v, UserMessageField);
    }
  }

  lemma {:induction false} RecordIsTyped(
      clock: Clock, rules: map<string, Rule>, record: Raw, message: map<string, Rule>,
      field: (string, Raw) -> bool, typed: (string, Raw) -> bool)
    requires rules == EnvelopeRules(clock)["message" := Object(message)]
    requires forall v: Raw :: Taken(Object(message), v) <==> Fully(v, field)
    requires forall k, v :: typed(k, v) <==> EnvelopeTyped(clock, k, v) || (k == "message" && Fully(v, field))
    ensures Taken(Object(rules), record) <==> Fully(record, typed)
  {
    if record.JObj? {
      forall k | k in record.fields ensures k in rules && Taken(rules[k], record.fields[k]) <==> typed(k, record.fields[k]) {
        EnvelopeIsTyped(clock, k, record.fields[k]);
      }
      TableTakes(rules, record, typed);
    }
  }

  /** An assistant record leaves no raw echo exactly when all its fields are typed. */
  lemma {:induction false} AssistantLeavesNothing(clock: Clock, record: Raw)
    ensures Reduce(AssistantRules(clock), record) == None <==> AssistantTyped(clock, record)
  {
    NothingLeft(AssistantRules(clock), record);
    forall v: Raw ensures Taken(Object(AssistantMessage(clock)), v) <==> Fully(v, AssistantMessageField) {
      AssistantMessageIsTyped(clock, v);
    }
    var typed := (k: string, v: Raw) => EnvelopeTyped(clock, k, v) || (k == "message" && Fully(v, AssistantMessageField));
    RecordIsTyped(clock, AssistantRules(clock).rules, record, AssistantMessage(clock), AssistantMessageField, typed);
  }

  lemma {:induction false} UserLeavesNothing(clock: Clock, record: Raw)
    ensures Reduce(UserRules(clock), record) == None <==> UserTyped(clock, record)
  {
    NothingLeft(UserRules(clock), record);
    forall v: Raw ensures Taken(Object(UserMessage(clock)), v) <==> Fully(v, UserMessageField) {
      UserMessageIsTyped(clock, v);
    }
    var typed := (k: string, v: Raw) => EnvelopeTyped(clock, k, v) || (k == "message" && Fully(v, UserMessageField));
    RecordIsTyped(clock, UserRules(clock).rules, record, UserMessage(clock), UserMessageField, typed);
  }

  lemma {:induction false} ResultLeavesNothing(clock: Clock, record: Raw)
    ensures Reduce(ResultRecordRules(clock), record) == None <==> ResultTyped(record)
  {
    NothingLeft(ResultRecordRules(clock), record);
    var rules := ResultRecordRules(clock).rules;
    if record.JObj? {
      forall k | k in record.fields ensures k in rules && Taken(rules[k], record.fields[k]) <==> ResultField(k, record.fields[k]) {
        ScalarIsTyped(clock, Body, record.fields[k]);
        ResultMessageIsTyped(clock, record.fields[k]);
      }
      TableTakes(rules, record, ResultField);
    }
  }

  lemma {:induction false} ResultMessageIsTyped(clock: Clock, v: Raw)
    ensures Taken(Object(ResultMessage(clock)), v) <==> Fully(v, ResultMessageField)
  {
    var rules := ResultMessage(clock);
    if v.JObj? {
      forall k | k in v.fields ensures k in rules && Taken(rules[k], v.fields[k]) <==> ResultMessageField(k, v.fields[k]) {
        var x := v.fields[k];
        if x.JArr? {
          forall i | 0 <= i < |x.items| ensures BlockTaken(ResultBlocks(clock), x.items[i]) <==> ToolResultTyped(x.items[i]) {
            ResultBlockIsTyped(clock, x.items[i]);
          }
        }
        BlocksAreTyped(ResultBlocks(clock), false, x, ToolResultTyped);
      }
      TableTakes(rules, v, ResultMessageField);
    }
  }
}

# TelemetryIQ: a verified model

TelemetryIQ turns provider telemetry into canonical events and derives trees, timelines,
verdicts and costs from them. This project models the algorithms behind those views in
Dafny and proves what they promise. `dafny verify dfyconfig.toml` checks all of it.

## What is modelled

- **The thin insight index.** `Canonical` has the events and their JSON payloads, `Signals`
  what each engine reads off one event, `ThinEvent`, `ThinContents` and `ThinAssembly` the thin copy,
  `SourceEvents` the code that builds it on heap maps, and `ThinIndex`, `ThinTokens`,
  `ThinPolicy`, `ThinIntegrations` and `ThinPrompts` the theorems: the engines (`SkillUsage`,
  `ContextWaste`, `McpInventory`, `ModelPerformance`, `DeltaRows`, `Percentile`,
  `GovernanceStates`, `IntegrationStates`, `LatestStates`, `UnapprovedSkills`) answer alike
  on the index and on the full events. Where they do not, the exact condition and a concrete
  event are given.
- **Readings.** `EventReadings` and `MetricReadings` say, key by key, what each insight reads
  off one event.
- **Report order.** `SortedRows` says when a report over a map is the same list every time;
  `McpTies`, `SummaryTies` and `Scorecards` read that off the events, and `Scorecards` also
  has what a card counts, its rates and the ranking.
- **The duration breakdown** (`Breakdown`): the interval sweep is exact, and rounding to
  milliseconds loses nothing.
- **Agent trees** (`ParentWalk`, `AgentTree`, `AgentParents`), and the reconstructions that
  feed them from Claude spans (`SubAgents`, `SubAgentRelations`, `SubAgentReconstruction`,
  `SubAgentReadings`) and Codex threads (`CodexThreads`, `CodexRoots`).
- **Path rules** (`PathGlob`): the backtracking matcher against a declared pattern language.
- **Paging**: the page-collecting loop as a reader of a changing store (`Paging`), and the
  span projection with its pages and cursors (`SpanProjection`, `SpanPaging`).
- **Transcript import**: the residual echo (`Residual`, `TypedHomes`, `ResidualLeaves`,
  `TypedRecords`), the pairing of tool uses and results (`ToolCalls`, `SharedResults`), the
  walk and what it emits (`Transcript`, `TranscriptCalls`, `TranscriptIds`), and what a
  longer transcript emits again (`TranscriptGrowth`).
- **Money and policies** (`Cost`, `PromptKeywords`, `KeywordFindings`, `RiskyAccess`,
  `AccessFindings`).

`Prelude`, `Ordering`, `Folds` and `IdLists` hold the shared vocabulary: trimming,
filtering, Go's string order, stable sorting, order-free folds, id lists without repeats.

## How to read it

- A function that the code runs and a specification shares is stated a second time, by
  lemmas that name the fields, keys and cases of the source and not the function.
- Code that updates state is a method, or a class where the source mutates through
  pointers, and its `ensures` ties it to a specification function or predicate. The lemmas
  then say what the specification means. A Go map traversal takes any key that is left, so
  what is proved holds for every order.
- Times are integers (nanoseconds), floats are reals, integers are unbounded, and a JSON
  number in a transcript keeps its text. The keys the code names are constructors of
  `Canonical.Key`; every other key is `Other`.
- A map key that Go joins with NUL is a tuple, except where the separator matters: the
  skill coverage surface, which is read back, the skill findings and the spans. Sort keys
  are the joined texts throughout.
- Text parsing, number scanning, regular expressions, path and command classification and
  the rendering of dimensions are function parameters: the theorems hold for all of them.
- Where a loop of the source is long, part of its body is a method of its own
  (`AgentTree.SettleFrom`, `Breakdown.BookSegment`, `ToolCalls.ToolCallCollector.PairResults`).

## What does not hold, and exactly when

- `internal/normalize/claude/jsonl_toolcalls.go:98-104` says the result scope is empty
  when the record-scoped result is unambiguously the call's own. The marker is never
  cleared, so it can outlive the shared result it was set for
  (`SharedResults.MarkerOutlivesOnFourLines`; exactly when it is right,
  `ToolCalls.ScopeIsRightUnlessSharedBefore`).
- `internal/normalize/claude/jsonl.go:149-163` gives each call an event of its own, whose
  id (`jsonl_toolcalls.go:334-335`, `jsonl_mcp.go:22-23`) joins session, kind and tool_use
  id. Ids of two sessions, or of a record and a call, can coincide, and then collapsing
  drops a call's event (`TranscriptIds.SessionsCollide`, `TranscriptIds.RecordHidesCall`;
  exactly when, `TranscriptIds.OneEventPerCall`).
- A tool_use id used again for a tool of the other kind, MCP or not, moves its call's event
  to another id, so a longer transcript need not emit every id again
  (`TranscriptGrowth.ReuseLosesId`; exactly when it does,
  `TranscriptGrowth.LongerTranscriptsKeepIds`, `TranscriptGrowth.ApartSessionsKeepIds`).
- Output and cache-creation tokens of an event with no other token signal are not in the
  thin index (`ThinTokens.OutputOnlyIsLost`, `ThinTokens.CacheCreationIsLost`; exactly when
  the columns agree, `ThinTokens.McpTokensAgree`), and the skill policy on the index may be
  less certain than on the events (`ThinPolicy.QuietSurfaceUnsettlesPolicy`,
  `ThinPolicy.SkillPolicyAgrees`). An integration known only from an MCP block on an event
  that is no MCP call is lost too (`ThinIntegrations.StrayCallIsLost`,
  `ThinIntegrations.IntegrationsAgree`). Codex prompts lose their text, so the keyword policy
  can miss a match on the index (`ThinPrompts.CodexPromptIsLost`; exactly when the prompts
  agree, `ThinPrompts.PromptsAgree`).
- `internal/insights/model_performance.go:206-208` leaves the metric family out of the
  summary key, so a delta row has the family of its first sample
  (`DeltaRows.FirstFamilyStays`, `DeltaRows.EventOrderShows`).
- The sorts of the MCP servers (`internal/insights/mcp.go:122-124`) and of the metric
  summaries (`internal/insights/model_performance.go:172-176`) can tie on different rows,
  whose order then follows map order (`McpTies.NamelessServersTie`,
  `McpTies.JoinedNamesTie`, `SummaryTies.UnitsTie`; exactly when,
  `McpTies.InventoryIsDetermined`, `SummaryTies.SummariesAreDetermined`). So can the skill
  records (`internal/insights/skill.go:146-154`) and the scorecards
  (`internal/insights/model_performance.go:375-378`) where a name holds a NUL
  (`SkillUsage.SeparatorsTie`; exactly when, `SkillUsage.SkillsAreDetermined`,
  `Scorecards.ScorecardsAreDetermined`).
- The points of a session are sorted by time and event id, unstably
  (`internal/insights/context_waste.go:112-117`). Where one event id is reported twice with
  different input counts, either may come first, and the growth with it
  (`ContextWaste.RepeatedEventsTie`; exactly when not, `ContextWaste.WasteIsDetermined`).
- Spans are collected under trace and span id joined with NUL
  (`internal/spans/projection.go:62`): spans whose ids hold a NUL can share a record
  (`SpanProjection.SeparatorsMergeSpans`; exactly when, `SpanProjection.OneRecordPerSpan`).

## Model

| member | source | states |
|---|---|---|
| `SourceEvents.SourceEventsFromSession` | internal/insights/source_events.go:14-50 | On heap maps: the session's events show what they did before the call; every map of the index is made by the call, top-level and nested, but for the outcome contract and the skill detection, which are held by an event of the session; and the contents are a thin index of the events (some visiting order of the surfaces). |
| `SourceEvents.ThinInsightEvent` | internal/insights/source_events.go:52-87 | The copy built key by key through the copy helpers has the attributes and extensions of the specified thin event; it is kept exactly when some engine needs it; the original is unchanged, and the copy shares with it only the outcome contract and the skill detection. |
| `SourceEvents.CopyMCPInsightEvidence` | internal/insights/source_events.go:101-119 | What the MCP helper puts on the copy, case by case, and that it leaves the original and everything else on the copy alone. |
| `SourceEvents.CopyGovernanceStateEvidence` | internal/insights/source_events.go:143-164 | The policy and recovery keys carried, the governance block cloned, and kept exactly when the event has governance evidence. |
| `SourceEvents.MergeTokenEventExtension` | internal/insights/source_events.go:236-249 | The token keys of the event echo join the thin echo if there is one, start one only if there is something to keep, and never touch the original's nested map. |
| `ThinAssembly.AssemblyIsThin` | internal/insights/source_events.go:52-87 | Running the helpers in the source's order, where several write under the same key, builds key by key the extensions of the declared thin event. |
| `ThinEvent.ThinKeepsSkill` | internal/insights/source_events.go:208-223 | A thin copy keeps the detection state, the skill invocation and the policy signal of its event. |
| `ThinEvent.ThinKeepsMcp` | internal/insights/source_events.go:101-119 | A thin copy keeps the MCP connection or use its event reports. |
| `ThinEvent.ThinKeepsTokens` | internal/insights/source_events.go:225-249 | A thin copy keeps the input and cached token signals of its event. |
| `ThinEvent.ThinKeepsGovernance` | internal/insights/source_events.go:143-164 | A thin copy keeps every governance state of its event. |
| `ThinContents.KeptIsStated` | internal/insights/source_events.go:52-87 | An event is on the index exactly if it connects to or calls an MCP server, has an outcome, a metric or a skill detection, is a Claude prompt, counts tokens, or reports an integration or a policy. |
| `ThinContents.AttributesAreStated` | internal/insights/source_events.go:89-249 | The attributes of a thin copy, key by key: which are carried and for what reason, with their values, and no others. |
| `ThinContents.BlocksAreStated` | internal/insights/source_events.go:89-249 | Which blocks are kept whole, and exactly when. |
| `ThinContents.KeysAreStated` | internal/insights/source_events.go:89-249 | Which keys are kept of the echo, transcript and correlation blocks: the body and id of a Claude prompt, the counts of an event with tokens, and no others. |
| `ThinContents.NothingElseIsKept` | internal/insights/source_events.go:52-87 | Nothing is kept under any other key, nor the actor, device, task or repository of the event. |
| `ThinIndex.IndexKeepsSignals` | internal/insights/source_events.go:14-50 | For every event list and every visiting order, each engine's per-event reader yields the same list on the index as on the events: dropped events and coverage markers are silent. |
| `ThinIndex.ContextWasteAgrees` | internal/insights/context_waste.go:72-137 | The context-waste reports possible on the index are those possible on the events; where the report is determined, it is one list. |
| `ThinIndex.ModelPerformanceAgrees` | internal/insights/model_performance.go:91-107 | Outcome scorecards and metric rows on the index equal those on the events. |
| `ThinIndex.GovernanceStatesAgree` | internal/insights/governance_states.go:26-32 | Any governance report on the index is the same list as any report on the events. |
| `ThinIndex.SkillUsageAgrees` | internal/insights/skill.go:87-127 | Invocation counts, covered surfaces and their states agree on index and events; whole coverage rows agree when no provider name holds the NUL the surface key is joined with. |
| `ThinIndex.McpInventoryAgrees` | internal/insights/mcp.go:79-128 | Every MCP column but the request token columns agrees on index and events. |
| `ThinIndex.MarkerIsStated` | internal/insights/source_events.go:30-48 | A coverage marker shows its surface's provider and tool, the state by name, and session, schema, privacy level and times of the first event. |
| `ThinTokens.RequestTokensOfThin` | internal/insights/mcp.go:280-293 | Input and cached input of one event survive thinning as they were; of output, what stands beside one of them or what a connection echoes; of cache creation, what stands beside one of them or on a connection. |
| `ThinTokens.McpTokensAgree` | internal/insights/mcp.go:280-302 | The input and cached input columns of a session agree on index and events; output and cache creation agree exactly when the counts its events lose sum to zero and some count survives if any was there. |
| `ThinTokens.OutputOnlyIsLost` | internal/insights/mcp.go:280-293 | An event with only output tokens loses them on the index. |
| `ThinTokens.CacheCreationIsLost` | internal/insights/mcp.go:280-293 | An event that echoes only cache creation tokens loses them on the index. |
| `ThinPolicy.SkillPolicyAgrees` | internal/governance/unapproved_skills.go:39-62 | The skill policy on the index has the same findings, is never cleaner than on the events, and is the same report exactly when there is no allowlist, an event names an unapproved skill, an event's detection is uncertain, or every surface has an explicit event. |
| `ThinPolicy.QuietSurfaceUnsettlesPolicy` | internal/governance/unapproved_skills.go:115-131 | Two events, an allowed skill on one surface and nothing about skills on another: clean on the events, indeterminate on the index. |
| `ThinIntegrations.IntegrationOfThin` | internal/insights/integrations.go:41-53 | A thin copy has its event's integration state exactly if attributes report it or its MCP block is of a counted call, and none otherwise. |
| `ThinIntegrations.IntegrationsAgree` | internal/insights/integrations.go:26-32 | The integration report on the index shows the same keys as of the same events exactly when every state lost is outlived by a surviving one of its key; where key, time and event id tell a state, exactly then it is the same list. |
| `ThinIntegrations.StrayCallIsLost` | internal/insights/integrations.go:48-52 | An MCP block on an event that is no MCP call: an integration on the events, none on the index. |
| `ThinPrompts.ThinKeepsLoggedPrompt` | internal/insights/source_events.go:165-197 | A thin copy of a Claude user_prompt event holds under `event.prompt`, `event.prompt_length` and `correlation.message_uuid` what the event holds there. |
| `ThinPrompts.ThinKeepsTranscriptPrompt` | internal/insights/source_events.go:165-197 | A thin copy of a Claude user_message event holds under `transcript.prompt_content` and `correlation.uuid` what the event holds there. |
| `ThinPrompts.ThinKeepsPrompt` | internal/insights/source_events.go:178-197 | A Claude event is the same user prompt on the index, with the same text and the same join key, and is never dropped if it is one. |
| `ThinPrompts.PromptsAgree` | internal/insights/source_events.go:178-197 | The prompts read off the index, with keys, sessions and texts, are those of the events exactly when every Codex prompt is kept for another reason and has no text. |
| `ThinPrompts.KeywordReportAgrees` | internal/governance/prompt_keywords.go:53-79 | Then any keyword report on the index is one on the events, and the other way round. |
| `ThinPrompts.CodexPromptIsLost` | internal/insights/source_events.go:182-186 | One Codex prompt that a rule matches: a match on the events, no prompt at all on the index. |
| `SkillUsage.SkillUsageFromEvents` | internal/insights/skill.go:87-127 | The report: the records and the coverage rows in order, one record per skill, invocation counts that sum to the invocations of the events, and the number of surfaces in each state. |
| `SkillUsage.EveryInvocationIsCounted` | internal/insights/skill.go:168-188 | The records' counts sum to the number of invocations: none is lost or counted twice. |
| `SkillUsage.StatesPartitionSurfaces` | internal/insights/skill.go:173-186 | Every surface is counted under one state: the four counts sum to the surfaces. |
| `SkillUsage.SkillsAreDetermined` | internal/insights/skill.go:146-154 | The list of records is the same every time exactly when no two invocations name different skills whose provider, tool and name join to one text. |
| `SkillUsage.SeparatorsTie` | internal/insights/skill.go:146-154 | Two uses of skills, a NUL in one tool name and in the other skill name: their order is not determined. |
| `SkillUsage.CoverageIsDetermined` | internal/insights/skill.go:156-166 | The coverage list is the same every time. |
| `SkillUsage.CoverageIsStrongest` | internal/insights/skill.go:91-96 | A surface is covered exactly when an event is on it, by the row of an event whose signal none on that surface beats. |
| `SkillUsage.TallyCounts` | internal/insights/skill.go:97-113 | A skill's row counts exactly its invocations and each outcome they reported. |
| `SkillUsage.RecordIsStated` | internal/insights/skill.go:129-150 | A record has its skill, its number of invocations, how often each outcome was reported, and whether any was. |
| `EventReadings.SkillIsRead` | internal/insights/skill.go:191-216 | An event invokes a skill exactly where the detection, trimmed, is explicit and the skill block names one visibly; with the outcome shown there. |
| `EventReadings.DetectionIsRead` | internal/insights/skill.go:191-199 | The detection is the trimmed marker if it is one of three words. |
| `EventReadings.PolicyIsRead` | internal/governance/unapproved_skills.go:133-155 | The skill policy takes the marker untrimmed and any name but the empty one; any other detection leaves it uncertain, but for coverage markers of explicit surfaces. |
| `ContextWaste.ContextWasteFromEvents` | internal/insights/context_waste.go:72-156 | One row per session, of its points in some (time, event id) order, the rows in order, and the totals count the sessions with each property. |
| `ContextWaste.WasteIsDetermined` | internal/insights/context_waste.go:112-134 | The list of session rows is the same every time exactly when in every session the earliest points with an input count carry the same one. |
| `ContextWaste.RowIsDetermined` | internal/insights/context_waste.go:112-122 | The same for one session, under the unstable sort of its points. |
| `ContextWaste.RepeatedEventsTie` | internal/insights/context_waste.go:112-117 | One event id reported twice at one time with two input counts: two reports are possible. |
| `ContextWaste.InputStats` | internal/insights/context_waste.go:203-217 | Number, first and greatest of the input counts present. |
| `ContextWaste.OverlapSums` | internal/insights/context_waste.go:219-229 | Sums over exactly the points that carry both counts. |
| `ContextWaste.RowIsStated` | internal/insights/context_waste.go:158-245 | Ratio and growth are there exactly when they are defined, are the quotients of the counts shown, and trigger exactly from their thresholds on. |
| `ContextWaste.CountsAreStated` | internal/insights/context_waste.go:203-229 | The counts a row is made of are the inputs of the points that have one, and inputs and cached counts of those that have both. |
| `ContextWaste.CountedIsStated` | internal/insights/context_waste.go:137-156 | What the totals count of a row. |
| `ContextWaste.PointIsStated` | internal/insights/context_waste.go:247-260 | Input and cached counts come from the first of the named attributes and echo keys that has one; a point is there exactly with either. |
| `ContextWaste.WasteForgetsOrder` | internal/insights/context_waste.go:112-122 | Where the earliest input counts agree, the points give the same row in any order, up to the provider, tool and session of the first. |
| `McpInventory.MCPInventoryFromEvents` | internal/insights/mcp.go:79-188 | The report: the server rows with their sessions' tokens, in order, the counts of servers by state, and each session's tokens summed once. |
| `McpTies.InventoryIsDetermined` | internal/insights/mcp.go:119-124 | The list of servers is the same every time exactly when no two nameless connections of the events sort alike and are described differently, and no two servers of different names have a provider, tool and name that join to one text. |
| `McpTies.ColonFreeInventoryIsDetermined` | internal/insights/mcp.go:119-124 | Where no provider or tool holds a colon: exactly when no two nameless connections of one provider and tool are described differently. |
| `McpTies.RowIsDescribed` | internal/insights/mcp.go:79-118 | A server is listed exactly when a call or a connection of the events is under its key; its last connection describes it, or else its first call. |
| `McpInventory.TotalsAreDetermined` | internal/insights/mcp.go:164-188 | The token totals are the same every time, ties or not. |
| `McpTies.NamelessServersTie` | internal/insights/mcp.go:119-124 | Two connections without a server name, in different sessions: their order is not determined. |
| `McpTies.JoinedNamesTie` | internal/insights/mcp.go:119-124 | Calls of server `x:y` by tool `t` and of server `y` by tool `t:x`: their order is not determined. |
| `McpInventory.TotalsForgetOrder` | internal/insights/mcp.go:164-188 | Each session's tokens count once, whatever the order of the rows. |
| `McpInventory.UsageIsCalls` | internal/insights/mcp.go:228-243 | A server's usage counts exactly the calls that named it, and lists exactly their tools. |
| `McpTies.UsageIsStated` | internal/insights/mcp.go:131-162 | A server is used exactly when some call names it, connected but unused exactly when it has a name of its own and no call, and of unknown use otherwise. |
| `McpTies.UncalledColumns` | internal/insights/mcp.go:95-112 | A server that is called and never connected is listed under the name it was called by, with every column of its connection unknown or unavailable. |
| `McpTies.CountedIsStated` | internal/insights/mcp.go:164-188 | The totals count the servers called, those with a name and no call, and the rest. |
| `EventReadings.CallIsRead` | internal/insights/mcp.go:213-226 | An event is a call exactly by its type or category and a block that names a server visibly. |
| `EventReadings.ConnectionIsRead` | internal/insights/mcp.go:190-211 | A connection has every column of its echo, and its name as key, or its event id without one. |
| `EventReadings.RequestIsRead` | internal/insights/mcp.go:280-293 | Each request token column, by its attributes and echo key. |
| `EventReadings.IntegerIsRead` | internal/insights/context_waste.go:268-289 | A count is read from an integer, a whole float, or a text that scans as one. |
| `EventReadings.BlocksAreRead` | internal/insights/model_performance.go:124-137 | An outcome and a metric are read exactly from their blocks, with the labels and the stamp of their event. |
| `McpInventory.ServersAreEvidence` | internal/insights/mcp.go:79-128 | A server is listed exactly when it was used or connected, and its last connection describes it. |
| `McpInventory.SessionContextConcat` | internal/insights/mcp.go:295-302 | A session's token context over a concatenation is the merge of the two contexts. |
| `ModelPerformance.AccumulateContracts` | internal/insights/model_performance.go:281-301 | The accumulators are the scorecards the lemmas characterise. |
| `ModelPerformance.CardsMerge` | internal/insights/model_performance.go:281-344 | Scoring a concatenation is merging the two scorecard maps. |
| `Scorecards.CardIsCounted` | internal/insights/model_performance.go:281-344 | A model has a card exactly when a contract names it; the card counts the outcomes, retries and error codes of exactly those contracts, and lists their token and latency values in order. |
| `Scorecards.RateIsFraction` | internal/insights/model_performance.go:362-366 | The retry rate divides by at least one contract: it is there exactly when a counted contract was a retry, and lies in (0, 1]. |
| `Scorecards.ColumnsAreStated` | internal/insights/model_performance.go:346-374 | A scorecard's columns are those of its card; the mean is of the completed tokens, the percentiles of the latencies. |
| `Scorecards.MeanIsBetween` | internal/insights/model_performance.go:462-468 | A mean lies between the bounds of its values, and times their number is their sum. |
| `MetricReadings.ModelIsRead` | internal/insights/model_performance.go:281-293 | A contract is filed under the model it names, unless that is empty or "unknown". |
| `MetricReadings.StatusIsRead` | internal/insights/model_performance.go:313-328 | Which word is which outcome. |
| `MetricReadings.TokensAreRead` | internal/insights/model_performance.go:410-424 | The tokens of a contract are what there is of input and output. |
| `MetricReadings.FloatIsCut` | internal/insights/model_performance.go:444-460 | A float read as a count is cut off toward zero. |
| `MetricReadings.NumbersAreRead` | internal/insights/model_performance.go:426-460 | What each JSON value gives as a count and as a number: integers and floats themselves, texts if they parse, and nothing else. |
| `MetricReadings.RetryIsRead` | internal/insights/model_performance.go:337-340 | A contract is a retry exactly with an attempt of at least one. |
| `Scorecards.ScorecardsFromAccumulators` | internal/insights/model_performance.go:346-380 | One scorecard per model, with its rate, mean and percentiles, in order. |
| `Scorecards.ScorecardsAreDetermined` | internal/insights/model_performance.go:375-378 | The list of scorecards is the same every time exactly when no two contracts name different models whose provider, tool and name join to one text. |
| `Scorecards.RankingFor` | internal/insights/model_performance.go:382-400 | A ranking is given exactly when there are two models or more and none has a sample below ten. |
| `Scorecards.RankingIsByRate` | internal/insights/model_performance.go:391-400 | It lists every scorecard, by falling success rate, and those of one rate in the order of the report. |
| `Scorecards.RankingNamesModels` | internal/insights/model_performance.go:391-400 | A ranking names the model of every scorecard, place by place. |
| `Scorecards.SuccessIsShare` | internal/insights/model_performance.go:391-400 | The rate a ranking goes by, times the contracts counted, is the number that succeeded; without contracts it is zero. |
| `ModelPerformance.PerformanceMetricsFromEvents` | internal/insights/model_performance.go:116-178 | The summaries of the metric rows the lemmas characterise, with the average where it is defined, in order. |
| `SummaryTies.SummariesAreDetermined` | internal/insights/model_performance.go:172-176 | The list of summaries is the same every time exactly when no two keys of the events' samples sort alike with different labels, or have one label and come to different numbers. |
| `SummaryTies.RowIsRead` | internal/insights/model_performance.go:124-161 | A summary has the labels of its key's first sample if delta, of its latest if not, and the numbers its key's samples come to. |
| `SummaryTies.OneLabelOneKey` | internal/insights/model_performance.go:197-224 | Keys of one label differ at most in their temporality. |
| `SummaryTies.UnitsTie` | internal/insights/model_performance.go:172-176 | One metric reported in two units: their order is not determined. |
| `ModelPerformance.MetricRowsMerge` | internal/insights/model_performance.go:124-156 | Accumulating a concatenation is merging the two row maps, delta and cumulative rows alike. |
| `MetricReadings.MetricIsRead` | internal/insights/model_performance.go:180-204 | A metric is reviewed exactly with a name, a family and one of two kinds; each column is that of its own key, and the model dimension is left out. |
| `MetricReadings.SampleIsRead` | internal/insights/model_performance.go:124-137 | A sample is filed under the labels of its summary, its temporality or zero, and its rendered dimensions, and stamped by its event. |
| `MetricReadings.SummaryTextIsJoined` | internal/insights/model_performance.go:163-178 | The text summaries are ordered by joins provider, tool, family, name, model and dimensions, in that order. |
| `MetricReadings.AverageIsRead` | internal/insights/model_performance.go:163-171 | The average is there exactly with a sum and a positive count, and times the count is the sum. |
| `DeltaRows.DeltaRowIsTotal` | internal/insights/model_performance.go:226-268 | A delta row's count, sum and value are the sums of those its key's samples carry, its minimum and maximum bound those carried and are attained, and each is absent exactly when no sample carries it. |
| `DeltaRows.FirstSampleNamesRow` | internal/insights/model_performance.go:124-146 | A delta row has the labels of its key's first sample and the stamp of the latest. |
| `DeltaRows.DeltaForgetsOrder` | internal/insights/model_performance.go:124-146 | A whole delta row, labels included, is the same for every order of the samples exactly when its key's samples agree on family and dimensions. |
| `DeltaRows.SameNumbers` | internal/insights/model_performance.go:226-268 | Its numbers are the same for every order. |
| `DeltaRows.EventOrderShows` | internal/insights/model_performance.go:116-146 | The same at the level of events: exactly when the samples the events yield for the key agree. |
| `DeltaRows.FirstFamilyStays` | internal/insights/model_performance.go:206-208 | Two events that differ in their family alone, which is not part of the key: the row has the family of whichever came first. |
| `ModelPerformance.CumulativeRowIsLatest` | internal/insights/model_performance.go:139-161 | A cumulative row is a sample of its key that none is later than by (time, event id). |
| `ModelPerformance.CumulativeForgetsOrder` | internal/insights/model_performance.go:139-161 | With distinct (time, event id), cumulative rows do not depend on the order of the samples. |
| `Percentile.Percentile` | internal/insights/model_performance.go:470-490 | None without values; else the interpolated value at the fraction of the sorted values. |
| `Percentile.AtIsBetween` | internal/insights/model_performance.go:479-489 | An interpolated value lies between the sorted values beside its position. |
| `Percentile.PercentilesAreOrdered` | internal/insights/model_performance.go:470-490 | A higher percentile is never below a lower one, and all lie between the least and the greatest value. |
| `Percentile.PercentileForgetsOrder` | internal/insights/model_performance.go:474-475 | The order in which the values were retained does not matter. |
| `LatestStates.LatestObservedStates` | internal/insights/observed_states.go:10-39 | The rows are those of the latest state of each key, in the report's order. |
| `LatestStates.LatestIsGreatest` | internal/insights/observed_states.go:17-44 | A key is present exactly when a state has it, with a state that none of the key beats by (time, event id). |
| `Ordering.BeforeIsEarlier` | internal/insights/observed_states.go:41-44 | Later is a later time, or at one time the lexicographically greater event id. |
| `Ordering.StrLessIsLexicographic` | internal/insights/observed_states.go:41-44 | A text is less if, at the first difference, it ends or has the smaller character. |
| `LatestStates.LatestForgetsOrder` | internal/insights/observed_states.go:17-44 | With distinct (time, event id) per key, the fold does not depend on the order of the states. |
| `LatestStates.LatestMerges` | internal/insights/observed_states.go:17-44 | Folding a concatenation is merging the two folds. |
| `LatestStates.RowsAreDetermined` | internal/insights/observed_states.go:27-39 | The printed rows are the same list whatever order the map is visited in. |
| `LatestStates.RowsAreNewestFirst` | internal/insights/observed_states.go:31-37 | The rows are newest first, and by key between rows of one time. |
| `SortedRows.Collect` | internal/insights/skill.go:129-150 | The rows of a map in any order, then sorted: each key's row, in order. |
| `SortedRows.RowsAreDetermined` | internal/insights/skill.go:129-150 | Over map order and an unstable sort, the list is determined exactly when no two different rows tie. |
| `LatestStates.FewerStates` | internal/insights/observed_states.go:10-39 | With some states left out, the rows show the same keys as of the same events exactly when every state is covered by one that is left, of its key and no earlier. |
| `IntegrationStates.IntegrationStatesFromEvents` | internal/insights/integrations.go:26-32 | The report lists the latest integration state of each key over all events. |
| `GovernanceStates.GovernanceStatesFromEvents` | internal/insights/governance_states.go:26-32 | The report lists the latest state of each key over all events' states. |
| `GovernanceStates.ReportIsDetermined` | internal/insights/governance_states.go:26-32 | Two reports on the same events are the same list. |
| `EventReadings.GovernanceIsRead` | internal/insights/governance_states.go:34-59 | A state of an event is one of three policies observed under its own attribute, or an authentication recovery with a status and its phase; with the provider, tool, session, id and time of the event. |
| `EventReadings.GovernanceKeysTell` | internal/insights/governance_states.go:61-67 | Without NUL, two states are of one key exactly when provider, tool, session, kind, value and phase are equal. |
| `EventReadings.IntegrationIsRead` | internal/insights/integrations.go:41-71 | A state is what the three attributes report, or else a used server named by the MCP block; texts trimmed. |
| `EventReadings.IntegrationKeysTell` | internal/insights/integrations.go:80-82 | Without NUL, two states are of one key exactly when provider, tool, kind, name and state are equal. |
| `EventReadings.StatesAreStamped` | internal/insights/integrations.go:25-32 | Both reports date a state by its observation and source event id. |
| `UnapprovedSkills.UnapprovedSkillsFromEvents` | internal/governance/unapproved_skills.go:39-131 | The evaluated policy report, its findings in order with their event ids sorted. |
| `UnapprovedSkills.FindingsAreDetermined` | internal/governance/unapproved_skills.go:102-113 | The list of findings is the same every time. |
| `UnapprovedSkills.FindingsAreNamings` | internal/governance/unapproved_skills.go:72-88 | There is a finding exactly for the skills named outside the allowlist, with the names of the first naming and the event ids of all. |
| `Breakdown.Segment` | internal/breakdown/breakdown.go:369-386 | Each bucket's total is the number of window nanoseconds in it, and its evidence cites exactly the records covering them, in order, each once. |
| `Breakdown.SweepIsDetermined` | internal/breakdown/breakdown.go:369-386 | Totals and evidence do not depend on the order of the intervals, nor on map order. |
| `Breakdown.BoundaryPoints` | internal/breakdown/breakdown.go:416-435 | The points are exactly the window's ends and the interval ends clipped to it, ascending. |
| `Breakdown.ClipIsInside` | internal/breakdown/breakdown.go:437-448 | What is left of an interval in the window lies between the inner two of the four ends, and is not empty. |
| `Breakdown.CoveringCategories` | internal/breakdown/breakdown.go:450-459 | The categories, and their record ids, of exactly the intervals overlapping the segment. |
| `Breakdown.ApplySegment` | internal/breakdown/breakdown.go:461-476 | The duration and the ids go to the one bucket of the covering categories, each id once; every other bucket is untouched. |
| `Breakdown.BucketsPartition` | internal/breakdown/breakdown.go:369-386 | The six buckets' measures sum to the window. |
| `Breakdown.MeasureForgetsOrder` | internal/breakdown/breakdown.go:369-386 | The measures depend on which intervals there are, not on their order. |
| `Breakdown.DurationsToMilliseconds` | internal/breakdown/breakdown.go:391-414 | The milliseconds sum exactly to the window's, none is negative, each classified bucket is floored, and unclassified gains at most 5 ms over its own floor. |
| `Breakdown.Calculate` | internal/breakdown/breakdown.go:83-153 | Available exactly when there is a window of at least a millisecond and an interval; the totals reported are the floored exact measures, and their parts sum to the window. |
| `AgentTree.Build` | internal/agenttree/tree.go:53-72 | For all relations, cyclic or duplicated: it ends, every relation occurs exactly once in the forest, flagged exactly when it is on a parent loop, and otherwise under the parent it was classified with, in stored order. |
| `AgentParents.NestedAsNamed` | internal/agenttree/tree.go:76-107 | Read off the relations: a relation is a child in the forest exactly of the last relation of its trace that it names as parent, if its evidence names no other and it is on no loop; each state is shown exactly in its case, with its candidates; roots and children are in stored order. |
| `AgentParents.LoopsAreCycles` | internal/agenttree/tree.go:108-136 | The relations on a loop of named parents are exactly the nodes on a cycle of the parent array. |
| `AgentTree.MarkCycles` | internal/agenttree/tree.go:112-135 | A node is flagged and loses its edge exactly when following parents from it returns to it; all else is unchanged; what remains is acyclic; over all walks each node is put on a path exactly once. |
| `AgentTree.FollowParents` | internal/agenttree/tree.go:116-123 | One walk marks the unvisited chain from its start and stops at a root or a visited node. |
| `AgentTree.FlagLoop` | internal/agenttree/tree.go:139-146 | Exactly the path from the re-entered node on is flagged. |
| `AgentTree.FlagsAreExact` | internal/agenttree/tree.go:112-135 | Once every node is settled, the flagged ones are those on a cycle. |
| `AgentTree.LinkChildren` | internal/agenttree/tree.go:157-180 | The child lists and the roots, each in stored order. |
| `AgentTree.Nest` | internal/agenttree/tree.go:157-180 | The forest of an acyclic parent array: every tree's children are its node's, in stored order. |
| `AgentTree.ForestHoldsEachOnce` | internal/agenttree/tree.go:157-180 | The forest of an acyclic parent array holds every node exactly once. |
| `SubAgents.CollectSpans` | internal/normalize/claude/subagent_relations.go:110-128 | Keeps the first span of each identity and every span without an id. |
| `SubAgents.SpawnSpanFor` | internal/normalize/claude/subagent_relations.go:185-204 | Ends on every span index, loops included, with the nearest ancestor tool span of another agent; with none exactly when no ancestor at any distance is one. |
| `SubAgents.IndexSpans` | internal/normalize/claude/subagent_relations.go:169-177 | Holds exactly the spans with an id, each under its identity. |
| `SubAgentRelations.RelationFromGroup` | internal/normalize/claude/subagent_relations.go:227-278 | The relation is the roll-up of the group in (ordering key, span id) order: earliest non-empty texts, counts and present-only sums per span type, the first spawning span, candidates and wall clock. |
| `SubAgentRelations.Rollup.Accumulate` | internal/normalize/claude/subagent_relations.go:283-306 | One more span keeps every counter equal to its definition over the spans so far. |
| `SubAgentRelations.BoundsTracker.Add` | internal/normalize/claude/subagent_relations.go:327-338 | The tracked bounds become the hull with the span's. |
| `SubAgentRelations.WindowIsTight` | internal/normalize/claude/subagent_relations.go:327-345 | The tracked bounds are attained and no observed span exceeds them. |
| `SubAgentRelations.ColumnsAreSums` | internal/normalize/claude/subagent_relations.go:283-306 | Each total sums its own field over the spans of its own type that carry it, and is absent if none does. |
| `SubAgentRelations.FirstIsEarliest` | internal/normalize/claude/subagent_relations.go:409-415 | A kept text is that of the earliest span carrying one. |
| `SubAgentRelations.ParentIdsAreDistinct` | internal/normalize/claude/subagent_relations.go:419-429 | The parent candidates are exactly the non-empty parent ids, each once. |
| `SubAgentRelations.RollUpUnique` | internal/normalize/claude/subagent_relations.go:227-278 | A group has one roll-up. |
| `SubAgentReconstruction.Reconstruct` | internal/normalize/claude/subagent_relations.go:74-103 | One relation per agent of the kept spans, strictly sorted by (trace, agent), each the roll-up of its spans. |
| `SubAgentReconstruction.OrderIsForgotten` | internal/normalize/claude/subagent_relations.go:74-103 | Spans with distinct identities give the same relations in any order. |
| `SubAgentReconstruction.RedeliveryIsAbsorbed` | internal/normalize/claude/subagent_relations.go:105-128 | Appending spans whose identity was already seen changes nothing, even with other contents. |
| `SubAgentReconstruction.DeliveryIsForgotten` | internal/normalize/claude/subagent_relations.go:66-73 | Any delivery of the same spans, reordered and repeated at will, gives the same relations. |
| `SubAgentReadings.AgentsAreRead` | internal/normalize/claude/subagent_relations.go:74-107 | Read off the spans: there is a relation for exactly the agents spans carry; each rolls up the spans of its trace and agent, by ordering text and span id; and they are listed by trace and agent. |
| `SubAgentReadings.RollUpIsRead` | internal/normalize/claude/subagent_relations.go:227-306 | Read off the spans: identity of the first, first non-empty parent, type and workflow texts, ids, wall clock from the earliest start to the latest end, spawning span, and parents where they disagree. |
| `SubAgentReadings.SpawnIsRead` | internal/normalize/claude/subagent_relations.go:185-204 | The spawning span is the first tool span of another agent on the chain of parent links in the trace. |
| `CodexRoots.CodexAgentRoot` | internal/normalize/codex/agent_relations.go:281-296 | Ends on every thread map; complete exactly when the parents reach a parentless thread with no id met twice; otherwise names the last retained thread, or the thread itself on a loop. |
| `CodexRoots.RootIsUnique` | internal/normalize/codex/agent_relations.go:281-296 | Only one answer fits a thread map. |
| `CodexRoots.ChainSharesRoot` | internal/normalize/codex/agent_relations.go:281-296 | Every thread on a complete chain has the same root. |
| `CodexRoots.ChainIsFiledTogether` | internal/normalize/codex/agent_relations.go:208-243 | Every agent on a complete chain gets the same session and trace id, and names no parent agent exactly when the root spawned it. |
| `CodexRoots.CompleteWithOwnKeys` | internal/normalize/codex/agent_relations.go:281-296 | Where each thread is recorded under its own id, complete means just that the parents end at a retained parentless thread. |
| `CodexRoots.RelationFromAgentThread` | internal/normalize/codex/agent_relations.go:208-243 | The relation is placed by the root answer. |
| `CodexRoots.PlacedByRoot` | internal/normalize/codex/agent_relations.go:208-245 | The trace is the one the root's task started, or the root's id without one; the session is the root's; a parent agent is named unless it is the root of a complete chain. |
| `CodexThreads.Thread.SetOutcome` | internal/normalize/codex/agent_relations.go:199-206 | The outcome kept after one report. |
| `CodexThreads.Thread.ObserveOperation` | internal/normalize/codex/agent_relations.go:167-184 | The operation ledger after one report; nothing else changes. |
| `CodexThreads.FirstOfGreatestRank` | internal/normalize/codex/agent_relations.go:199-206 | After any reports the outcome is the first of those of the greatest rank, so a failure never becomes a completion. |
| `CodexThreads.OutcomeIsWorst` | internal/normalize/codex/agent_relations.go:199-206 | The first of "interrupted", "cancelled" and "failed" if one was reported, else "completed" if it was, else the first word. |
| `CodexThreads.OperationsCountOnce` | internal/normalize/codex/agent_relations.go:167-184 | After any reports each operation id counts once, with the duration of its first report. |
| `PathGlob.PathGlobMatch` | internal/governance/path_rules.go:114-117 | Accepts exactly the paths the pattern's tokens spell, piece by piece. |
| `PathGlob.Matcher.Match` | internal/governance/path_rules.go:124-136 | Accepts from here exactly when the rest of the pattern spells the rest of the path. |
| `PathGlob.Matcher.MatchStar` | internal/governance/path_rules.go:138-157 | The same for a star: `*` within a segment, `**` across, `**` and a slash also for nothing. |
| `PathGlob.Matcher.MatchQuestion` | internal/governance/path_rules.go:159-161 | The same for `?`: one character that is not a slash. |
| `PathGlob.Matcher.MatchLiteral` | internal/governance/path_rules.go:163-165 | The same for any other character. |
| `PathGlob.DirectoriesUnfold` | internal/governance/path_rules.go:143-147 | A `**` with its slash stands for nothing, or for any text and the slash. |
| `PathGlob.DepthIsKept` | internal/governance/path_rules.go:111-113 | A pattern without `**` accepts only paths with as many slashes as it has. |
| `PathGlob.PlainPatternMatchesItself` | internal/governance/path_rules.go:111-113 | A pattern without wildcards accepts itself alone. |
| `PathGlob.TreePattern` | internal/governance/path_rules.go:111-113 | A directory followed by `/**` accepts exactly the paths below it, at any depth. |
| `PathGlob.MatchesPathPatterns` | internal/governance/path_rules.go:99-109 | True exactly when some pattern covers the path. |
| `PathGlob.PathRuleDecision` | internal/governance/path_rules.go:85-97 | A path goes unflagged exactly when no blocked pattern covers it and the mode allows it; blocking is the reason whenever it applies. |
| `Paging.SessionEvents` | internal/api/insights_paging.go:22-42 | On a store that changes between reads: it ends, fails exactly on a failed read, and returns in strict (time, id) order exactly the rows present at the read that covered their place. |
| `Paging.BeyondIsTheRest` | internal/storage/repository.go:103-108 | The listing after a cursor is, in order, exactly the rows beyond it. |
| `Paging.ListedIsFront` | internal/api/insights_paging.go:26-36 | A listing is the front of what lies beyond the cursor: all of it, or one row more than the limit. |
| `Paging.PresentRowsAreReturned` | internal/api/insights_paging.go:22-42 | A row present at every read is returned, and no row is that no read met. |
| `Paging.QuietStoreIsReadWhole` | internal/api/insights_paging.go:22-42 | On an unchanging store exactly the whole ordered list is returned. |
| `SpanProjection.Project` | internal/spans/projection.go:47-80 | One record per span: the earliest event's fields with every event's ids, sorted; strictly in record order. |
| `SpanProjection.RecordLessStrictTotal` | internal/spans/projection.go:235-249 | recordLess, by the text of the start and then identity, is a strict total order. |
| `SpanProjection.RecordsAreAhead` | internal/spans/projection.go:76-80 | Of two records listed, the earlier starts at an earlier text, or has a start where the other has none, or starts alike and has the smaller ids. |
| `IdLists.AppendUnique` | internal/spans/projection.go:273-287 | Appends to the ids as the lemma describes. |
| `IdLists.AppendedLists` | internal/breakdown/breakdown.go:491-507 | What is appended is exactly the new non-empty ids, each once, in the order they first occur, after the ids there were. |
| `SpanProjection.SortedUnique` | internal/spans/projection.go:289-293 | Lists exactly the non-empty ids, each once, in order. |
| `SpanProjection.ProjectionForgetsOrder` | internal/spans/projection.go:47-80 | Events with distinct (time, id) project alike in any order. |
| `SpanProjection.OneRecordPerSpan` | internal/spans/projection.go:56-80 | Every span of the events has a record of its own exactly when no two spans have trace and span ids that join to one text. |
| `SpanProjection.OneRecordPerKey` | internal/spans/projection.go:62-68 | No two records have one joined text. |
| `SpanProjection.NulFreeSpansAreApart` | internal/spans/projection.go:62-68 | Without NUL in a trace id, every span has a record of its own. |
| `SpanProjection.SeparatorsMergeSpans` | internal/spans/projection.go:62-68 | Two spans, a NUL in one trace id and in the other span id: one of them has no record. |
| `SpanProjection.EveryEventIsCited` | internal/spans/projection.go:65-74 | A span event's id is in the record of its span's joined text and in no other. |
| `SpanPaging.Page` | internal/spans/projection.go:84-105 | The records after the cursor's, labelled, and the last one if more follow. |
| `SpanPaging.SetParentAvailability` | internal/spans/projection.go:210-233 | Each record of the page is labelled in place and otherwise unchanged. |
| `SpanPaging.LabelsAreRight` | internal/spans/projection.go:210-233 | Root exactly without a parent, loaded exactly when the parent's joined text is on the page, absent exactly when it is nowhere; without NUL in the trace ids, of the parent itself. |
| `SpanPaging.PagesVisitOnce` | internal/spans/projection.go:84-105 | Pages followed by their cursors hold the records in order and once each; only the last gives no cursor, and every other moves on. |
| `SpanPaging.ReadersMeetEveryRecordOnce` | internal/spans/projection.go:84-105 | With any limit of at least one, from the empty cursor to the end, a reader meets every record exactly once. |
| `SpanPaging.ProjectionsArePageable` | internal/spans/projection.go:47-80 | What Project returns is a list readers can page. |
| `SpanPaging.CursorRoundTrip` | internal/api/spans.go:33-52 | A record's cursor leads back to it exactly when its trace id holds no NUL. |
| `Residual.ReduceValue` | internal/normalize/claude/jsonl_residual.go:23-37 | The recursion over rules computes the specified residual. |
| `Residual.ReduceObject` | internal/normalize/claude/jsonl_residual.go:44-61 | The loop over fields, in any order, computes the residual of an object. |
| `Residual.ReduceContent` | internal/normalize/claude/jsonl_residual.go:73-91 | The loop over blocks computes the residual entries with their indices. |
| `Residual.ReduceBlock` | internal/normalize/claude/jsonl_residual.go:108-127 | The edited leftover map is the block's residual. |
| `Residual.NothingIsLost` | internal/normalize/claude/jsonl_residual.go:12-21 | For every rule tree and value, merging the residual with the accepted leaves, by key and by block index and without the rules, gives back the value. |
| `ResidualLeaves.NothingLeft` | internal/normalize/claude/jsonl_residual.go:32-129 | The residual is empty exactly when every leaf is taken: by recursion on rule and value, every field has a rule that takes it, and every block is admitted by its required key. |
| `ResidualLeaves.StoredIsNotEchoed` | internal/normalize/claude/jsonl_residual.go:32-129 | What a rule stores is not in the residual as well, at any path of keys and block indices; only the type of a block rides back. |
| `Residual.BlockComesBack` | internal/normalize/claude/jsonl_residual.go:103-127 | So it does for one accepted content block. |
| `TypedHomes.StoredExactly` | internal/normalize/claude/jsonl_residual.go:155-214 | Each stored predicate holds exactly when the typed home keeps a value from which the raw one can be restored. |
| `TypedHomes.HomeDeterminesValue` | internal/normalize/claude/jsonl_residual.go:155-214 | Two typed values with the same home are the same value. |
| `TypedHomes.CountRoundTrip` | internal/normalize/claude/jsonl_residual.go:194-208 | Every non-negative int64 survives being written and read. |
| `TypedHomes.CountIsParsed` | internal/normalize/claude/jsonl_residual.go:196-208 | A literal is a count exactly if it is digits of at most an int64, or a negative zero. |
| `TypedHomes.CanonicalCounts` | internal/normalize/claude/jsonl_residual.go:207-207 | Digits read back as written exactly when they have no leading zero. |
| `TypedHomes.QuotedCountStaysRaw` | internal/normalize/claude/jsonl_residual.go:197-201 | A quoted count has the same home as the bare one, and is the one left in the residual. |
| `TypedHomes.RecordsComeBack` | internal/normalize/claude/jsonl_residual.go:218-312 | Nothing is lost under the assistant, user and result record tables. |
| `TypedRecords.AssistantLeavesNothing` | internal/normalize/claude/jsonl_residual.go:216-281 | An assistant record leaves no echo exactly when every field of it is one of the named ones and has the named shape: envelope, message, usage counts, text, thinking and tool_use blocks. |
| `TypedRecords.UserLeavesNothing` | internal/normalize/claude/jsonl_residual.go:257-288 | The same for a user record: envelope, message, a bare text, text and tool_result blocks. |
| `TypedRecords.ResultLeavesNothing` | internal/normalize/claude/jsonl_residual.go:290-299 | The same for a record of tool results alone. |
| `ToolCalls.ToolCallCollector.CollectToolUses` | internal/normalize/claude/jsonl_toolcalls.go:136-178 | The collector takes exactly the uses of the line, in block order. |
| `ToolCalls.ToolCallCollector.CollectToolResults` | internal/normalize/claude/jsonl_toolcalls.go:195-227 | The collector takes exactly the results of the line, then its record-scoped result. |
| `ToolCalls.ToolCallCollector.AttachRecordResult` | internal/normalize/claude/jsonl_toolcalls.go:234-246 | The record-scoped result goes to the first block's call that is known, marked when the record held several results. |
| `ToolCalls.ToolCallCollector.Reconstructed` | internal/normalize/claude/jsonl_toolcalls.go:249-255 | The calls in first-seen order. |
| `ToolCalls.OneCallPerId` | internal/normalize/claude/jsonl_toolcalls.go:114-124 | After any run there is exactly one call per tool_use id, in first-seen order. |
| `ToolCalls.LastResultIsKept` | internal/normalize/claude/jsonl_toolcalls.go:136-227 | After any run a call has the invocation of its last tool_use and the result and outcome of the last tool_result after it, else none and unknown. |
| `ToolCalls.LastAttachIsKept` | internal/normalize/claude/jsonl_toolcalls.go:234-246 | The record-scoped result is the last attached since the last use; the marker is set exactly when any since then was shared. |
| `ToolCalls.ScopeIsRightUnlessSharedBefore` | internal/normalize/claude/jsonl_toolcalls.go:98-104 | The marker describes the result beside it exactly when that result was shared or no earlier one since the last use was. |
| `SharedResults.SharedMarkerOutlivesItsResult` | internal/normalize/claude/jsonl_toolcalls.go:234-246 | Any transcript that goes on with a user line of several results and then one whose only result is for the same first call leaves that call with its own result marked "record". |
| `SharedResults.MarkerOutlivesOnFourLines` | internal/normalize/claude/jsonl_toolcalls.go:98-104 | Four decoded lines on which it does. |
| `Transcript.NextTranscriptLine` | internal/normalize/claude/jsonl.go:208-213 | The line before the first newline and what follows it. |
| `Transcript.WalkTranscript` | internal/normalize/claude/jsonl.go:173-202 | Aborts exactly when some line is not JSON or an assistant line is malformed; else yields the lines' own events and the calls of their uses and results. |
| `Transcript.CallsAreLastPairs` | internal/normalize/claude/jsonl.go:173-202 | Over any transcript, each call pairs its last tool_use with the last tool_result after it. |
| `Transcript.Collapse` | internal/normalize/normalize.go:124-137 | Sorted, one element per id, each the least with its id, and every id kept. |
| `Transcript.CorrelateEvents` | internal/normalize/normalize.go:124-150 | The same for events, in (time, id, type, received) order. |
| `Transcript.CorrelateOperations` | internal/normalize/normalize.go:181-200 | The same for operations, by (operation, session). |
| `Transcript.NormalizeTranscript` | internal/normalize/claude/jsonl.go:149-163 | Refused exactly when a line aborts the walk; else the collapsed list of the records' own events and one event per call. |
| `Transcript.ExtractTranscriptOperations` | internal/normalize/claude/jsonl_mcp.go:106-116 | Refused exactly when a line aborts the walk; else the collapsed list of one operation per call. |
| `Transcript.AppendedLines` | internal/normalize/claude/jsonl.go:173-213 | The lines of a transcript with more text appended are its lines and then those of the text. |
| `TranscriptIds.CallsAreLastUses` | internal/normalize/claude/jsonl_toolcalls.go:114-124 | The calls collected are exactly the tool_use ids in the lines, each with the invocation of its last use. |
| `TranscriptCalls.CallsAreTold` | internal/normalize/claude/jsonl_toolcalls.go:136-232 | Read off the lines: a call has every field of its last tool_use block and line; it failed, succeeded or is unknown exactly as the last tool_result block after it says or is silent, with that block's content, prompt id and raw record; and its directory is the first of the two. |
| `TranscriptCalls.EventsAreTold` | internal/normalize/claude/jsonl_toolcalls.go:313-395 | Every event returned is that of a call, with the id, type and time its last use gives it, or that of an assistant record or a user record with text. |
| `TranscriptCalls.OperationsAreTold` | internal/normalize/claude/jsonl_toolcalls.go:323-330 | Every operation returned is that of a call, under its session and id. |
| `TranscriptCalls.EventsAreOrdered` | internal/normalize/normalize.go:124-150 | Events come by time and id, and of those listed under one id the returned one is no later, then of no greater type or receipt. |
| `TranscriptCalls.OperationsAreOrdered` | internal/normalize/normalize.go:181-200 | Operations come by id and session. |
| `TranscriptCalls.MalformedLinesAbort` | internal/normalize/claude/jsonl.go:219-262 | A line aborts the walk exactly if it is not JSON, or is an assistant record of the wrong shape or without uuid, session or time. |
| `TranscriptIds.OneOperationPerCall` | internal/normalize/claude/jsonl_mcp.go:106-116 | The operations returned are exactly one per tool_use id: collapsing drops none. |
| `TranscriptIds.EveryEventIsEmitted` | internal/normalize/claude/jsonl.go:149-163 | The events returned are all those listed exactly when no two records, no two calls, and no record and call share an id. |
| `TranscriptIds.OneEventPerCall` | internal/normalize/claude/jsonl.go:149-163 | Every call's event is returned exactly when no two calls share an id and every record with a call's id sorts after it; no other event returned reports a call. |
| `TranscriptIds.ApartSessionsReportCalls` | internal/normalize/claude/jsonl.go:149-163 | Where no session id begins another with a colon after it, and no uuid starts with `mcp:` or `toolcall:`, every call is reported, and nothing is dropped unless two records share a uuid. |
| `TranscriptIds.SessionsCollide` | internal/normalize/claude/jsonl_toolcalls.go:334-335 | Two lines of two sessions whose calls share one id: a call is not reported. |
| `TranscriptIds.RecordHidesCall` | internal/normalize/claude/jsonl_toolcalls.go:334-335 | An earlier record whose uuid reads like the tail of a call's id: the call is not reported. |
| `TranscriptGrowth.LongerTranscriptsKeepIds` | internal/normalize/claude/jsonl.go:149-163 | Re-shipped with more lines, a transcript returns every id again exactly when no added line aborts the walk and every tool_use id used again keeps its call's id, or that id is a record's or another call's. |
| `TranscriptGrowth.ApartSessionsKeepIds` | internal/normalize/claude/jsonl_mcp.go:22-23 | Where sessions are told apart by their ids and uuids are plain: exactly when no added line aborts and every tool_use id used again is used in its session and for a tool of its kind. |
| `TranscriptGrowth.OneSessionKeepsIds` | internal/normalize/claude/jsonl_mcp.go:22-23 | In a one-session transcript with plain uuids: exactly when no added line aborts and no tool_use id is used again for a tool of the other kind. |
| `TranscriptGrowth.ReuseLosesId` | internal/normalize/claude/jsonl_toolcalls.go:334-335 | A tool_use id used for a plain tool and then for an MCP one: the id returned at first is not returned again. |
| `Cost.SelectPrice` | internal/cost/cost.go:225-239 | The first record that no applicable record outranks by (score, effective time), and none exactly when none applies. |
| `Cost.FirstBestIsUnique` | internal/cost/cost.go:225-239 | Only one record is first and best. |
| `Cost.ExactBeatsWildcard` | internal/cost/cost.go:240-249 | An exact matcher outranks every wildcard, however late. |
| `Cost.ExactIsSelected` | internal/cost/cost.go:225-249 | Where an exact record applies, an exact record is selected. |
| `Cost.AppliesIsStated` | internal/cost/cost.go:240-249 | A price applies from its effective time on to the model it names, or, ending in a star, to all that begin with what is before it. |
| `Cost.RankIsStated` | internal/cost/cost.go:225-249 | The named model ranks above any star, the longer star above the shorter, the later price above the earlier. |
| `Cost.MetricsAreNotPriced` | internal/cost/cost.go:184-186 | Which four event types are never priced. |
| `Cost.LongestPrefixWins` | internal/cost/cost.go:240-249 | Among wildcards the longer prefix wins. |
| `Cost.MergeCatalogs` | internal/cost/cost.go:160-174 | Ids stay distinct, the base keeps its places, the override's records replace theirs and none is lost. |
| `Cost.Calculate` | internal/cost/cost.go:176-223 | Each status exactly when it applies; the amount sums the rounded products of the selected record, in any category order. |
| `Cost.TokensAreNamed` | internal/cost/cost.go:188-192 | Which attribute is which token category. |
| `Cost.CountIsWhole` | internal/cost/cost.go:253-279 | A count is a whole number that is not negative, or a text that scans to one. |
| `Cost.RoundingIsHalfAtMost` | internal/cost/cost.go:280-284 | One rounded product is off by at most half a micro-dollar. |
| `Cost.EstimateIsClose` | internal/cost/cost.go:205-222 | The estimate is off from the exact sum by at most half a micro-dollar per priced category. |
| `PromptKeywords.GroupPromptIdentities` | internal/governance/prompt_keywords.go:83-109 | One identity per key, in first-seen order, with exactly that key's bodies. |
| `PromptKeywords.FindMatches` | internal/governance/prompt_keywords.go:126-152 | The finding of one rule on one identity: the matching bodies, OTLP first, then by id. |
| `PromptKeywords.UserPrompts` | internal/governance/prompt_keywords.go:83-97 | The prompts, each with the join key and session of the last event of its id. |
| `KeywordFindings.RecordIsRead` | internal/conversation/projection.go:77-201 | An event is a user prompt, and its text available, exactly by provider, type and the named key: `event.prompt`, or a visible `transcript.prompt_content` of Claude; a redacted text is not. |
| `KeywordFindings.ClaudeKeys` | internal/governance/prompt_keywords.go:154-181 | Events are joined exactly by trimmed session and message uuid, `correlation.message_uuid` of a logged prompt or `correlation.uuid` of a transcript one, both present. |
| `KeywordFindings.PromptIsRead` | internal/governance/prompt_keywords.go:83-109 | Each prompt is of an event that is a user prompt, with its text if retained, and of the key and session of the last event of that id. |
| `KeywordFindings.PromptIsListed` | internal/governance/prompt_keywords.go:88-97 | Every event that is a user prompt is among the prompts. |
| `PromptKeywords.PromptsAreGenuine` | internal/governance/prompt_keywords.go:83-97 | Every prompt read off the events is of one of them, in its trimmed session, under its own id or a join key of that session. |
| `PromptKeywords.JoinedPromptsShareSession` | internal/governance/prompt_keywords.go:159-181 | Prompts with one key share a session. |
| `PromptKeywords.EveryMatchIsCitedOnce` | internal/governance/prompt_keywords.go:53-152 | For every rule, the source and corroborating ids over all findings are, as a bag, the ids of the available prompts whose text matches. |
| `PromptKeywords.FindingsDoNotJoinSessions` | internal/governance/prompt_keywords.go:126-181 | Every id a finding cites is of a prompt with the identity's key, in the finding's session. |
| `PromptKeywords.ReportHoldsRuleFindings` | internal/governance/prompt_keywords.go:60-74 | A rule's findings in the report are exactly its own. |
| `PromptKeywords.PromptKeywordsFromEvents` | internal/governance/prompt_keywords.go:53-79 | Over the events' user prompts: the findings as a bag, in order of event and rule; a violation exactly with a finding; clean exactly when every prompt has a body and none matches. |
| `KeywordFindings.VerdictIsMatch` | internal/governance/prompt_keywords.go:53-79 | A violation exactly when an enabled rule that compiles matches a retained text; clean exactly when there is such a rule, no match, and every prompt has a body in some record. |
| `KeywordFindings.PrimaryIsPreferred` | internal/governance/prompt_keywords.go:126-152 | A finding names an OTLP record if one matches, of those the least event id, and every other match once. |
| `KeywordFindings.FindingsAreOrdered` | internal/governance/prompt_keywords.go:75-77 | Findings come in the order of source event and rule. |
| `RiskyAccess.WalkAccesses` | internal/governance/risky_access.go:284-298 | Appends, as a bag, exactly the accesses nested anywhere in the value. |
| `RiskyAccess.TakeField` | internal/governance/risky_access.go:286-292 | What an object holds does not depend on the order its fields are visited in. |
| `RiskyAccess.RiskyAccessFromEvents` | internal/governance/risky_access.go:96-125 | The findings of some walk of the events; a violation exactly with a finding, clean exactly with an access and no finding. |
| `AccessFindings.ReportIsWarranted` | internal/governance/risky_access.go:96-169 | Read off the events: each finding is reported as often as the events record its access, with the class of its own classifier and the time and session of its own event; a violation exactly with a recorded secret, clean exactly with an access and none. |
| `AccessFindings.AccessesAreRecorded` | internal/governance/risky_access.go:260-315 | A value holds a file read exactly when a non-blank text stands under one of the four path keys at some depth, and a command exactly under one of the four command keys. |
| `AccessFindings.ThinIsStated` | internal/governance/risky_access.go:216-238 | A thin access event is of the time, session and surface of its event, and holds the source id and the access alone. |
| `RiskyAccess.ThinAccessEvents` | internal/governance/risky_access.go:241-251 | One thin event per access, numbered in order. |
| `RiskyAccess.ThinHoldsItsAccess` | internal/governance/risky_access.go:216-238 | A thin access event holds the one access it was made for. |
| `RiskyAccess.WalksAgree` | internal/governance/risky_access.go:284-298 | Two walks of the same events find the same, up to order. |
| `RiskyAccess.ThinReportAgrees` | internal/governance/risky_access.go:203-251 | The report on the thin events has the same bag of findings, verdict and visibility as the report on the events, for payloads nested to any depth. |

## Left out

- Breakdown.Calculate: takes the observed window and the classified intervals as given; how records are classified, and the percent fields, are not modelled.
- McpInventory.MCPInventoryFromEvents: the tool names of a row are a set; the source lists it sorted.
- PromptKeywords.UserPrompts: assistant and raw-body conversation records, and thinking text, are not modelled; no policy reads them.
- SkillUsage.SkillUsageFromEvents: the constant notes and schema versions of the reports are not modelled.
- Scorecards.ScorecardsFromAccumulators: the sources of a card are a set; the source lists it sorted.
- SourceEvents.SourceEventsFromSession: maps nested deeper than one level inside an extension are immutable values, and a typed nil map is an absent one.
- AgentTree.Build: the evidence lists attached to each node are not modelled.
- SubAgents.CollectSpans: takes the reduced span views; reading them from event payloads is a key table.
- SubAgentRelations.RelationFromGroup: constant fields (schema version, provenance, parent kind) are not modelled.
- CodexRoots.RelationFromAgentThread: only the fields that place a relation; evidence, token and extension fields are copied values.
- CodexThreads.Thread.SetOutcome: collecting threads from rollout events (metadata, activity, tokens) is not modelled beyond outcomes and operations.
- SpanProjection.Project: takes the record read from each span envelope; the fallbacks among envelope keys are not modelled. Starts are compared as text, as the code does, which is not always chronological order.
- SpanPaging.CursorRoundTrip: the encoding of the cursor around the event id text is not modelled.
- Paging.SessionEvents: the store is a sorted listing per read that settles in the end; SQL is not modelled. The page limit is any positive number.
- Residual.ReduceValue: values are trees; JSON text, duplicate keys and key order are not modelled.
- ToolCalls.ToolCallCollector.CollectToolResults: calls are values in the map, not pointers; within a line each id has one call, so nothing the lines can observe is lost.
- Transcript.WalkTranscript: decoding a line is a parameter, and of an event only its identity, type, times and call are modelled; joined text and thinking blocks lose their boundaries and are not inverted. Results with no matching tool use are dropped, as documented.
- Transcript.Collapse: CorrelateModelInteractions is a third copy of the same loop and has no instance here.
- Cost.Calculate: catalog loading and validation, and token values held as JSON numbers, are not modelled.
- PromptKeywords.GroupPromptIdentities: identities are values reached by position, not pointers.
- PathRulesFromEvents: a filter over accesses that `RiskyAccess.WalkAccesses` already models; only its decision is.
- conversation.Page and PageSessionFiles: the same cursor contract as `SpanPaging.Page`.
- HTTP handlers, authentication, storage, the OTLP field mappers, user interface, configuration and the capability matrix: plumbing and tables.
- int64 overflow, NaN and float rounding.

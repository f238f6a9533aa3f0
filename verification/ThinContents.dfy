/** Exactly what a thin copy holds, key by key (internal/insights/source_events.go):
    no more than some insight reads. */
module ThinContents {
  import opened Prelude
  import opened Canonical
  import opened Signals
  import opened EventReadings
  import opened ThinEvent

  // ---- what decides -----------------------------------------------------------

  predicate OfClaude(e: Event, eventType: string) {
    e.env.provider == "anthropic" && e.env.tool == "claude-code" && e.env.eventType == eventType
  }

  predicate CountsTokens(sc: Scanner, e: Event) { TokenInput(sc, e).Some? || TokenCached(sc, e).Some? }

  predicate CallsServer(e: Event) { McpUseOf(e).Some? }

  predicate ReportsIntegration(e: Event) { IntegrationKind in e.attributes && Key.IntegrationState in e.attributes }

  ghost predicate Recovers(e: Event) { Observes(e.attributes, LifecycleKind, "auth_recovery") }

  ghost predicate Governed(e: Event) {
    Recovers(e) || ApprovalPolicy in e.attributes || SandboxPolicy in e.attributes || AuthMode in e.attributes
  }

  /** What the copy helpers decide, by what the event shows. */
  ghost predicate Decides(sc: Scanner, e: Event, g: Guards) {
    && (g.connection <==> e.env.eventType == "mcp_server_connection") && (g.use <==> CallsServer(e))
    && (g.metric <==> HasBlock(e, PerformanceMetric)) && (g.explicit <==> DetectionState(e) == Explicit)
    && (g.tokens <==> CountsTokens(sc, e)) && (g.integration <==> ReportsIntegration(e))
    && (g.governance <==> Governed(e)) && (g.recovery <==> Recovers(e))
    && (g.shape == Some(PromptShape(EventEcho, {Key.Prompt, PromptLength}, MessageUuid)) <==> OfClaude(e, "user_prompt"))
    && (g.shape == Some(PromptShape(Transcript, {PromptContent}, Uuid)) <==> OfClaude(e, "user_message"))
    && (g.shape == None <==> !OfClaude(e, "user_prompt") && !OfClaude(e, "user_message"))
  }

  lemma {:induction false} GuardsDecide(sc: Scanner, e: Event)
    ensures Decides(sc, e, GuardsOf(sc, e))
  {
    AttributeIsRead(e.attributes, LifecycleKind, "auth_recovery");
    ShapeIsStated(e);
  }

  lemma {:induction false} ShapeIsStated(e: Event)
    ensures PromptShapeOf(e)
            == if OfClaude(e, "user_prompt") then Some(PromptShape(EventEcho, {Key.Prompt, PromptLength}, MessageUuid))
               else if OfClaude(e, "user_message") then Some(PromptShape(Transcript, {PromptContent}, Uuid))
               else None
  {}

  // ---- which events -----------------------------------------------------------

  /** An event is on the index exactly if it is a connection or a call of an MCP server, has
      an outcome, a metric or a skill detection, is a Claude prompt, counts tokens, or reports
      an integration or a policy. */
  lemma {:induction false} KeptIsStated(sc: Scanner, e: Event)
    ensures Kept(sc, e)
            <==> || e.env.eventType == "mcp_server_connection" || CallsServer(e)
                 || HasBlock(e, OutcomeContract) || HasBlock(e, PerformanceMetric) || SkillDetection in e.extensions
                 || OfClaude(e, "user_prompt") || OfClaude(e, "user_message")
                 || CountsTokens(sc, e) || ReportsIntegration(e) || Governed(e)
  {
    AttributeIsRead(e.attributes, LifecycleKind, "auth_recovery");
  }

  // ---- which attributes -------------------------------------------------------

  const POLICIES := {ApprovalPolicy, SandboxPolicy, AuthMode}
  const TOKENS := {InputTokenCount, OutputTokenCount, CachedInputTokens, CachedInputTokenCount}
  const LIFECYCLE := {LifecycleKind, LifecyclePhase, LifecycleStatus}
  const METRICS := {Model, MetricName, MetricFamily, MetricKind, MetricUnit, SampleCount,
                    MetricSum, MetricAverage, MetricMin, MetricMax, MetricValue}
  const INTEGRATIONS := {IntegrationKind, IntegrationName, Key.IntegrationState}

  ghost predicate Carries(sc: Scanner, e: Event, k: Key) {
    || k in POLICIES
    || (k in TOKENS && CountsTokens(sc, e))
    || (k in LIFECYCLE && Recovers(e))
    || (k in METRICS && HasBlock(e, PerformanceMetric))
    || (k in INTEGRATIONS && ReportsIntegration(e))
    || (k == Category && CallsServer(e))
  }

  /** The attributes kept, with their values, and no others. */
  lemma {:induction false} AttributesAreStated(sc: Scanner, e: Event, k: Key)
    ensures HasKey(Thin(sc, e).attributes, k) == if Carries(sc, e, k) then HasKey(e.attributes, k) else None
  {
    var g := GuardsOf(sc, e);
    GuardsDecide(sc, e);
    AttributeOfThin(sc, e, k);
    CarriedIsStated(sc, e, g, k);
  }

  lemma {:induction false} CarriedIsStated(sc: Scanner, e: Event, g: Guards, k: Key)
    requires Decides(sc, e, g)
    ensures CarriedAttribute(g, k) <==> Carries(sc, e, k)
  {
    KeysAreNamed();
    KeysAreApart(k);
  }

  lemma {:induction false} KeysAreNamed()
    ensures POLICY_KEYS == POLICIES && TOKEN_KEYS == TOKENS && LIFECYCLE_KEYS == LIFECYCLE && METRIC_KEYS == METRICS
    ensures INTEGRATION_KEYS == INTEGRATIONS
  {}

  /** No attribute is kept for two reasons. */
  lemma {:induction false} KeysAreApart(k: Key)
    ensures k in POLICIES ==> k !in TOKENS && k !in LIFECYCLE && k !in METRICS && k !in INTEGRATIONS && k != Category
    ensures k in TOKENS ==> k !in LIFECYCLE && k !in METRICS && k !in INTEGRATIONS && k != Category
    ensures k in LIFECYCLE ==> k !in METRICS && k !in INTEGRATIONS && k != Category
    ensures k in METRICS ==> k !in INTEGRATIONS && k != Category
    ensures k in INTEGRATIONS ==> k != Category
  {}

  // ---- which extensions -------------------------------------------------------

  function BlockAt(e: Event, k: Key): Option<Json> {
    if HasBlock(e, k) then Some(e.extensions[k]) else None
  }

  function InBlock(e: Event, namespace: Key, k: Key): Option<Json> {
    At(ObjectAt(e.extensions, namespace), k)
  }

  /** The blocks kept whole: calls, outcomes and metrics; the skill of an explicit detection;
      the integration and governance blocks of events that report them; a connection's echo;
      and every skill detection as it is. */
  lemma {:induction false} BlocksAreStated(sc: Scanner, e: Event)
    ensures var thin := Thin(sc, e).extensions;
            && HasKey(thin, McpCall) == (if CallsServer(e) then BlockAt(e, McpCall) else None)
            && HasKey(thin, OutcomeContract) == BlockAt(e, OutcomeContract)
            && HasKey(thin, PerformanceMetric) == BlockAt(e, PerformanceMetric)
            && HasKey(thin, SkillDetection) == HasKey(e.extensions, SkillDetection)
            && HasKey(thin, Skill) == (if DetectionState(e) == Explicit then BlockAt(e, Skill) else None)
            && HasKey(thin, Key.IntegrationState) == (if ReportsIntegration(e) then BlockAt(e, Key.IntegrationState) else None)
            && HasKey(thin, GovernanceStateKey) == (if Governed(e) then BlockAt(e, GovernanceStateKey) else None)
            && HasKey(thin, SessionLifecycle) == (if Governed(e) then BlockAt(e, SessionLifecycle) else None)
            && (e.env.eventType == "mcp_server_connection" ==> HasKey(thin, EventEcho) == BlockAt(e, EventEcho))
  {
    GuardsDecide(sc, e);
    ExtensionOfThin(sc, e, McpCall);
    ExtensionOfThin(sc, e, OutcomeContract);
    ExtensionOfThin(sc, e, PerformanceMetric);
    ExtensionOfThin(sc, e, SkillDetection);
    ExtensionOfThin(sc, e, Skill);
    ExtensionOfThin(sc, e, Key.IntegrationState);
    ExtensionOfThin(sc, e, GovernanceStateKey);
    ExtensionOfThin(sc, e, SessionLifecycle);
    ExtensionOfThin(sc, e, EventEcho);
    WholeBlocks(e, GuardsOf(sc, e));
  }

  lemma {:induction false} WholeBlocks(e: Event, g: Guards)
    ensures ThinExtension(g, e, McpCall) == (if g.use then BlockAt(e, McpCall) else None)
    ensures ThinExtension(g, e, OutcomeContract) == BlockAt(e, OutcomeContract)
    ensures ThinExtension(g, e, PerformanceMetric) == BlockAt(e, PerformanceMetric)
    ensures ThinExtension(g, e, SkillDetection) == HasKey(e.extensions, SkillDetection)
    ensures ThinExtension(g, e, Skill) == (if g.explicit then BlockAt(e, Skill) else None)
    ensures ThinExtension(g, e, Key.IntegrationState) == (if g.integration then BlockAt(e, Key.IntegrationState) else None)
    ensures ThinExtension(g, e, GovernanceStateKey) == (if g.governance then BlockAt(e, GovernanceStateKey) else None)
    ensures ThinExtension(g, e, SessionLifecycle) == (if g.governance then BlockAt(e, SessionLifecycle) else None)
    ensures g.connection ==> ThinExtension(g, e, EventEcho) == BlockAt(e, EventEcho)
  {}

  /** Of any other echo, the body of a Claude prompt and the token counts. */
  ghost predicate CarriesEcho(sc: Scanner, e: Event, k: Key) {
    || (k in {Key.Prompt, PromptLength} && OfClaude(e, "user_prompt"))
    || (k in {InputTokens, OutputTokens, CacheReadTokens, CacheCreationTokens} && CountsTokens(sc, e))
  }

  /** The keys kept of the blocks that are not kept whole, with their values, and no others. */
  lemma {:induction false} KeysAreStated(sc: Scanner, e: Event, k: Key)
    ensures e.env.eventType != "mcp_server_connection" ==>
              InBlock(Thin(sc, e), EventEcho, k) == if CarriesEcho(sc, e, k) then InBlock(e, EventEcho, k) else None
    ensures InBlock(Thin(sc, e), Transcript, k)
            == if k == PromptContent && OfClaude(e, "user_message") then InBlock(e, Transcript, k) else None
    ensures InBlock(Thin(sc, e), Correlation, k)
            == if (k == MessageUuid && OfClaude(e, "user_prompt")) || (k == Uuid && OfClaude(e, "user_message"))
               then InBlock(e, Correlation, k) else None
  {
    EchoIsStated(sc, e, k);
    TranscriptIsStated(sc, e, k);
    CorrelationIsStated(sc, e, k);
  }

  lemma {:induction false} SomeKeys(e: Event, namespace: Key, keys: set<Key>, k: Key)
    ensures At(AsObject(KeptKeys(e, namespace, keys)), k) == if k in keys then InBlock(e, namespace, k) else None
  {
    if HasBlock(e, namespace) {
      var m := e.extensions[namespace].fields;
      KeysOfBlock(e, namespace, keys, m);
      SomeOf(Restrict(m, keys), k);
      RestrictAt(m, keys, k);
    }
  }

  lemma {:induction false} KeysOfBlock(e: Event, namespace: Key, keys: set<Key>, m: Object)
    requires HasKey(e.extensions, namespace) == Some(JObj(m))
    ensures KeptKeys(e, namespace, keys) == if Restrict(m, keys) == map[] then None else Some(JObj(Restrict(m, keys)))
    ensures forall k :: InBlock(e, namespace, k) == HasKey(m, k)
  {}

  /** An empty block is left out, and then there is nothing under any key. */
  lemma {:induction false} SomeOf(left: Object, k: Key)
    ensures At(AsObject(if left == map[] then None else Some(JObj(left))), k) == HasKey(left, k)
  {}

  lemma {:induction false} RestrictAt(m: Object, keys: set<Key>, k: Key)
    ensures HasKey(Restrict(m, keys), k) == if k in keys then HasKey(m, k) else None
  {}

  lemma {:induction false} EchoIsStated(sc: Scanner, e: Event, k: Key)
    ensures e.env.eventType != "mcp_server_connection" ==>
              InBlock(Thin(sc, e), EventEcho, k) == if CarriesEcho(sc, e, k) then InBlock(e, EventEcho, k) else None
  {
    var g := GuardsOf(sc, e);
    GuardsDecide(sc, e);
    ExtensionOfThin(sc, e, EventEcho);
    SomeKeys(e, EventEcho, EchoKeys(g), k);
    EchoKeysAreStated(sc, e, g, k);
  }

  lemma {:induction false} EchoKeysAreStated(sc: Scanner, e: Event, g: Guards, k: Key)
    requires Decides(sc, e, g)
    ensures k in EchoKeys(g) <==> CarriesEcho(sc, e, k)
    ensures !g.connection ==> ThinExtension(g, e, EventEcho) == KeptKeys(e, EventEcho, EchoKeys(g))
  {}

  lemma {:induction false} TranscriptIsStated(sc: Scanner, e: Event, k: Key)
    ensures InBlock(Thin(sc, e), Transcript, k)
            == if k == PromptContent && OfClaude(e, "user_message") then InBlock(e, Transcript, k) else None
  {
    GuardsDecide(sc, e);
    ExtensionOfThin(sc, e, Transcript);
    SomeKeys(e, Transcript, {PromptContent}, k);
  }

  lemma {:induction false} CorrelationIsStated(sc: Scanner, e: Event, k: Key)
    ensures InBlock(Thin(sc, e), Correlation, k)
            == if (k == MessageUuid && OfClaude(e, "user_prompt")) || (k == Uuid && OfClaude(e, "user_message"))
               then InBlock(e, Correlation, k) else None
  {
    GuardsDecide(sc, e);
    ExtensionOfThin(sc, e, Correlation);
    SomeKeys(e, Correlation, {MessageUuid}, k);
    SomeKeys(e, Correlation, {Uuid}, k);
  }

  /** Nothing is kept under any other key, and nobody is named: not the actor, the device, the
      task or the repository. */
  lemma {:induction false} NothingElseIsKept(sc: Scanner, e: Event, k: Key)
    requires k !in {EventEcho, Transcript, Correlation, McpCall, OutcomeContract, PerformanceMetric, SkillDetection, Skill,
                    Key.IntegrationState, GovernanceStateKey, SessionLifecycle}
    ensures k !in Thin(sc, e).extensions
    ensures Thin(sc, e).env == e.env.(actorId := "", deviceId := "", taskId := None, repositoryId := None)
  {
    ExtensionOfThin(sc, e, k);
    OtherKey(GuardsOf(sc, e), e, k);
  }

  lemma {:induction false} OtherKey(g: Guards, e: Event, k: Key)
    requires k !in {EventEcho, Transcript, Correlation, McpCall, OutcomeContract, PerformanceMetric, SkillDetection, Skill,
                    Key.IntegrationState, GovernanceStateKey, SessionLifecycle}
    ensures ThinExtension(g, e, k) == None
  {}
}

/** The thin copy of one event, as a value: which evidence of an event the insight
    index keeps (thinInsightEvent, internal/insights/source_events.go). Stated key
    by key; module SourceEvents runs the copy helpers that build it. */
module ThinEvent {
  import opened Prelude
  import opened Canonical
  import opened Signals

  const METRIC_KEYS := {Model, MetricName, MetricFamily, MetricKind, MetricUnit, SampleCount,
                        MetricSum, MetricAverage, MetricMin, MetricMax, MetricValue}
  const TOKEN_KEYS := {InputTokenCount, OutputTokenCount, CachedInputTokens, CachedInputTokenCount}
  const TOKEN_ECHO_KEYS := {InputTokens, OutputTokens, CacheReadTokens, CacheCreationTokens}
  const POLICY_KEYS := {ApprovalPolicy, SandboxPolicy, AuthMode}
  const LIFECYCLE_KEYS := {LifecycleKind, LifecyclePhase, LifecycleStatus}
  const INTEGRATION_KEYS := {IntegrationKind, IntegrationName, IntegrationState}

  datatype PromptShape = PromptShape(namespace: Key, keys: set<Key>, correlation: Key)

  /** userPromptShapes, guarded by the Claude surface check */
  function PromptShapeOf(e: Event): Option<PromptShape> {
    if e.env.provider != "anthropic" || e.env.tool != "claude-code" then None
    else if e.env.eventType == "user_prompt" then Some(PromptShape(EventEcho, {Prompt, PromptLength}, MessageUuid))
    else if e.env.eventType == "user_message" then Some(PromptShape(Transcript, {PromptContent}, Uuid))
    else None
  }

  predicate HasIntegration(e: Event) {
    IntegrationKind in e.attributes && IntegrationState in e.attributes
  }

  predicate AuthRecovery(e: Event) {
    ObservedAttribute(e.attributes, LifecycleKind) == Some("auth_recovery")
  }

  predicate HasGovernance(e: Event) {
    || AuthRecovery(e)
    || ApprovalPolicy in e.attributes || SandboxPolicy in e.attributes || AuthMode in e.attributes
  }

  /** The second result of thinInsightEvent: some engine needs this event. */
  predicate Kept(sc: Scanner, e: Event) {
    || IsMcpConnection(e) || McpUseOf(e).Some?
    || OutcomeOf(e).Some? || MetricOf(e).Some?
    || SkillDetection in e.extensions
    || PromptShapeOf(e).Some?
    || HasTokenSignal(sc, e)
    || HasIntegration(e)
    || HasGovernance(e)
  }

  /** Everything the copy helpers decide about an event. */
  datatype Guards = Guards(
    connection: bool, use: bool, metric: bool, explicit: bool, shape: Option<PromptShape>,
    tokens: bool, integration: bool, governance: bool, recovery: bool)

  function GuardsOf(sc: Scanner, e: Event): Guards {
    Guards(IsMcpConnection(e), McpUseOf(e).Some?, MetricOf(e).Some?, DetectionState(e) == Explicit,
           PromptShapeOf(e), HasTokenSignal(sc, e), HasIntegration(e), HasGovernance(e), AuthRecovery(e))
  }

  function ThinEnvelope(env: Envelope): Envelope {
    env.(actorId := "", deviceId := "", taskId := None, repositoryId := None)
  }

  /** Which attributes the copy keeps. */
  predicate CarriedAttribute(g: Guards, k: Key) {
    if k in POLICY_KEYS then true
    else if k in TOKEN_KEYS then g.tokens
    else if k in LIFECYCLE_KEYS then g.recovery
    else if k in METRIC_KEYS then g.metric
    else if k in INTEGRATION_KEYS then g.integration
    else k == Category && g.use
  }

  function Restrict(m: Object, keys: set<Key>): Object {
    map k | k in m && k in keys :: m[k]
  }

  /** An object extension, kept whole under a guard. */
  function KeptObject(e: Event, k: Key, guard: bool): Option<Json> {
    if guard && ObjectAt(e.extensions, k).Some? then Some(e.extensions[k]) else None
  }

  /** Some keys of an object extension, kept unless none is present. */
  function KeptKeys(e: Event, k: Key, keys: set<Key>): Option<Json> {
    match ObjectAt(e.extensions, k)
    case None => None
    case Some(m) => if Restrict(m, keys) == map[] then None else Some(JObj(Restrict(m, keys)))
  }

  function PromptEchoKeys(g: Guards): set<Key> {
    if g.shape.Some? && g.shape.value.namespace == EventEcho then g.shape.value.keys else {}
  }

  function EchoKeys(g: Guards): set<Key> {
    PromptEchoKeys(g) + (if g.tokens then TOKEN_ECHO_KEYS else {})
  }

  const CARRIED_EXTENSIONS := {EventEcho, McpCall, OutcomeContract, PerformanceMetric, SkillDetection, Skill,
                               IntegrationState, GovernanceStateKey, SessionLifecycle, Transcript, Correlation}

  /** What the copy holds under extension key `k`. */
  function ThinExtension(g: Guards, e: Event, k: Key): Option<Json> {
    if k.EventEcho? then
      if g.connection then KeptObject(e, k, true) else KeptKeys(e, k, EchoKeys(g))
    else if k.McpCall? then KeptObject(e, k, g.use)
    else if k.OutcomeContract? || k.PerformanceMetric? then KeptObject(e, k, true)
    else if k.SkillDetection? then HasKey(e.extensions, k)
    else if k.Skill? then KeptObject(e, k, g.explicit)
    else if k.IntegrationState? then KeptObject(e, k, g.integration)
    else if k.GovernanceStateKey? || k.SessionLifecycle? then KeptObject(e, k, g.governance)
    else
      match g.shape
      case None => None
      case Some(shape) =>
        if k.Correlation? then KeptKeys(e, k, {shape.correlation})
        else if k.Transcript? && shape.namespace.Transcript? then KeptKeys(e, k, shape.keys)
        else None
  }

  function ThinAttributes(g: Guards, e: Event): Object {
    map k | k in e.attributes && CarriedAttribute(g, k) :: e.attributes[k]
  }

  function ThinExtensions(g: Guards, e: Event): Object {
    map k | k in CARRIED_EXTENSIONS && ThinExtension(g, e, k).Some? :: ThinExtension(g, e, k).value
  }

  /** The first result of thinInsightEvent. */
  function Thin(sc: Scanner, e: Event): Event {
    Event(ThinEnvelope(e.env), ThinAttributes(GuardsOf(sc, e), e), ThinExtensions(GuardsOf(sc, e), e))
  }

  // ---- the thin copy answers every reader like the event it came from ---------
  //
  // The readers only see a copy `t` through lookups, so each lemma below is about
  // any event that agrees with the original on the lookups its reader makes.

  lemma {:induction false} AttributeUnder(g: Guards, e: Event, k: Key)
    ensures HasKey(ThinAttributes(g, e), k) == if CarriedAttribute(g, k) then HasKey(e.attributes, k) else None
  {}

  lemma {:induction false} ExtensionUnder(g: Guards, e: Event, k: Key)
    ensures HasKey(ThinExtensions(g, e), k) == ThinExtension(g, e, k)
  {}

  lemma {:induction false} AttributeOfThin(sc: Scanner, e: Event, k: Key)
    ensures HasKey(Thin(sc, e).attributes, k)
            == if CarriedAttribute(GuardsOf(sc, e), k) then HasKey(e.attributes, k) else None
  {
    AttributeUnder(GuardsOf(sc, e), e, k);
  }

  lemma {:induction false} ExtensionOfThin(sc: Scanner, e: Event, k: Key)
    ensures HasKey(Thin(sc, e).extensions, k) == ThinExtension(GuardsOf(sc, e), e, k)
  {
    ExtensionUnder(GuardsOf(sc, e), e, k);
  }

  /** `t` holds the same value as `e` under these keys. */
  predicate SameAttributes(e: Event, t: Event, keys: set<Key>) {
    forall k :: k in keys ==> HasKey(t.attributes, k) == HasKey(e.attributes, k)
  }

  predicate SameObject(e: Event, t: Event, k: Key) {
    ObjectAt(t.extensions, k) == ObjectAt(e.extensions, k)
  }

  predicate SameIdentity(e: Event, t: Event) {
    t.env == ThinEnvelope(e.env)
  }

  lemma {:induction false} McpAgrees(e: Event, t: Event)
    requires SameIdentity(e, t)
    requires IsMcpConnection(e) ==> SameObject(e, t, EventEcho)
    requires if McpUseOf(e).Some? then SameObject(e, t, McpCall) && SameAttributes(e, t, {Category})
             else ObjectAt(t.extensions, McpCall) == None
    ensures McpSignalOf(t) == McpSignalOf(e)
  {
    assert McpUseOf(e).Some? ==> HasKey(t.attributes, Category) == HasKey(e.attributes, Category);
  }

  lemma {:induction false} ThinKeepsMcp(sc: Scanner, e: Event)
    ensures McpSignalOf(Thin(sc, e)) == McpSignalOf(e)
  {
    ExtensionOfThin(sc, e, EventEcho);
    McpUseIsKept(sc, e);
    McpAgrees(e, Thin(sc, e));
  }

  lemma {:induction false} McpUseIsKept(sc: Scanner, e: Event)
    ensures if McpUseOf(e).Some? then SameObject(e, Thin(sc, e), McpCall) && SameAttributes(e, Thin(sc, e), {Category})
            else ObjectAt(Thin(sc, e).extensions, McpCall) == None
  {
    ExtensionOfThin(sc, e, McpCall);
    AttributeOfThin(sc, e, Category);
  }

  lemma {:induction false} ThinKeepsOutcome(sc: Scanner, e: Event)
    ensures OutcomeOf(Thin(sc, e)) == OutcomeOf(e)
  {
    ExtensionOfThin(sc, e, OutcomeContract);
  }

  lemma {:induction false} ThinKeepsMetric(sc: Scanner, e: Event)
    ensures MetricOf(Thin(sc, e)) == MetricOf(e)
  {
    ExtensionOfThin(sc, e, PerformanceMetric);
    AttributeOfThin(sc, e, Model);
  }

  lemma {:induction false} SkillAgrees(e: Event, t: Event)
    requires SameIdentity(e, t)
    requires HasKey(t.extensions, SkillDetection) == HasKey(e.extensions, SkillDetection)
    requires DetectionState(e) == Explicit ==> SameObject(e, t, Skill)
    ensures DetectionState(t) == DetectionState(e)
    ensures SkillInvocation(t) == SkillInvocation(e)
    ensures SkillPolicyOf(t) == SkillPolicyOf(e)
  {
    ParseDetectionName(Explicit);
  }

  lemma {:induction false} ThinKeepsSkill(sc: Scanner, e: Event)
    ensures DetectionState(Thin(sc, e)) == DetectionState(e)
    ensures SkillInvocation(Thin(sc, e)) == SkillInvocation(e)
    ensures SkillPolicyOf(Thin(sc, e)) == SkillPolicyOf(e)
  {
    ExtensionOfThin(sc, e, SkillDetection);
    ExtensionOfThin(sc, e, Skill);
    SkillAgrees(e, Thin(sc, e));
  }

  /** What an event that carries no token signal may still leave in its copy. */
  predicate NoMoreThan<T(==)>(kept: Option<T>, original: Option<T>) {
    kept == None || kept == original
  }

  lemma {:induction false} TokensAgree(sc: Scanner, e: Event, t: Event)
    requires SameIdentity(e, t)
    requires forall k :: k in TOKEN_KEYS ==> NoMoreThan(HasKey(t.attributes, k), HasKey(e.attributes, k))
    requires forall k :: k in TOKEN_ECHO_KEYS ==>
               NoMoreThan(At(ObjectAt(t.extensions, EventEcho), k), At(ObjectAt(e.extensions, EventEcho), k))
    requires SameObject(e, t, OutcomeContract)
    requires HasTokenSignal(sc, e) ==> SameAttributes(e, t, TOKEN_KEYS)
    requires HasTokenSignal(sc, e) ==> forall k :: k in TOKEN_ECHO_KEYS ==>
               At(ObjectAt(t.extensions, EventEcho), k) == At(ObjectAt(e.extensions, EventEcho), k)
    ensures TokenInput(sc, t) == TokenInput(sc, e) && TokenCached(sc, t) == TokenCached(sc, e)
  {
    assert InputTokenCount in TOKEN_KEYS && CachedInputTokens in TOKEN_KEYS && CachedInputTokenCount in TOKEN_KEYS;
    assert InputTokens in TOKEN_ECHO_KEYS && CacheReadTokens in TOKEN_ECHO_KEYS;
  }

  lemma {:induction false} EchoUnder(g: Guards, e: Event, k: Key)
    ensures At(AsObject(ThinExtension(g, e, EventEcho)), k)
            == if k in EchoKeys(g) || g.connection then At(ObjectAt(e.extensions, EventEcho), k) else None
  {
    var raw := ObjectAt(e.extensions, EventEcho);
    if raw.Some? && k in raw.value && k in EchoKeys(g) {
      assert k in Restrict(raw.value, EchoKeys(g));
    }
  }

  lemma {:induction false} EchoOfThin(sc: Scanner, e: Event, k: Key)
    ensures var g := GuardsOf(sc, e);
            At(ObjectAt(Thin(sc, e).extensions, EventEcho), k)
            == if k in EchoKeys(g) || g.connection then At(ObjectAt(e.extensions, EventEcho), k) else None
  {
    ExtensionOfThin(sc, e, EventEcho);
    EchoUnder(GuardsOf(sc, e), e, k);
  }

  lemma {:induction false} ThinKeepsTokens(sc: Scanner, e: Event)
    ensures TokenPointOf(sc, Thin(sc, e)) == TokenPointOf(sc, e)
  {
    var t := Thin(sc, e);
    forall k | k in TOKEN_KEYS
      ensures NoMoreThan(HasKey(t.attributes, k), HasKey(e.attributes, k))
      ensures HasTokenSignal(sc, e) ==> HasKey(t.attributes, k) == HasKey(e.attributes, k)
    {
      AttributeOfThin(sc, e, k);
    }
    forall k | k in TOKEN_ECHO_KEYS
      ensures NoMoreThan(At(ObjectAt(t.extensions, EventEcho), k), At(ObjectAt(e.extensions, EventEcho), k))
      ensures HasTokenSignal(sc, e) ==>
                At(ObjectAt(t.extensions, EventEcho), k) == At(ObjectAt(e.extensions, EventEcho), k)
    {
      EchoOfThin(sc, e, k);
    }
    ExtensionOfThin(sc, e, OutcomeContract);
    TokensAgree(sc, e, t);
  }

  lemma {:induction false} GovernanceAgrees(e: Event, t: Event)
    requires SameIdentity(e, t)
    requires SameAttributes(e, t, {ApprovalPolicy, SandboxPolicy, AuthMode})
    requires if AuthRecovery(e) then SameAttributes(e, t, {LifecycleKind, LifecycleStatus, LifecyclePhase})
             else HasKey(t.attributes, LifecycleKind) == None
    ensures GovernanceStatesOf(t) == GovernanceStatesOf(e)
  {
    assert HasKey(t.attributes, ApprovalPolicy) == HasKey(e.attributes, ApprovalPolicy);
    assert HasKey(t.attributes, SandboxPolicy) == HasKey(e.attributes, SandboxPolicy);
    assert HasKey(t.attributes, AuthMode) == HasKey(e.attributes, AuthMode);
    if AuthRecovery(e) {
      assert HasKey(t.attributes, LifecycleKind) == HasKey(e.attributes, LifecycleKind);
      assert HasKey(t.attributes, LifecycleStatus) == HasKey(e.attributes, LifecycleStatus);
      assert HasKey(t.attributes, LifecyclePhase) == HasKey(e.attributes, LifecyclePhase);
    }
  }

  lemma {:induction false} PolicyAttributesOfThin(sc: Scanner, e: Event)
    ensures SameAttributes(e, Thin(sc, e), {ApprovalPolicy, SandboxPolicy, AuthMode})
  {
    AttributeOfThin(sc, e, ApprovalPolicy);
    AttributeOfThin(sc, e, SandboxPolicy);
    AttributeOfThin(sc, e, AuthMode);
  }

  lemma {:induction false} LifecycleAttributesOfThin(sc: Scanner, e: Event)
    ensures if AuthRecovery(e) then SameAttributes(e, Thin(sc, e), {LifecycleKind, LifecycleStatus, LifecyclePhase})
            else HasKey(Thin(sc, e).attributes, LifecycleKind) == None
  {
    LifecycleAttributeOfThin(sc, e, LifecycleKind);
    LifecycleAttributeOfThin(sc, e, LifecycleStatus);
    LifecycleAttributeOfThin(sc, e, LifecyclePhase);
  }

  lemma {:induction false} LifecycleAttributeOfThin(sc: Scanner, e: Event, k: Key)
    requires k.LifecycleKind? || k.LifecycleStatus? || k.LifecyclePhase?
    ensures HasKey(Thin(sc, e).attributes, k) == if AuthRecovery(e) then HasKey(e.attributes, k) else None
  {
    AttributeOfThin(sc, e, k);
  }

  lemma {:induction false} ThinKeepsGovernance(sc: Scanner, e: Event)
    ensures GovernanceStatesOf(Thin(sc, e)) == GovernanceStatesOf(e)
  {
    var t := Thin(sc, e);
    PolicyAttributesOfThin(sc, e);
    LifecycleAttributesOfThin(sc, e);
    GovernanceAgrees(e, t);
  }
}

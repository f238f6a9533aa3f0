/** What one event contributes to each insight: the per-event readers that the
    thin index must keep answering alike. The string parsers (fmt.Sscan,
    strconv.ParseInt, strconv.ParseFloat) stay abstract. */
module Signals {
  import opened Prelude
  import opened Canonical

  datatype Scanner = Scanner(
    sscan: string -> Option<int>,
    parseInt: string -> Option<int>,
    parseFloat: string -> Option<real>)

  function FirstOf<T>(primary: Option<T>, fallback: Option<T>): Option<T> {
    if primary.Some? then primary else fallback
  }

  /** optionalInt64 and intValue: an integral number, or a string that scans
      (`sscan` is fmt.Sscan after the blank check: a blank string does not scan). */
  function OptionalInt(sc: Scanner, v: Option<Json>): Option<int> {
    match v
    case Some(JInt(n)) => Some(n)
    case Some(JFloat(r)) => if r == r.Floor as real then Some(r.Floor) else None
    case Some(JStr(s)) => sc.sscan(s)
    case _ => None
  }

  /** stringValue(m, k, fallback) */
  function StringValue(m: Option<Object>, k: Key, fallback: string): string {
    NonBlank(At(m, k), fallback)
  }

  function NonBlank(v: Option<Json>, fallback: string): string {
    match v
    case Some(JStr(s)) => if Blank(s) then fallback else s
    case _ => fallback
  }

  /** observedAttribute: a trimmed non-empty string. */
  function ObservedAttribute(m: Object, k: Key): Option<string> {
    Observed(HasKey(m, k))
  }

  function Observed(v: Option<Json>): Option<string> {
    match v
    case Some(JStr(s)) => if Blank(s) then None else Some(TrimSpace(s))
    case _ => None
  }

  // ---- skills -----------------------------------------------------------------

  datatype Detection = Unknown | Unavailable | Inferred | Explicit

  function DetectionName(d: Detection): string {
    match d
    case Explicit => "explicit"
    case Inferred => "inferred"
    case Unavailable => "unavailable"
    case Unknown => "unknown"
  }

  function ParseDetection(v: Option<Json>): Detection {
    match v
    case Some(JStr(s)) =>
      var t := TrimSpace(s);
      if t == "explicit" then Explicit
      else if t == "inferred" then Inferred
      else if t == "unavailable" then Unavailable
      else Unknown
    case _ => Unknown
  }

  function DetectionState(e: Event): Detection {
    ParseDetection(HasKey(e.extensions, SkillDetection))
  }

  lemma {:induction false} ParseDetectionName(d: Detection)
    ensures ParseDetection(Some(JStr(DetectionName(d)))) == d
  {
    assert TrimSpace(DetectionName(d)) == DetectionName(d);
  }

  datatype SkillKey = SkillKey(provider: string, tool: string, name: string)
  datatype Invocation = Invocation(key: SkillKey, outcome: string)

  /** The skill invocation an event counts as, if its state is explicit and it names a skill. */
  function SkillInvocation(e: Event): Option<Invocation> {
    var payload := ObjectAt(e.extensions, Skill);
    var name := StringValue(payload, Name, "");
    if DetectionState(e) == Explicit && payload.Some? && name != "" then
      Some(Invocation(SkillKey(e.env.provider, e.env.tool, name), StringValue(payload, Outcome, "")))
    else None
  }

  // ---- tokens -----------------------------------------------------------------

  function TokenInput(sc: Scanner, e: Event): Option<int> {
    FirstOf(
      FirstOf(OptionalInt(sc, HasKey(e.attributes, InputTokenCount)),
              OptionalInt(sc, At(ObjectAt(e.extensions, EventEcho), InputTokens))),
      OptionalInt(sc, At(ObjectAt(e.extensions, OutcomeContract), InputTokens)))
  }

  function TokenCached(sc: Scanner, e: Event): Option<int> {
    FirstOf(
      FirstOf(OptionalInt(sc, HasKey(e.attributes, CachedInputTokens)),
              OptionalInt(sc, HasKey(e.attributes, CachedInputTokenCount))),
      OptionalInt(sc, At(ObjectAt(e.extensions, EventEcho), CacheReadTokens)))
  }

  /** tokenSignals' third result */
  predicate HasTokenSignal(sc: Scanner, e: Event) {
    TokenInput(sc, e).Some? || TokenCached(sc, e).Some?
  }

  datatype TokenPoint = TokenPoint(
    occurredAt: int, eventId: string, sessionId: string, provider: string, tool: string,
    input: Option<int>, cached: Option<int>)

  function TokenPointOf(sc: Scanner, e: Event): Option<TokenPoint> {
    if HasTokenSignal(sc, e) then
      Some(TokenPoint(e.env.occurredAt, e.env.eventId, e.env.sessionId, e.env.provider, e.env.tool,
                      TokenInput(sc, e), TokenCached(sc, e)))
    else None
  }

  /** requestTokenContext */
  datatype TokenContext = TokenContext(
    input: Option<int>, output: Option<int>, cachedInput: Option<int>, cacheCreated: Option<int>)

  function RequestContext(sc: Scanner, e: Event): TokenContext {
    var echo := ObjectAt(e.extensions, EventEcho);
    TokenContext(
      FirstOf(OptionalInt(sc, HasKey(e.attributes, InputTokenCount)), OptionalInt(sc, At(echo, InputTokens))),
      FirstOf(OptionalInt(sc, HasKey(e.attributes, OutputTokenCount)), OptionalInt(sc, At(echo, OutputTokens))),
      FirstOf(
        FirstOf(OptionalInt(sc, HasKey(e.attributes, CachedInputTokens)),
                OptionalInt(sc, HasKey(e.attributes, CachedInputTokenCount))),
        OptionalInt(sc, At(echo, CacheReadTokens))),
      OptionalInt(sc, At(echo, CacheCreationTokens)))
  }

  // ---- MCP --------------------------------------------------------------------

  predicate IsMcpConnection(e: Event) {
    e.env.eventType == "mcp_server_connection"
  }

  datatype McpUse = McpUse(serverName: string, toolName: string)

  function McpUseOf(e: Event): Option<McpUse> {
    var call := ObjectAt(e.extensions, McpCall);
    var server := StringValue(call, ServerName, "");
    if (e.env.eventType in {"mcp_call", "mcp.call"} || HasKey(e.attributes, Category) == Some(JStr("MCP call")))
       && call.Some? && !Blank(server)
    then Some(McpUse(server, StringValue(call, ToolName, "")))
    else None
  }

  /** The connection columns of an MCPServer row. */
  datatype McpServer = McpServer(
    serverName: string, identityState: string, provider: string, tool: string, sessionId: string,
    status: string, scope: string, transport: string, isPlugin: Option<bool>)

  function IdentityState(name: string): string {
    if Blank(name) then "unavailable" else "provider_reported"
  }

  /** mcpConnection: the server key and row an observed connection reports. */
  function ConnectionOf(e: Event): Option<(string, McpServer)> {
    if IsMcpConnection(e) then
      var echo := ObjectAt(e.extensions, EventEcho);
      var name := StringValue(echo, ServerName, "");
      var plugin := match At(echo, IsPlugin) { case Some(JBool(b)) => Some(b) case _ => None };
      Some((if Blank(name) then "connection:" + e.env.eventId else name,
            McpServer(name, IdentityState(name), e.env.provider, e.env.tool, e.env.sessionId,
                      StringValue(echo, Status, "unknown"), StringValue(echo, ServerScope, "unknown"),
                      StringValue(echo, TransportType, "unknown"), plugin)))
    else None
  }

  datatype McpSignal = McpSignal(
    provider: string, tool: string, sessionId: string,
    use: Option<McpUse>, connection: Option<(string, McpServer)>)

  function McpSignalOf(e: Event): Option<McpSignal> {
    if McpUseOf(e).Some? || ConnectionOf(e).Some? then
      Some(McpSignal(e.env.provider, e.env.tool, e.env.sessionId, McpUseOf(e), ConnectionOf(e)))
    else None
  }

  // ---- outcomes and performance metrics ---------------------------------------

  datatype OutcomeSignal = OutcomeSignal(provider: string, tool: string, contract: Object)

  function OutcomeOf(e: Event): Option<OutcomeSignal> {
    match ObjectAt(e.extensions, OutcomeContract)
    case Some(contract) => Some(OutcomeSignal(e.env.provider, e.env.tool, contract))
    case None => None
  }

  datatype MetricSignal = MetricSignal(
    occurredAt: int, eventId: string, provider: string, tool: string, model: string, metric: Object)

  function MetricOf(e: Event): Option<MetricSignal> {
    match ObjectAt(e.extensions, PerformanceMetric)
    case Some(metric) =>
      var model := TextAt(e.attributes, Model);
      Some(MetricSignal(e.env.occurredAt, e.env.eventId, e.env.provider, e.env.tool,
                        if model.Some? then model.value else "", metric))
    case None => None
  }

  // ---- governance states ------------------------------------------------------

  datatype GovernanceState = GovernanceState(
    provider: string, tool: string, sessionId: string, kind: string, value: string,
    phase: Option<string>, sourceEventId: string, observedAt: int)

  function NewState(e: Event, kind: string, value: string, phase: Option<string>): GovernanceState {
    GovernanceState(e.env.provider, e.env.tool, e.env.sessionId, kind, value, phase,
                    e.env.eventId, e.env.occurredAt)
  }

  function PolicyState(e: Event, key: Key, kind: string): seq<GovernanceState> {
    var observed := ObservedAttribute(e.attributes, key);
    if observed.Some? then [NewState(e, kind, observed.value, None)] else []
  }

  /** governanceStatesFromEvent */
  function GovernanceStatesOf(e: Event): seq<GovernanceState> {
    PolicyState(e, ApprovalPolicy, "approval_policy")
    + PolicyState(e, SandboxPolicy, "sandbox_policy")
    + PolicyState(e, AuthMode, "auth_mode")
    + (if ObservedAttribute(e.attributes, LifecycleKind) == Some("auth_recovery") then
         var status := ObservedAttribute(e.attributes, LifecycleStatus);
         if status.Some?
         then [NewState(e, "auth_recovery", status.value, ObservedAttribute(e.attributes, LifecyclePhase))]
         else []
       else [])
  }

  function GovernanceSignalOf(e: Event): Option<seq<GovernanceState>> {
    if GovernanceStatesOf(e) == [] then None else Some(GovernanceStatesOf(e))
  }

  // ---- the skill allowlist policy ---------------------------------------------

  /** explicitSkillName: the detection marker compared untrimmed, the name untouched. */
  function ExplicitSkillName(e: Event): Option<string> {
    if HasKey(e.extensions, SkillDetection) == Some(JStr("explicit")) then
      match At(ObjectAt(e.extensions, Skill), Name)
      case Some(JStr(s)) => if s == "" then None else Some(s)
      case _ => None
    else None
  }

  /** skillSignalPresent */
  predicate SkillSignalPresent(e: Event) {
    && SkillDetection in e.extensions
    && !(e.env.eventType == "skill_coverage" && e.extensions[SkillDetection] == JStr("explicit"))
  }

  datatype SkillPolicySignal = Named(provider: string, tool: string, name: string, eventId: string) | Incomplete

  function SkillPolicyOf(e: Event): Option<SkillPolicySignal> {
    match ExplicitSkillName(e)
    case Some(name) => Some(Named(e.env.provider, e.env.tool, name, e.env.eventId))
    case None => if SkillSignalPresent(e) then Some(Incomplete) else None
  }
}

/** Decoded JSON values and the canonical event envelope
    (internal/normalize/canonical/event.go). */
module Canonical {
  import opened Prelude

  /** Map keys. A key the code names is a constructor of its own; every other
      provider key is `Other`, so distinct constructors are distinct strings. */
  datatype Key =
    // event attributes
    | InputTokenCount | OutputTokenCount | CachedInputTokens | CachedInputTokenCount
    | Model | MetricName | MetricFamily | MetricKind | MetricUnit | SampleCount
    | MetricSum | MetricAverage | MetricMin | MetricMax | MetricValue
    | Category | IntegrationKind | IntegrationName | IntegrationState
    | ApprovalPolicy | SandboxPolicy | AuthMode
    | LifecycleKind | LifecyclePhase | LifecycleStatus
    | SourceEventId | FilePath | Path | File | Filename
    | Command | CommandLine | Cmd | FullCommand
    // provider extension namespaces
    | EventEcho | McpCall | OutcomeContract | PerformanceMetric
    | SkillDetection | Skill | GovernanceStateKey | SessionLifecycle
    | Correlation | Transcript
    // keys inside a namespace
    | ServerName | Status | ServerScope | TransportType | IsPlugin | ToolName
    | InputTokens | OutputTokens | CacheReadTokens | CacheCreationTokens
    | Name | Outcome | Prompt | PromptLength | PromptContent | MessageUuid | Uuid
    | Source | ErrorCode | RetryAttempt | DurationMs
    | Family | Kind | Unit | Scope | Dimensions | AggregationTemporality
    | Sum | Min | Max | Value
    | Other(name: string)

  type Object = map<Key, Json>

  /** A decoded `any`. Go's int and int64 are `JInt`, float64 is `JFloat`. */
  datatype Json =
    | JNull
    | JBool(b: bool)
    | JInt(n: int)
    | JFloat(r: real)
    | JStr(s: string)
    | JArr(items: seq<Json>)
    | JObj(fields: map<Key, Json>)

  /** Every scalar field of canonical.Event. */
  datatype Envelope = Envelope(
    schemaVersion: string, eventId: string, eventType: string,
    occurredAt: int, receivedAt: int, provider: string, tool: string,
    sourceSchema: string, sourceVersion: string, actorId: string, deviceId: string,
    sessionId: string, taskId: Option<string>, repositoryId: Option<string>,
    privacyLevel: string)

  datatype Event = Event(env: Envelope, attributes: Object, extensions: Object)

  /** `v.(string)` */
  function AsText(v: Option<Json>): Option<string> {
    match v
    case Some(JStr(s)) => Some(s)
    case _ => None
  }

  /** `v.(map[string]any)` */
  function AsObject(v: Option<Json>): Option<Object> {
    match v
    case Some(JObj(m)) => Some(m)
    case _ => None
  }

  function TextAt(m: Object, k: Key): Option<string> {
    AsText(HasKey(m, k))
  }

  function ObjectAt(m: Object, k: Key): Option<Object> {
    AsObject(HasKey(m, k))
  }

  /** `m[k]` read through a possibly missing map, as Go reads a nil map. */
  function At(m: Option<Object>, k: Key): Option<Json> {
    if m.Some? then HasKey(m.value, k) else None
  }
}

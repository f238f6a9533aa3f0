/** What each insight reads off one event, by the names of the keys
    (internal/insights, internal/governance). */
module EventReadings {
  import opened Prelude
  import opened Canonical
  import opened Signals
  import IntegrationStates
  import GovernanceStates

  /** The map has this text under the key. */
  predicate Shows(m: Object, k: Key, s: string) {
    k in m && m[k] == JStr(s)
  }

  /** So has the namespace of the event. */
  predicate ShowsIn(e: Event, namespace: Key, k: Key, s: string) {
    namespace in e.extensions && e.extensions[namespace].JObj? && Shows(e.extensions[namespace].fields, k, s)
  }

  predicate HasBlock(e: Event, namespace: Key) {
    namespace in e.extensions && e.extensions[namespace].JObj?
  }

  /** The column shows the text if it is visible, and the fallback if there is none. */
  ghost predicate Column(e: Event, namespace: Key, k: Key, fallback: string, column: string) {
    || (ShowsIn(e, namespace, k, column) && !Blank(column))
    || (column == fallback && forall s :: ShowsIn(e, namespace, k, s) ==> Blank(s))
  }

  lemma {:induction false} ColumnIsRead(e: Event, namespace: Key, k: Key, fallback: string, column: string)
    ensures StringValue(ObjectAt(e.extensions, namespace), k, fallback) == column <==> Column(e, namespace, k, fallback, column)
  {
    var v := At(ObjectAt(e.extensions, namespace), k);
    forall s ensures ShowsIn(e, namespace, k, s) <==> v == Some(JStr(s)) {}
    TextIsShown(v, fallback, column);
  }

  lemma {:induction false} TextIsShown(v: Option<Json>, fallback: string, column: string)
    ensures NonBlank(v, fallback) == column
            <==> (v == Some(JStr(column)) && !Blank(column)) || (column == fallback && forall s :: v == Some(JStr(s)) ==> Blank(s))
  {}

  /** An attribute is observed as its trimmed text, unless that is empty. */
  ghost predicate Observes(m: Object, k: Key, t: string) {
    exists raw :: Shows(m, k, raw) && !Blank(raw) && t == TrimSpace(raw)
  }

  lemma {:induction false} AttributeIsRead(m: Object, k: Key, t: string)
    ensures ObservedAttribute(m, k) == Some(t) <==> Observes(m, k, t)
  {
    if k in m && m[k].JStr? {
      assert Shows(m, k, m[k].s);
    }
  }

  // ---- counts -----------------------------------------------------------------

  /** A whole number, or a text that scans to one. */
  lemma {:induction false} IntegerIsRead(sc: Scanner, v: Option<Json>, n: int)
    ensures OptionalInt(sc, v) == Some(n)
            <==> v == Some(JInt(n)) || v == Some(JFloat(n as real)) || (v.Some? && v.value.JStr? && sc.sscan(v.value.s) == Some(n))
  {}

  /** `n` is read from the first of two places that has a count. */
  predicate ReadFirst(sc: Scanner, n: Option<int>, first: Option<Json>, second: Option<Json>) {
    n == if OptionalInt(sc, first) == None then OptionalInt(sc, second) else OptionalInt(sc, first)
  }

  function EchoAt(e: Event, k: Key): Option<Json> {
    At(ObjectAt(e.extensions, EventEcho), k)
  }

  /** The request token columns: attributes first, then the echo; cached input has two
      attributes and cache creation none. */
  lemma {:induction false} RequestIsRead(sc: Scanner, e: Event)
    ensures var c := RequestContext(sc, e);
            && ReadFirst(sc, c.input, HasKey(e.attributes, InputTokenCount), EchoAt(e, InputTokens))
            && ReadFirst(sc, c.output, HasKey(e.attributes, OutputTokenCount), EchoAt(e, OutputTokens))
            && c.cacheCreated == OptionalInt(sc, EchoAt(e, CacheCreationTokens))
            && (OptionalInt(sc, HasKey(e.attributes, CachedInputTokens)).Some? ==>
                  c.cachedInput == OptionalInt(sc, HasKey(e.attributes, CachedInputTokens)))
            && (OptionalInt(sc, HasKey(e.attributes, CachedInputTokens)).None? ==>
                  ReadFirst(sc, c.cachedInput, HasKey(e.attributes, CachedInputTokenCount), EchoAt(e, CacheReadTokens)))
  {}

  // ---- skills -----------------------------------------------------------------

  /** A skill is counted where the detection, trimmed, is explicit and the skill block names
      one visibly. */
  lemma {:induction false} SkillIsRead(e: Event, i: Invocation)
    ensures SkillInvocation(e) == Some(i)
            <==> && Observes(e.extensions, SkillDetection, "explicit") && HasBlock(e, Skill)
                 && ShowsIn(e, Skill, Name, i.key.name) && !Blank(i.key.name)
                 && i.key.provider == e.env.provider && i.key.tool == e.env.tool
                 && Column(e, Skill, Outcome, "", i.outcome)
  {
    AttributeIsRead(e.extensions, SkillDetection, "explicit");
    ColumnIsRead(e, Skill, Name, "", i.key.name);
    ColumnIsRead(e, Skill, Outcome, "", i.outcome);
    ExplicitIsObserved(e);
  }

  /** The detection is the trimmed marker if it is one of three words, and unknown otherwise. */
  lemma {:induction false} DetectionIsRead(e: Event)
    ensures DetectionState(e) == Explicit <==> Observes(e.extensions, SkillDetection, "explicit")
    ensures DetectionState(e) == Inferred <==> Observes(e.extensions, SkillDetection, "inferred")
    ensures DetectionState(e) == Unavailable <==> Observes(e.extensions, SkillDetection, "unavailable")
  {
    AttributeIsRead(e.extensions, SkillDetection, "explicit");
    AttributeIsRead(e.extensions, SkillDetection, "inferred");
    AttributeIsRead(e.extensions, SkillDetection, "unavailable");
    if SkillDetection in e.extensions && e.extensions[SkillDetection].JStr? {
      BlankTrimsToNothing(e.extensions[SkillDetection].s);
    }
  }

  lemma {:induction false} ExplicitIsObserved(e: Event)
    ensures DetectionState(e) == Explicit <==> ObservedAttribute(e.extensions, SkillDetection) == Some("explicit")
  {
    if SkillDetection in e.extensions && e.extensions[SkillDetection].JStr? {
      BlankTrimsToNothing(e.extensions[SkillDetection].s);
    }
  }

  /** The policy takes the marker untrimmed and any name but the empty one; every other
      detection leaves it uncertain, but for the coverage markers of explicit surfaces. */
  lemma {:induction false} PolicyIsRead(e: Event)
    ensures forall name: string ::
              ExplicitSkillName(e) == Some(name)
              <==> name != "" && Shows(e.extensions, SkillDetection, "explicit") && ShowsIn(e, Skill, Name, name)
    ensures SkillPolicyOf(e) == Some(Incomplete)
            <==> && SkillDetection in e.extensions && ExplicitSkillName(e).None?
                 && !(e.env.eventType == "skill_coverage" && Shows(e.extensions, SkillDetection, "explicit"))
    ensures ExplicitSkillName(e).Some? ==>
              SkillPolicyOf(e) == Some(Named(e.env.provider, e.env.tool, ExplicitSkillName(e).value, e.env.eventId))
    ensures SkillDetection !in e.extensions ==> SkillPolicyOf(e) == None
  {}

  // ---- MCP --------------------------------------------------------------------

  /** A call: an MCP event or category, with a block that names a server visibly. */
  lemma {:induction false} CallIsRead(e: Event, u: McpUse)
    ensures McpUseOf(e) == Some(u)
            <==> && (e.env.eventType == "mcp_call" || e.env.eventType == "mcp.call" || Shows(e.attributes, Category, "MCP call"))
                 && ShowsIn(e, McpCall, ServerName, u.serverName) && !Blank(u.serverName)
                 && Column(e, McpCall, ToolName, "", u.toolName)
  {
    ColumnIsRead(e, McpCall, ServerName, "", u.serverName);
    ColumnIsRead(e, McpCall, ToolName, "", u.toolName);
  }

  /** A connection: its server's name is its key, or its event's id where it has none. */
  lemma {:induction false} ConnectionIsRead(e: Event, key: string, s: McpServer)
    ensures ConnectionOf(e) == Some((key, s))
            <==> && e.env.eventType == "mcp_server_connection"
                 && Column(e, EventEcho, ServerName, "", s.serverName)
                 && (s.serverName == "" ==> key == "connection:" + e.env.eventId && s.identityState == "unavailable")
                 && (s.serverName != "" ==> key == s.serverName && s.identityState == "provider_reported")
                 && s.provider == e.env.provider && s.tool == e.env.tool && s.sessionId == e.env.sessionId
                 && Column(e, EventEcho, Status, "unknown", s.status)
                 && Column(e, EventEcho, ServerScope, "unknown", s.scope)
                 && Column(e, EventEcho, TransportType, "unknown", s.transport)
                 && (s.isPlugin.Some? <==> EchoAt(e, IsPlugin).Some? && EchoAt(e, IsPlugin).value.JBool?)
                 && (s.isPlugin.Some? ==> EchoAt(e, IsPlugin) == Some(JBool(s.isPlugin.value)))
  {
    ColumnIsRead(e, EventEcho, ServerName, "", s.serverName);
    ColumnIsRead(e, EventEcho, Status, "unknown", s.status);
    ColumnIsRead(e, EventEcho, ServerScope, "unknown", s.scope);
    ColumnIsRead(e, EventEcho, TransportType, "unknown", s.transport);
  }

  // ---- outcomes and metrics ---------------------------------------------------

  /** The blocks the scorecards and the metrics read, and what they take of the event. */
  lemma {:induction false} BlocksAreRead(e: Event)
    ensures OutcomeOf(e).Some? <==> HasBlock(e, OutcomeContract)
    ensures OutcomeOf(e).Some? ==>
              OutcomeOf(e).value == OutcomeSignal(e.env.provider, e.env.tool, e.extensions[OutcomeContract].fields)
    ensures MetricOf(e).Some? <==> HasBlock(e, PerformanceMetric)
    ensures MetricOf(e).Some? ==>
              var s := MetricOf(e).value;
              && s.metric == e.extensions[PerformanceMetric].fields
              && s.occurredAt == e.env.occurredAt && s.eventId == e.env.eventId
              && s.provider == e.env.provider && s.tool == e.env.tool
              && (Shows(e.attributes, Model, s.model) || (s.model == "" && forall t :: !Shows(e.attributes, Model, t)))
  {}

  // ---- states -----------------------------------------------------------------

  /** A governance state: one of three policies, or an authentication recovery with a
      status, and its phase if it has one. */
  lemma {:induction false} GovernanceIsRead(e: Event, s: GovernanceState)
    ensures s in GovernanceStatesOf(e)
            <==> && s.provider == e.env.provider && s.tool == e.env.tool && s.sessionId == e.env.sessionId
                 && s.sourceEventId == e.env.eventId && s.observedAt == e.env.occurredAt
                 && ((s.kind == "approval_policy" && s.phase == None && Observes(e.attributes, ApprovalPolicy, s.value))
                     || (s.kind == "sandbox_policy" && s.phase == None && Observes(e.attributes, SandboxPolicy, s.value))
                     || (s.kind == "auth_mode" && s.phase == None && Observes(e.attributes, AuthMode, s.value))
                     || (s.kind == "auth_recovery" && Observes(e.attributes, LifecycleKind, "auth_recovery")
                         && Observes(e.attributes, LifecycleStatus, s.value)
                         && (forall t :: s.phase == Some(t) <==> Observes(e.attributes, LifecyclePhase, t))))
  {
    PolicyStateIsRead(e, ApprovalPolicy, "approval_policy", s);
    PolicyStateIsRead(e, SandboxPolicy, "sandbox_policy", s);
    PolicyStateIsRead(e, AuthMode, "auth_mode", s);
    AttributeIsRead(e.attributes, LifecycleKind, "auth_recovery");
    AttributeIsRead(e.attributes, LifecycleStatus, s.value);
    PhaseIsRead(e, s.phase);
  }

  lemma {:induction false} PhaseIsRead(e: Event, phase: Option<string>)
    ensures phase == ObservedAttribute(e.attributes, LifecyclePhase)
            <==> forall t :: phase == Some(t) <==> Observes(e.attributes, LifecyclePhase, t)
  {
    var observed := ObservedAttribute(e.attributes, LifecyclePhase);
    forall t ensures observed == Some(t) <==> Observes(e.attributes, LifecyclePhase, t) {
      AttributeIsRead(e.attributes, LifecyclePhase, t);
    }
    if observed.Some? {
      assert Observes(e.attributes, LifecyclePhase, observed.value);
    }
  }

  lemma {:induction false} PolicyStateIsRead(e: Event, key: Key, kind: string, s: GovernanceState)
    ensures s in PolicyState(e, key, kind)
            <==> && s.provider == e.env.provider && s.tool == e.env.tool && s.sessionId == e.env.sessionId
                 && s.sourceEventId == e.env.eventId && s.observedAt == e.env.occurredAt
                 && s.kind == kind && s.phase == None && Observes(e.attributes, key, s.value)
  {
    AttributeIsRead(e.attributes, key, s.value);
  }

  /** The attributes report the state, or an MCP block stands for a used server. */
  lemma {:induction false} IntegrationIsRead(e: Event, s: IntegrationStates.Integration)
    ensures IntegrationStates.IntegrationOf(e) == Some(s)
            <==> && s.provider == e.env.provider && s.tool == e.env.tool
                 && s.sourceEventId == e.env.eventId && s.observedAt == e.env.occurredAt
                 && if (exists k, t :: Observes(e.attributes, IntegrationKind, k) && Observes(e.attributes, Key.IntegrationState, t))
                    then && Observes(e.attributes, IntegrationKind, s.kind) && Observes(e.attributes, Key.IntegrationState, s.state)
                         && (forall n :: s.name == Some(n) <==> Observes(e.attributes, IntegrationName, n))
                    else && HasBlock(e, McpCall) && s.kind == "mcp" && s.state == "used"
                         && (forall n :: s.name == Some(n) <==> Observes(e.extensions[McpCall].fields, ServerName, n))
  {
    AttributeIsRead(e.attributes, IntegrationKind, s.kind);
    AttributeIsRead(e.attributes, Key.IntegrationState, s.state);
    SomeStateIsRead(e.attributes);
    NameIsRead(e.attributes, IntegrationName, s.name);
    if IntegrationName in e.attributes && e.attributes[IntegrationName].JStr? {
      TrimmedStays(e.attributes[IntegrationName].s);
    }
    assert TrimSpace("") == "";
    if HasBlock(e, McpCall) {
      NameIsRead(e.extensions[McpCall].fields, ServerName, s.name);
    }
  }

  lemma {:induction false} SomeStateIsRead(m: Object)
    ensures (exists k, t :: Observes(m, IntegrationKind, k) && Observes(m, Key.IntegrationState, t))
            <==> ObservedAttribute(m, IntegrationKind).Some? && ObservedAttribute(m, Key.IntegrationState).Some?
  {
    var kind, state := ObservedAttribute(m, IntegrationKind), ObservedAttribute(m, Key.IntegrationState);
    if k, t :| Observes(m, IntegrationKind, k) && Observes(m, Key.IntegrationState, t) {
      AttributeIsRead(m, IntegrationKind, k);
      AttributeIsRead(m, Key.IntegrationState, t);
    }
    if kind.Some? && state.Some? {
      AttributeIsRead(m, IntegrationKind, kind.value);
      AttributeIsRead(m, Key.IntegrationState, state.value);
    }
  }

  lemma {:induction false} TrimmedStays(s: string)
    ensures TrimSpace(TrimSpace(s)) == TrimSpace(s)
  {
    TrimLeftEdge(s);
    TrimRightEdge(TrimLeft(s));
  }

  /** An integration's name is the trimmed text, unless that is empty. */
  lemma {:induction false} NameIsRead(m: Object, k: Key, name: Option<string>)
    ensures (forall n :: name == Some(n) <==> Observes(m, k, n))
            <==> name == (if k in m && m[k].JStr? && TrimSpace(m[k].s) != "" then Some(TrimSpace(m[k].s)) else None)
  {
    var trimmed := if k in m && m[k].JStr? && TrimSpace(m[k].s) != "" then Some(TrimSpace(m[k].s)) else None;
    forall n ensures Observes(m, k, n) <==> trimmed == Some(n) {
      if k in m && m[k].JStr? {
        BlankTrimsToNothing(m[k].s);
        assert Shows(m, k, m[k].s);
      }
    }
    SameOption(name, trimmed);
  }

  lemma {:induction false} SameOption(a: Option<string>, b: Option<string>)
    ensures a == b <==> forall n :: a == Some(n) <==> b == Some(n)
  {
    if a.Some? && (forall n :: a == Some(n) <==> b == Some(n)) {
      assert a == Some(a.value);
    }
    if b.Some? && (forall n :: a == Some(n) <==> b == Some(n)) {
      assert b == Some(b.value);
    }
  }

  // ---- the keys of the states -------------------------------------------------

  /** Two texts and what follows, joined with NUL. */
  lemma {:induction false} PartsSplit(a: string, r: string, b: string, s: string)
    requires '\0' !in a && '\0' !in b
    ensures a + ['\0'] + r == b + ['\0'] + s <==> a == b && r == s
  {
    if a + ['\0'] + r == b + ['\0'] + s {
      JoinSplits('\0', a, r, b, s);
    }
  }

  function Tail(first: string, rest: string): string { first + ['\0'] + rest }

  lemma {:induction false} Nested(a: string, b: string, rest: string)
    ensures a + ['\0'] + b + ['\0'] + rest == Tail(a, Tail(b, rest))
  {
    Regroup(a + ['\0'], b + ['\0'], rest);
  }

  predicate PlainIntegration(s: IntegrationStates.Integration) {
    && '\0' !in s.provider && '\0' !in s.tool && '\0' !in s.kind
    && (s.name.Some? ==> '\0' !in s.name.value && s.name.value != "")
  }

  /** States without NUL are of one key exactly when provider, tool, kind, name and state are
      the same. */
  lemma {:induction false} IntegrationKeysTell(a: IntegrationStates.Integration, b: IntegrationStates.Integration)
    requires PlainIntegration(a) && PlainIntegration(b)
    ensures IntegrationStates.KeyOf(a) == IntegrationStates.KeyOf(b)
            <==> a.provider == b.provider && a.tool == b.tool && a.kind == b.kind && a.name == b.name && a.state == b.state
  {
    IntegrationKeyNests(a);
    IntegrationKeyNests(b);
    var m, n := if a.name.Some? then a.name.value else "", if b.name.Some? then b.name.value else "";
    PartsSplit(a.provider, Tail(a.tool, Tail(a.kind, Tail(m, a.state))), b.provider, Tail(b.tool, Tail(b.kind, Tail(n, b.state))));
    PartsSplit(a.tool, Tail(a.kind, Tail(m, a.state)), b.tool, Tail(b.kind, Tail(n, b.state)));
    PartsSplit(a.kind, Tail(m, a.state), b.kind, Tail(n, b.state));
    PartsSplit(m, a.state, n, b.state);
  }

  lemma {:induction false} IntegrationKeyNests(s: IntegrationStates.Integration)
    ensures var name := if s.name.Some? then s.name.value else "";
            IntegrationStates.KeyOf(s) == Tail(s.provider, Tail(s.tool, Tail(s.kind, Tail(name, s.state))))
  {
    var name := if s.name.Some? then s.name.value else "";
    var front := s.provider + ['\0'] + s.tool;
    Nested(s.kind, name, s.state);
    Regroup(front + ['\0'], s.kind + ['\0'] + name + ['\0'], s.state);
    Regroup(front + ['\0'], s.kind + ['\0'] + name, ['\0']);
    Regroup(front + ['\0'], s.kind + ['\0'], name);
    Regroup(front + ['\0'], s.kind, ['\0']);
    Nested(s.provider, s.tool, Tail(s.kind, Tail(name, s.state)));
  }

  predicate PlainGovernance(s: GovernanceState) {
    && '\0' !in s.provider && '\0' !in s.tool && '\0' !in s.sessionId && '\0' !in s.kind && '\0' !in s.value
    && s.phase != Some("")
  }

  /** ... and governance states exactly when provider, tool, session, kind, value and phase are. */
  lemma {:induction false} GovernanceKeysTell(a: GovernanceState, b: GovernanceState)
    requires PlainGovernance(a) && PlainGovernance(b)
    ensures GovernanceStates.KeyOf(a) == GovernanceStates.KeyOf(b)
            <==> && a.provider == b.provider && a.tool == b.tool && a.sessionId == b.sessionId && a.kind == b.kind
                 && a.value == b.value && a.phase == b.phase
  {
    GovernanceKeyNests(a);
    GovernanceKeyNests(b);
    var p, q := if a.phase.Some? then a.phase.value else "", if b.phase.Some? then b.phase.value else "";
    PartsSplit(a.provider, Tail(a.tool, Tail(a.sessionId, Tail(a.kind, Tail(a.value, p)))),
               b.provider, Tail(b.tool, Tail(b.sessionId, Tail(b.kind, Tail(b.value, q)))));
    PartsSplit(a.tool, Tail(a.sessionId, Tail(a.kind, Tail(a.value, p))), b.tool, Tail(b.sessionId, Tail(b.kind, Tail(b.value, q))));
    PartsSplit(a.sessionId, Tail(a.kind, Tail(a.value, p)), b.sessionId, Tail(b.kind, Tail(b.value, q)));
    PartsSplit(a.kind, Tail(a.value, p), b.kind, Tail(b.value, q));
    PartsSplit(a.value, p, b.value, q);
  }

  lemma {:induction false} GovernanceKeyNests(s: GovernanceState)
    ensures var phase := if s.phase.Some? then s.phase.value else "";
            GovernanceStates.KeyOf(s) == Tail(s.provider, Tail(s.tool, Tail(s.sessionId, Tail(s.kind, Tail(s.value, phase)))))
  {
    var phase := if s.phase.Some? then s.phase.value else "";
    var front := s.provider + ['\0'] + s.tool + ['\0'] + s.sessionId;
    Nested(s.kind, s.value, phase);
    Regroup(front + ['\0'], s.kind + ['\0'] + s.value + ['\0'], phase);
    Regroup(front + ['\0'], s.kind + ['\0'] + s.value, ['\0']);
    Regroup(front + ['\0'], s.kind + ['\0'], s.value);
    Regroup(front + ['\0'], s.kind, ['\0']);
    Regroup(s.provider + ['\0'] + s.tool + ['\0'], s.sessionId + ['\0'], Tail(s.kind, Tail(s.value, phase)));
    Regroup(s.provider + ['\0'] + s.tool + ['\0'], s.sessionId, ['\0']);
    Nested(s.provider, s.tool, Tail(s.sessionId, Tail(s.kind, Tail(s.value, phase))));
  }

  /** A state is as of its event: its time, and its id between states of one time. */
  lemma {:induction false} StatesAreStamped(s: IntegrationStates.Integration, g: GovernanceState)
    ensures IntegrationStates.StampOf(s).at == s.observedAt && IntegrationStates.StampOf(s).id == s.sourceEventId
    ensures GovernanceStates.StampOf(g).at == g.observedAt && GovernanceStates.StampOf(g).id == g.sourceEventId
  {}
}

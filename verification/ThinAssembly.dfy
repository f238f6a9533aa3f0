/** The copy helpers of internal/insights/source_events.go as updates of the two maps
    of the thin event, and the proof that, run in order, they build `Thin`. */
module ThinAssembly {
  import opened Prelude
  import opened Canonical
  import opened Signals
  import opened ThinEvent

  /** `if m, ok := event.ProviderExtensions[k].(map[string]any); ok { x[k] = m }` */
  function PutObject(x: Object, e: Event, k: Key, guard: bool): Object {
    if guard && ObjectAt(e.extensions, k).Some? then x[k := e.extensions[k]] else x
  }

  /** selectedKeys, stored unless empty. */
  function PutKeys(x: Object, e: Event, k: Key, keys: set<Key>): Object {
    var m := ObjectAt(e.extensions, k);
    if m.None? || Restrict(m.value, keys) == map[] then x else x[k := JObj(Restrict(m.value, keys))]
  }

  function PutMcp(g: Guards, x: Object, e: Event): Object {
    PutObject(PutObject(x, e, EventEcho, g.connection), e, McpCall, g.use)
  }

  function PutSkillPolicy(g: Guards, x: Object, e: Event): Object {
    if SkillDetection !in e.extensions then x
    else PutObject(x[SkillDetection := e.extensions[SkillDetection]], e, Skill, g.explicit)
  }

  function PutUserPrompt(g: Guards, x: Object, e: Event): Object {
    match g.shape
    case None => x
    case Some(shape) => PutKeys(PutKeys(x, e, shape.namespace, shape.keys), e, Correlation, {shape.correlation})
  }

  /** mergeTokenEventExtension: the token keys are added to whatever echo is kept so far. */
  function PutTokenEcho(x: Object, e: Event): Object {
    match ObjectAt(e.extensions, EventEcho)
    case None => x
    case Some(raw) =>
      var kept := ObjectAt(x, EventEcho);
      var merged := (if kept.Some? then kept.value else map[]) + Restrict(raw, TOKEN_ECHO_KEYS);
      if merged == map[] then x else x[EventEcho := JObj(merged)]
  }

  function PutTokens(g: Guards, x: Object, e: Event): Object {
    if !g.tokens then x
    else PutObject(PutTokenEcho(x, e), e, OutcomeContract, OutcomeContract !in x)
  }

  function PutGovernance(g: Guards, x: Object, e: Event): Object {
    PutObject(PutObject(x, e, GovernanceStateKey, g.governance), e, SessionLifecycle, g.governance)
  }

  /** The extensions after all helpers have run. */
  function Assembled(g: Guards, e: Event): Object {
    var x1 := PutObject(PutObject(PutMcp(g, map[], e), e, OutcomeContract, true), e, PerformanceMetric, true);
    var x2 := PutTokens(g, PutUserPrompt(g, PutSkillPolicy(g, x1, e), e), e);
    PutGovernance(g, PutObject(x2, e, IntegrationState, g.integration), e)
  }

  lemma {:induction false} PutObjectLookup(x: Object, e: Event, k: Key, guard: bool, q: Key)
    ensures HasKey(PutObject(x, e, k, guard), q)
            == if q == k && KeptObject(e, k, guard).Some? then KeptObject(e, k, guard) else HasKey(x, q)
  {}

  function StageOneLookup(g: Guards, e: Event, q: Key): Option<Json> {
    if q == EventEcho then KeptObject(e, q, g.connection)
    else if q == McpCall then KeptObject(e, q, g.use)
    else if q == OutcomeContract || q == PerformanceMetric then KeptObject(e, q, true)
    else None
  }

  /** The first stage: MCP, outcome and performance evidence. */
  lemma {:induction false} StageOne(g: Guards, e: Event, q: Key) returns (x: Object)
    ensures x == PutObject(PutObject(PutMcp(g, map[], e), e, OutcomeContract, true), e, PerformanceMetric, true)
    ensures HasKey(x, q) == StageOneLookup(g, e, q)
  {
    var a := PutObject(map[], e, EventEcho, g.connection);
    var b := PutObject(a, e, McpCall, g.use);
    var c := PutObject(b, e, OutcomeContract, true);
    x := PutObject(c, e, PerformanceMetric, true);
    PutObjectLookup(map[], e, EventEcho, g.connection, q);
    PutObjectLookup(a, e, McpCall, g.use, q);
    PutObjectLookup(b, e, OutcomeContract, true, q);
    PutObjectLookup(c, e, PerformanceMetric, true, q);
  }

  lemma {:induction false} PutKeysLookup(x: Object, e: Event, k: Key, keys: set<Key>, q: Key)
    ensures HasKey(PutKeys(x, e, k, keys), q)
            == if q == k && KeptKeys(e, k, keys).Some? then KeptKeys(e, k, keys) else HasKey(x, q)
  {}

  /** What the provider and event type checks make of an event's guards. */
  predicate Consistent(g: Guards, e: Event) {
    && (g.shape.Some? ==> !g.connection && g.shape.value.namespace in {EventEcho, Transcript})
    && (g.explicit ==> SkillDetection in e.extensions)
  }

  lemma {:induction false} GuardsAreConsistent(sc: Scanner, e: Event)
    ensures Consistent(GuardsOf(sc, e), e)
  {}

  /** The second stage: skill policy and user prompt evidence. */
  lemma {:induction false} StageSkill(g: Guards, x: Object, e: Event, q: Key)
    requires Consistent(g, e)
    ensures HasKey(PutSkillPolicy(g, x, e), q) ==
            if q == SkillDetection && SkillDetection in e.extensions then HasKey(e.extensions, q)
            else if q == Skill && KeptObject(e, q, g.explicit).Some? then KeptObject(e, q, true)
            else HasKey(x, q)
  {
    if SkillDetection in e.extensions {
      PutObjectLookup(x[SkillDetection := e.extensions[SkillDetection]], e, Skill, g.explicit, q);
    }
  }

  lemma {:induction false} StagePrompt(g: Guards, x: Object, e: Event, q: Key)
    ensures HasKey(PutUserPrompt(g, x, e), q) ==
            match g.shape
            case None => HasKey(x, q)
            case Some(shape) =>
              if q == Correlation && KeptKeys(e, q, {shape.correlation}).Some?
              then KeptKeys(e, q, {shape.correlation})
              else if q == shape.namespace && KeptKeys(e, q, shape.keys).Some? then KeptKeys(e, q, shape.keys)
              else HasKey(x, q)
  {
    if g.shape.Some? {
      var shape := g.shape.value;
      PutKeysLookup(x, e, shape.namespace, shape.keys, q);
      PutKeysLookup(PutKeys(x, e, shape.namespace, shape.keys), e, Correlation, {shape.correlation}, q);
    }
  }

  /** What the first two stages leave under `q`. */
  function StageTwoLookup(g: Guards, e: Event, q: Key): Option<Json> {
    if q == EventEcho then EchoBefore(g, e)
    else if q.IntegrationState? || q.GovernanceStateKey? || q.SessionLifecycle? then None
    else ThinExtension(g, e, q)
  }

  lemma {:induction false} StageTwo(g: Guards, x: Object, e: Event, q: Key)
    requires Consistent(g, e)
    requires HasKey(x, q) == StageOneLookup(g, e, q)
    ensures HasKey(PutUserPrompt(g, PutSkillPolicy(g, x, e), e), q) == StageTwoLookup(g, e, q)
  {
    var y := PutSkillPolicy(g, x, e);
    StageSkill(g, x, e, q);
    StagePrompt(g, y, e, q);
    StageTwoCases(g, e, q, HasKey(y, q), HasKey(PutUserPrompt(g, y, e), q));
  }

  lemma {:induction false} StageTwoCases(g: Guards, e: Event, q: Key, skill: Option<Json>, prompt: Option<Json>)
    requires Consistent(g, e)
    requires skill == if q == SkillDetection && SkillDetection in e.extensions then HasKey(e.extensions, q)
                      else if q == Skill && KeptObject(e, q, g.explicit).Some? then KeptObject(e, q, true)
                      else StageOneLookup(g, e, q)
    requires prompt == match g.shape
                       case None => skill
                       case Some(shape) =>
                         if q == Correlation && KeptKeys(e, q, {shape.correlation}).Some?
                         then KeptKeys(e, q, {shape.correlation})
                         else if q == shape.namespace && KeptKeys(e, q, shape.keys).Some?
                         then KeptKeys(e, q, shape.keys)
                         else skill
    ensures prompt == StageTwoLookup(g, e, q)
  {
    if q == EventEcho {
      assert prompt == StageTwoLookup(g, e, q);
    } else if q == Correlation {
      assert prompt == StageTwoLookup(g, e, q);
    } else if q == Transcript {
      assert prompt == StageTwoLookup(g, e, q);
    } else if q == Skill {
      assert prompt == StageTwoLookup(g, e, q);
    } else if q == SkillDetection {
      assert prompt == StageTwoLookup(g, e, q);
    } else {
      OtherKeys(g, e, q);
    }
  }

  lemma {:induction false} OtherKeys(g: Guards, e: Event, q: Key)
    requires !q.EventEcho? && !q.Correlation? && !q.Transcript? && !q.Skill? && !q.SkillDetection?
    ensures StageOneLookup(g, e, q) == StageTwoLookup(g, e, q)
  {}

  /** What the echo holds before the token stage. */
  function EchoBefore(g: Guards, e: Event): Option<Json> {
    if g.connection then KeptObject(e, EventEcho, true)
    else match g.shape
      case Some(shape) => if shape.namespace == EventEcho then KeptKeys(e, EventEcho, shape.keys) else None
      case None => None
  }

  lemma {:induction false} StageThree(g: Guards, x: Object, e: Event, q: Key)
    requires HasKey(x, EventEcho) == EchoBefore(g, e)
    requires HasKey(x, OutcomeContract) == KeptObject(e, OutcomeContract, true)
    ensures HasKey(PutTokens(g, x, e), q) ==
            if q == EventEcho then ThinExtension(g, e, EventEcho) else HasKey(x, q)
  {
    EchoStage(g, x, e);
    if g.tokens {
      PutObjectLookup(PutTokenEcho(x, e), e, OutcomeContract, OutcomeContract !in x, q);
    }
  }

  lemma {:induction false} EchoStage(g: Guards, x: Object, e: Event)
    requires HasKey(x, EventEcho) == EchoBefore(g, e)
    ensures HasKey(if g.tokens then PutTokenEcho(x, e) else x, EventEcho) == ThinExtension(g, e, EventEcho)
  {
    if ObjectAt(e.extensions, EventEcho).Some? {
      var raw := ObjectAt(e.extensions, EventEcho).value;
      assert raw + Restrict(raw, TOKEN_ECHO_KEYS) == raw;
      assert PromptEchoKeys(g) + {} == PromptEchoKeys(g);
      assert Restrict(raw, {}) == map[];
      assert Restrict(raw, PromptEchoKeys(g)) + Restrict(raw, TOKEN_ECHO_KEYS)
          == Restrict(raw, PromptEchoKeys(g) + TOKEN_ECHO_KEYS);
      assert map[] + Restrict(raw, TOKEN_ECHO_KEYS) == Restrict(raw, TOKEN_ECHO_KEYS);
    }
  }

  lemma {:induction false} AssemblyLookup(g: Guards, e: Event, q: Key)
    requires Consistent(g, e)
    ensures HasKey(Assembled(g, e), q) == HasKey(ThinExtensions(g, e), q)
  {
    ExtensionUnder(g, e, q);
    StageTwoAt(g, e, q);
    StageTwoAt(g, e, EventEcho);
    StageTwoAt(g, e, OutcomeContract);
    LastStages(g, StageTwoExtensions(g, e), e, q);
  }

  /** The extensions after the first two stages. */
  function StageTwoExtensions(g: Guards, e: Event): Object {
    PutUserPrompt(g, PutSkillPolicy(
      g, PutObject(PutObject(PutMcp(g, map[], e), e, OutcomeContract, true), e, PerformanceMetric, true), e), e)
  }

  lemma {:induction false} StageTwoAt(g: Guards, e: Event, q: Key)
    requires Consistent(g, e)
    ensures HasKey(StageTwoExtensions(g, e), q) == StageTwoLookup(g, e, q)
  {
    var x := StageOne(g, e, q);
    StageTwo(g, x, e, q);
  }

  lemma {:induction false} StageTwoKeys(g: Guards, e: Event)
    ensures StageTwoLookup(g, e, EventEcho) == EchoBefore(g, e)
    ensures StageTwoLookup(g, e, OutcomeContract) == KeptObject(e, OutcomeContract, true)
  {}

  lemma {:induction false} LastStages(g: Guards, x: Object, e: Event, q: Key)
    requires HasKey(x, EventEcho) == StageTwoLookup(g, e, EventEcho)
    requires HasKey(x, OutcomeContract) == StageTwoLookup(g, e, OutcomeContract)
    requires HasKey(x, q) == StageTwoLookup(g, e, q)
    ensures HasKey(PutGovernance(g, PutObject(PutTokens(g, x, e), e, IntegrationState, g.integration), e), q)
            == ThinExtension(g, e, q)
  {
    StageTwoKeys(g, e);
    StageThree(g, x, e, q);
    StageFour(g, PutTokens(g, x, e), e, q);
    LastLookups(g, e, q);
  }

  /** What the last two stages find where nothing was put before, and leave elsewhere. */
  lemma {:induction false} LastLookups(g: Guards, e: Event, q: Key)
    ensures q == SessionLifecycle || q == GovernanceStateKey ==>
              ThinExtension(g, e, q) == (if KeptObject(e, q, g.governance).Some? then KeptObject(e, q, true) else None)
    ensures q != EventEcho && q != SessionLifecycle && q != GovernanceStateKey && q != IntegrationState ==>
              StageTwoLookup(g, e, q) == ThinExtension(g, e, q)
  {}

  lemma {:induction false} StageFour(g: Guards, x: Object, e: Event, q: Key)
    ensures HasKey(PutGovernance(g, PutObject(x, e, IntegrationState, g.integration), e), q) ==
            if q == SessionLifecycle && KeptObject(e, q, g.governance).Some? then KeptObject(e, q, true)
            else if q == GovernanceStateKey && KeptObject(e, q, g.governance).Some? then KeptObject(e, q, true)
            else if q == IntegrationState && KeptObject(e, q, g.integration).Some? then KeptObject(e, q, true)
            else HasKey(x, q)
  {
    var y := PutObject(x, e, IntegrationState, g.integration);
    var z := PutObject(y, e, GovernanceStateKey, g.governance);
    PutObjectLookup(x, e, IntegrationState, g.integration, q);
    PutObjectLookup(y, e, GovernanceStateKey, g.governance, q);
    PutObjectLookup(z, e, SessionLifecycle, g.governance, q);
  }

  lemma {:induction false} SameLookups(a: Object, b: Object)
    requires forall q :: HasKey(a, q) == HasKey(b, q)
    ensures a == b
  {
    assert forall q :: q in a <==> HasKey(a, q).Some?;
    assert forall q :: q in b <==> HasKey(b, q).Some?;
    assert forall q :: q in a ==> HasKey(a, q) == Some(a[q]) && HasKey(b, q) == Some(b[q]);
  }

  /** Running the helpers in order builds the thin copy's extensions. */
  lemma {:induction false} AssemblyIsThin(sc: Scanner, e: Event)
    ensures Assembled(GuardsOf(sc, e), e) == Thin(sc, e).extensions
  {
    var g := GuardsOf(sc, e);
    GuardsAreConsistent(sc, e);
    forall q ensures HasKey(Assembled(g, e), q) == HasKey(ThinExtensions(g, e), q) {
      AssemblyLookup(g, e, q);
    }
    SameLookups(Assembled(g, e), ThinExtensions(g, e));
  }

  /** copySelectedKeys into the thin attributes, under a guard. */
  function Carry(a: Object, e: Event, keys: set<Key>, guard: bool): Object {
    if guard then a + Restrict(e.attributes, keys) else a
  }

  /** The attributes after all helpers have run. */
  function Carried(g: Guards, e: Event): Object {
    var a1 := Carry(Carry(map[], e, {Category}, g.use), e, METRIC_KEYS, g.metric);
    var a2 := Carry(Carry(a1, e, TOKEN_KEYS, g.tokens), e, INTEGRATION_KEYS, g.integration);
    Carry(Carry(a2, e, POLICY_KEYS, true), e, LIFECYCLE_KEYS, g.recovery)
  }

  lemma {:induction false} CarryLookup(a: Object, e: Event, keys: set<Key>, guard: bool, q: Key)
    ensures HasKey(Carry(a, e, keys, guard), q)
            == if guard && q in keys && q in e.attributes then HasKey(e.attributes, q) else HasKey(a, q)
  {}

  /** The key sets are disjoint, so each attribute has one guard. */
  lemma {:induction false} CarriedIsUnion(g: Guards, q: Key)
    ensures CarriedAttribute(g, q) <==>
              || q in POLICY_KEYS || (q in LIFECYCLE_KEYS && g.recovery) || (q in INTEGRATION_KEYS && g.integration)
              || (q in TOKEN_KEYS && g.tokens) || (q in METRIC_KEYS && g.metric) || (q == Category && g.use)
  {
    if q in POLICY_KEYS {
    } else if q in TOKEN_KEYS {
      assert q !in LIFECYCLE_KEYS && q !in METRIC_KEYS && q !in INTEGRATION_KEYS && q != Category;
    } else if q in LIFECYCLE_KEYS {
      assert q !in METRIC_KEYS && q !in INTEGRATION_KEYS && q != Category;
    } else if q in METRIC_KEYS {
      assert q !in INTEGRATION_KEYS && q != Category;
    } else if q in INTEGRATION_KEYS {
      assert q != Category;
    }
  }

  lemma {:induction false} CarriedLookup(g: Guards, e: Event, q: Key)
    ensures HasKey(Carried(g, e), q) == if CarriedAttribute(g, q) then HasKey(e.attributes, q) else None
  {
    var a1 := Carry(map[], e, {Category}, g.use);
    var a2 := Carry(a1, e, METRIC_KEYS, g.metric);
    var a3 := Carry(a2, e, TOKEN_KEYS, g.tokens);
    var a4 := Carry(a3, e, INTEGRATION_KEYS, g.integration);
    var a5 := Carry(a4, e, POLICY_KEYS, true);
    CarryLookup(map[], e, {Category}, g.use, q);
    CarryLookup(a1, e, METRIC_KEYS, g.metric, q);
    CarryLookup(a2, e, TOKEN_KEYS, g.tokens, q);
    CarryLookup(a3, e, INTEGRATION_KEYS, g.integration, q);
    CarryLookup(a4, e, POLICY_KEYS, true, q);
    CarryLookup(a5, e, LIFECYCLE_KEYS, g.recovery, q);
    CarriedIsUnion(g, q);
  }

  /** Running the helpers in order builds the thin copy's attributes. */
  lemma {:induction false} CarriedIsThin(sc: Scanner, e: Event)
    ensures Carried(GuardsOf(sc, e), e) == Thin(sc, e).attributes
  {
    var g := GuardsOf(sc, e);
    forall q ensures HasKey(Carried(g, e), q) == HasKey(ThinAttributes(g, e), q) {
      CarriedLookup(g, e, q);
      AttributeUnder(g, e, q);
    }
    SameLookups(Carried(g, e), ThinAttributes(g, e));
  }
}

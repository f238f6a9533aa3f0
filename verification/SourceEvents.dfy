/** SourceEventsFromSession and its copy helpers (internal/insights/source_events.go)
    over a heap of Go maps. No method here may modify an object it did not create,
    except the thin event it is handed: the sessions' own maps are never written. */
module SourceEvents {
  import opened Prelude
  import opened Canonical
  import opened Signals
  import opened ThinEvent
  import opened ThinAssembly
  import opened SkillUsage
  import opened ThinIndex

  /** A `map[string]any` of attributes, or one nested inside a provider extension. */
  class GoMap {
    var m: Object

    constructor ()
      ensures m == map[]
    {
      m := map[];
    }
  }

  /** An extension value: a nested map is a reference, anything else is a value. */
  datatype Slot = Plain(v: Json) | Ref(obj: GoMap)

  class ExtMap {
    var m: map<Key, Slot>

    constructor ()
      ensures m == map[]
    {
      m := map[];
    }
  }

  datatype HeapEvent = HeapEvent(env: Envelope, attributes: GoMap, extensions: ExtMap)

  ghost function Refs(m: map<Key, Slot>): set<GoMap> {
    set k | k in m && m[k].Ref? :: m[k].obj
  }

  ghost function Nested(x: ExtMap): set<GoMap>
    reads x
  {
    Refs(x.m)
  }

  ghost function Footprint(e: HeapEvent): set<object>
    reads e.extensions
  {
    {e.attributes, e.extensions} + Nested(e.extensions)
  }

  function ViewSlot(s: Slot): Json
    reads if s.Ref? then {s.obj} else {}
  {
    if s.Ref? then JObj(s.obj.m) else s.v
  }

  function ViewSlots(m: map<Key, Slot>): Object
    reads Refs(m)
  {
    map k | k in m :: ViewSlot(m[k])
  }

  function ViewExtensions(x: ExtMap): Object
    reads x, Nested(x)
  {
    ViewSlots(x.m)
  }

  /** The event a reader sees through the references. */
  function View(e: HeapEvent): Event
    reads Footprint(e)
  {
    Event(e.env, e.attributes.m, ViewExtensions(e.extensions))
  }

  ghost function Footprints(events: seq<HeapEvent>): set<object>
    reads set e | e in events :: e.extensions
  {
    set e, o | e in events && o in Footprint(e) :: o
  }

  function Views(events: seq<HeapEvent>): (r: seq<Event>)
    reads set e | e in events :: e.extensions
    reads Footprints(events)
    ensures |r| == |events|
    ensures forall i :: 0 <= i < |events| ==> r[i] == View(events[i])
  {
    if events == [] then []
    else Views(events[..|events| - 1]) + [View(events[|events| - 1])]
  }

  /** Nested maps are held by reference only. */
  ghost predicate Valid(e: HeapEvent)
    reads e.extensions
  {
    forall k :: k in e.extensions.m && e.extensions.m[k].Plain? ==> !e.extensions.m[k].v.JObj?
  }

  /** The extensions a thin event holds by reference instead of copying. */
  const SHARED_KEYS := {OutcomeContract, SkillDetection}

  /** The maps a thin event is written through are none of the maps known before: neither
      its own two nor the ones nested in it. The shared extensions are `e`'s own; they are
      never written. The event echo is in no other slot. */
  ghost predicate Apart(thin: HeapEvent, e: HeapEvent, known: set<object>)
    reads thin.extensions, e.extensions
  {
    Footprint(e) <= known && ApartFrom(thin, thin.extensions.m, e.extensions.m, known)
  }

  ghost predicate ApartFrom(thin: HeapEvent, slots: map<Key, Slot>, theirs: map<Key, Slot>, known: set<object>) {
    && thin.attributes !in known && thin.extensions !in known
    && thin.attributes !in Refs(slots)
    && (forall k :: k in slots && slots[k].Ref? ==> Sourced(slots, theirs, known, k))
    && (EventEcho in slots ==> slots[EventEcho].Ref? && forall k :: k in slots && k != EventEcho ==> slots[k] != slots[EventEcho])
  }

  /** A nested map is the event's own under a shared key, and new under any other. */
  ghost predicate Sourced(slots: map<Key, Slot>, theirs: map<Key, Slot>, known: set<object>, k: Key)
    requires k in slots && slots[k].Ref?
  {
    if k in SHARED_KEYS then k in theirs && theirs[k] == slots[k] else slots[k].obj !in known
  }

  lemma {:induction false} FreshSlotStaysApart(
      thin: HeapEvent, slots: map<Key, Slot>, theirs: map<Key, Slot>, known: set<object>, k: Key, c: GoMap)
    requires ApartFrom(thin, slots, theirs, known) && k !in SHARED_KEYS
    requires c !in known && c != thin.attributes && c !in Refs(slots)
    ensures ApartFrom(thin, slots[k := Ref(c)], theirs, known)
  {
    var after := slots[k := Ref(c)];
    assert forall o :: o in Refs(after) ==> o == c || o in Refs(slots);
    assert forall q :: q in slots && slots[q].Ref? ==> slots[q].obj in Refs(slots);
    forall q | q in after && after[q].Ref? ensures Sourced(after, theirs, known, q) {
      assert q != k ==> Sourced(slots, theirs, known, q);
    }
  }

  /** The echo map the thin event already holds. */
  ghost function EchoOf(thin: HeapEvent): set<GoMap>
    reads thin.extensions
  {
    if EventEcho in thin.extensions.m && thin.extensions.m[EventEcho].Ref? then {thin.extensions.m[EventEcho].obj} else {}
  }

  function MapAt(x: ExtMap, k: Key): Option<GoMap>
    reads x
  {
    if k in x.m && x.m[k].Ref? then Some(x.m[k].obj) else None
  }

  // ---- helpers ----------------------------------------------------------------

  function Elements(keys: seq<Key>): set<Key> {
    set k | k in keys
  }

  lemma {:induction false} RestrictStep(dst: Object, src: Object, keys: seq<Key>, n: nat)
    requires n < |keys|
    ensures dst + Restrict(src, Elements(keys[..n + 1]))
            == (if keys[n] in src then (dst + Restrict(src, Elements(keys[..n])))[keys[n] := src[keys[n]]]
                else dst + Restrict(src, Elements(keys[..n])))
  {
    assert keys[..n + 1] == keys[..n] + [keys[n]];
    assert Elements(keys[..n + 1]) == Elements(keys[..n]) + {keys[n]};
  }

  /** copySelectedKeys; the maps are two different objects at every call. */
  method CopySelectedKeys(dst: GoMap, src: GoMap, keys: seq<Key>)
    requires dst != src
    modifies dst
    ensures dst.m == old(dst.m) + Restrict(src.m, Elements(keys))
  {
    for n := 0 to |keys|
      invariant dst.m == old(dst.m) + Restrict(src.m, Elements(keys[..n]))
    {
      RestrictStep(old(dst.m), src.m, keys, n);
      var key := keys[n];
      if key in src.m {
        dst.m := dst.m[key := src.m[key]];
      }
    }
    assert keys[..|keys|] == keys;
  }

  method CloneStringKeyedMap(src: GoMap) returns (out: GoMap)
    ensures fresh(out) && out.m == src.m
  {
    out := new GoMap();
    var pending := src.m.Keys;
    while pending != {}
      invariant pending <= src.m.Keys
      invariant out.m == Restrict(src.m, src.m.Keys - pending)
      decreases |pending|
    {
      var key :| key in pending;
      out.m := out.m[key := src.m[key]];
      pending := pending - {key};
    }
  }

  /** `thin.ProviderExtensions[k] = m`, for a map no one else holds. */
  method StoreFresh(thin: HeapEvent, e: HeapEvent, ghost known: set<object>, k: Key, m: GoMap)
    requires Apart(thin, e, known)
    requires k !in SHARED_KEYS && m !in known && m != thin.attributes && m !in Nested(thin.extensions)
    modifies thin.extensions
    ensures Apart(thin, e, known) && View(e) == old(View(e))
    ensures MapAt(thin.extensions, EventEcho) == if k == EventEcho then Some(m) else old(MapAt(thin.extensions, EventEcho))
    ensures ViewExtensions(thin.extensions) == old(ViewExtensions(thin.extensions))[k := JObj(m.m)]
  {
    var slots := thin.extensions.m;
    thin.extensions.m := slots[k := Ref(m)];
    SetSlot(slots, k, Ref(m));
    FreshSlotStaysApart(thin, slots, e.extensions.m, known, k, m);
  }

  /** Store a clone of `event`'s nested map under `k`, when there is one. */
  method CloneInto(thin: HeapEvent, e: HeapEvent, ghost known: set<object>, k: Key)
    requires Valid(e) && Apart(thin, e, known) && k !in SHARED_KEYS
    modifies thin.extensions
    ensures Apart(thin, e, known) && View(e) == old(View(e))
    ensures k != EventEcho ==> MapAt(thin.extensions, EventEcho) == old(MapAt(thin.extensions, EventEcho))
    ensures MapAt(thin.extensions, EventEcho) == old(MapAt(thin.extensions, EventEcho)) ||
            (MapAt(thin.extensions, EventEcho).Some? && fresh(MapAt(thin.extensions, EventEcho).value))
    ensures ViewExtensions(thin.extensions) == PutObject(old(ViewExtensions(thin.extensions)), View(e), k, true)
  {
    ObjectOfView(e, k);
    if k in e.extensions.m && e.extensions.m[k].Ref? {
      var clone := CloneStringKeyedMap(e.extensions.m[k].obj);
      StoreFresh(thin, e, known, k, clone);
    }
  }

  lemma {:induction false} SetSlot(m: map<Key, Slot>, k: Key, s: Slot)
    ensures ViewSlots(m[k := s]) == ViewSlots(m)[k := ViewSlot(s)]
  {}

  lemma {:induction false} ObjectOfView(e: HeapEvent, k: Key)
    requires Valid(e)
    ensures ObjectAt(View(e).extensions, k)
            == if k in e.extensions.m && e.extensions.m[k].Ref? then Some(e.extensions.m[k].obj.m) else None
  {}

  lemma {:induction false} SharedSlotStaysApart(
      thin: HeapEvent, slots: map<Key, Slot>, theirs: map<Key, Slot>, known: set<object>, k: Key)
    requires ApartFrom(thin, slots, theirs, known)
    requires k in SHARED_KEYS && k in theirs && (theirs[k].Ref? ==> theirs[k].obj in known)
    ensures ApartFrom(thin, slots[k := theirs[k]], theirs, known)
  {
    var after := slots[k := theirs[k]];
    assert forall o :: o in Refs(after) ==> o in known || o in Refs(slots);
    forall q | q in after && after[q].Ref? ensures Sourced(after, theirs, known, q) {
      assert q != k ==> Sourced(slots, theirs, known, q);
    }
    assert EventEcho in slots ==> Sourced(slots, theirs, known, EventEcho);
  }

  /** Store the value `event` holds under `k` itself: a nested map is shared. */
  method ShareSlot(thin: HeapEvent, e: HeapEvent, ghost known: set<object>, k: Key)
    requires Apart(thin, e, known) && k in e.extensions.m && k in SHARED_KEYS
    modifies thin.extensions
    ensures Apart(thin, e, known) && View(e) == old(View(e))
    ensures MapAt(thin.extensions, EventEcho) == old(MapAt(thin.extensions, EventEcho))
    ensures ViewExtensions(thin.extensions) == old(ViewExtensions(thin.extensions))[k := View(e).extensions[k]]
  {
    var before, slot := thin.extensions.m, e.extensions.m[k];
    thin.extensions.m := before[k := slot];
    SetSlot(before, k, slot);
    SharedSlotStaysApart(thin, before, e.extensions.m, known, k);
  }

  method SelectedKeys(source: Option<GoMap>, keys: seq<Key>) returns (out: GoMap)
    ensures fresh(out)
    ensures out.m == if source.Some? then Restrict(source.value.m, Elements(keys)) else map[]
  {
    out := new GoMap();
    if source.Some? {
      CopySelectedKeys(out, source.value, keys);
    }
  }

  method StoreSelected(thin: HeapEvent, e: HeapEvent, ghost known: set<object>, k: Key, keys: seq<Key>)
    requires Valid(e) && Apart(thin, e, known) && k !in SHARED_KEYS
    modifies thin.extensions
    ensures Apart(thin, e, known) && View(e) == old(View(e))
    ensures k != EventEcho ==> MapAt(thin.extensions, EventEcho) == old(MapAt(thin.extensions, EventEcho))
    ensures MapAt(thin.extensions, EventEcho) == old(MapAt(thin.extensions, EventEcho)) ||
            (MapAt(thin.extensions, EventEcho).Some? && fresh(MapAt(thin.extensions, EventEcho).value))
    ensures ViewExtensions(thin.extensions)
            == PutKeys(old(ViewExtensions(thin.extensions)), View(e), k, Elements(keys))
  {
    ObjectOfView(e, k);
    var echo := SelectedKeys(MapAt(e.extensions, k), keys);
    if echo.m != map[] {
      StoreFresh(thin, e, known, k, echo);
    }
  }

  method CopyAttributes(thin: HeapEvent, e: HeapEvent, ghost known: set<object>, keys: seq<Key>)
    requires Apart(thin, e, known)
    modifies thin.attributes
    ensures Apart(thin, e, known) && View(e) == old(View(e))
    ensures ViewExtensions(thin.extensions) == old(ViewExtensions(thin.extensions))
    ensures thin.attributes.m == Carry(old(thin.attributes.m), View(e), Elements(keys), true)
  {
    CopySelectedKeys(thin.attributes, e.attributes, keys);
  }

  const METRIC_LIST := [Model, MetricName, MetricFamily, MetricKind, MetricUnit,
                        SampleCount, MetricSum, MetricAverage, MetricMin, MetricMax, MetricValue]
  const INTEGRATION_LIST := [IntegrationKind, IntegrationName, IntegrationState]

  lemma {:induction false} KeyLists()
    ensures Elements([Category]) == {Category}
    ensures Elements(METRIC_LIST) == METRIC_KEYS && Elements(INTEGRATION_LIST) == INTEGRATION_KEYS
  {}

  // ---- the copy helpers -------------------------------------------------------

  method CopyMCPInsightEvidence(thin: HeapEvent, e: HeapEvent, ghost known: set<object>, connection: bool, use: bool, ghost g: Guards)
    returns (keep: bool)
    requires Valid(e) && Apart(thin, e, known)
    requires g.connection == connection && g.use == use
    modifies thin.attributes, thin.extensions
    ensures Apart(thin, e, known) && View(e) == old(View(e))
    ensures MapAt(thin.extensions, EventEcho) == old(MapAt(thin.extensions, EventEcho)) ||
            (MapAt(thin.extensions, EventEcho).Some? && fresh(MapAt(thin.extensions, EventEcho).value))
    ensures keep <==> g.connection || g.use
    ensures ViewExtensions(thin.extensions) == PutMcp(g, old(ViewExtensions(thin.extensions)), View(e))
    ensures thin.attributes.m == Carry(old(thin.attributes.m), View(e), {Category}, g.use)
  {
    keep := false;
    if connection {
      keep := true;
      CloneInto(thin, e, known, EventEcho);
    }
    if use {
      keep := true;
      CopyUse(thin, e, known);
    }
  }

  method CopyUse(thin: HeapEvent, e: HeapEvent, ghost known: set<object>)
    requires Valid(e) && Apart(thin, e, known)
    modifies thin.attributes, thin.extensions
    ensures Apart(thin, e, known) && View(e) == old(View(e))
    ensures MapAt(thin.extensions, EventEcho) == old(MapAt(thin.extensions, EventEcho))
    ensures ViewExtensions(thin.extensions) == PutObject(old(ViewExtensions(thin.extensions)), View(e), McpCall, true)
    ensures thin.attributes.m == Carry(old(thin.attributes.m), View(e), {Category}, true)
  {
    CloneInto(thin, e, known, McpCall);
    KeyLists();
    CopyAttributes(thin, e, known, [Category]);
  }

  method CopyOutcomeInsightEvidence(thin: HeapEvent, e: HeapEvent, ghost known: set<object>) returns (keep: bool)
    requires Valid(e) && Apart(thin, e, known)
    modifies thin.extensions
    ensures Apart(thin, e, known) && View(e) == old(View(e))
    ensures MapAt(thin.extensions, EventEcho) == old(MapAt(thin.extensions, EventEcho))
    ensures keep <==> OutcomeOf(View(e)).Some?
    ensures ViewExtensions(thin.extensions)
            == PutObject(old(ViewExtensions(thin.extensions)), View(e), OutcomeContract, true)
  {
    ObjectOfView(e, OutcomeContract);
    keep := MapAt(e.extensions, OutcomeContract).Some?;
    if keep {
      ShareSlot(thin, e, known, OutcomeContract);
    }
  }

  method CopyPerformanceInsightEvidence(thin: HeapEvent, e: HeapEvent, ghost known: set<object>) returns (keep: bool)
    requires Valid(e) && Apart(thin, e, known)
    modifies thin.attributes, thin.extensions
    ensures Apart(thin, e, known) && View(e) == old(View(e))
    ensures MapAt(thin.extensions, EventEcho) == old(MapAt(thin.extensions, EventEcho))
    ensures keep <==> MetricOf(View(e)).Some?
    ensures ViewExtensions(thin.extensions)
            == PutObject(old(ViewExtensions(thin.extensions)), View(e), PerformanceMetric, true)
    ensures thin.attributes.m == Carry(old(thin.attributes.m), View(e), METRIC_KEYS, keep)
  {
    ObjectOfView(e, PerformanceMetric);
    keep := MapAt(e.extensions, PerformanceMetric).Some?;
    if keep {
      CopyMetric(thin, e, known);
    }
  }

  method CopyMetric(thin: HeapEvent, e: HeapEvent, ghost known: set<object>)
    requires Valid(e) && Apart(thin, e, known)
    modifies thin.attributes, thin.extensions
    ensures Apart(thin, e, known) && View(e) == old(View(e))
    ensures MapAt(thin.extensions, EventEcho) == old(MapAt(thin.extensions, EventEcho))
    ensures ViewExtensions(thin.extensions)
            == PutObject(old(ViewExtensions(thin.extensions)), View(e), PerformanceMetric, true)
    ensures thin.attributes.m == Carry(old(thin.attributes.m), View(e), METRIC_KEYS, true)
  {
    CloneInto(thin, e, known, PerformanceMetric);
    KeyLists();
    CopyAttributes(thin, e, known, METRIC_LIST);
  }

  method CopySkillPolicyEvidence(thin: HeapEvent, e: HeapEvent, ghost known: set<object>, ghost g: Guards) returns (keep: bool)
    requires Valid(e) && Apart(thin, e, known)
    requires g.explicit == (DetectionState(View(e)) == Explicit)
    modifies thin.extensions
    ensures Apart(thin, e, known) && View(e) == old(View(e))
    ensures MapAt(thin.extensions, EventEcho) == old(MapAt(thin.extensions, EventEcho))
    ensures keep <==> SkillDetection in View(e).extensions
    ensures ViewExtensions(thin.extensions) == PutSkillPolicy(g, old(ViewExtensions(thin.extensions)), View(e))
  {
    keep := SkillDetection in e.extensions.m;
    if keep {
      var explicit := DetectionState(View(e)) == Explicit;
      ShareSlot(thin, e, known, SkillDetection);
      if explicit {
        CloneInto(thin, e, known, Skill);
      }
    }
  }

  method CopyUserPromptEvidence(thin: HeapEvent, e: HeapEvent, ghost known: set<object>, ghost g: Guards) returns (keep: bool)
    requires Valid(e) && Apart(thin, e, known)
    requires g.shape == PromptShapeOf(View(e))
    modifies thin.extensions
    ensures Apart(thin, e, known) && View(e) == old(View(e))
    ensures MapAt(thin.extensions, EventEcho) == old(MapAt(thin.extensions, EventEcho)) ||
            (MapAt(thin.extensions, EventEcho).Some? && fresh(MapAt(thin.extensions, EventEcho).value))
    ensures keep <==> g.shape.Some?
    ensures ViewExtensions(thin.extensions) == PutUserPrompt(g, old(ViewExtensions(thin.extensions)), View(e))
  {
    var shape := PromptShapeOf(View(e));
    keep := shape.Some?;
    if keep {
      PromptKeysOfShape(View(e));
      StoreShape(thin, e, known, shape.value, PromptKeys(e.env.eventType));
    }
  }

  method StoreShape(thin: HeapEvent, e: HeapEvent, ghost known: set<object>, shape: PromptShape, keys: seq<Key>)
    requires Valid(e) && Apart(thin, e, known)
    requires shape.namespace !in SHARED_KEYS && Elements(keys) == shape.keys
    modifies thin.extensions
    ensures Apart(thin, e, known) && View(e) == old(View(e))
    ensures MapAt(thin.extensions, EventEcho) == old(MapAt(thin.extensions, EventEcho)) ||
            (MapAt(thin.extensions, EventEcho).Some? && fresh(MapAt(thin.extensions, EventEcho).value))
    ensures ViewExtensions(thin.extensions)
            == PutKeys(PutKeys(old(ViewExtensions(thin.extensions)), View(e), shape.namespace, shape.keys),
                       View(e), Correlation, {shape.correlation})
  {
    StoreSelected(thin, e, known, shape.namespace, keys);
    assert Elements([shape.correlation]) == {shape.correlation};
    StoreSelected(thin, e, known, Correlation, [shape.correlation]);
  }

  /** The body keys of userPromptShapes, in order. */
  function PromptKeys(eventType: string): seq<Key> {
    if eventType == "user_prompt" then [Prompt, PromptLength] else [PromptContent]
  }

  lemma {:induction false} PromptKeysOfShape(e: Event)
    requires PromptShapeOf(e).Some?
    ensures Elements(PromptKeys(e.env.eventType)) == PromptShapeOf(e).value.keys
  {
    assert Elements([Prompt, PromptLength]) == {Prompt, PromptLength};
    assert Elements([PromptContent]) == {PromptContent};
  }

  /** The one place that writes a nested map in place: the thin event's own echo. */
  method MergeTokenEventExtension(thin: HeapEvent, e: HeapEvent, ghost known: set<object>)
    requires Valid(e) && Apart(thin, e, known)
    modifies thin.extensions, EchoOf(thin)
    ensures Apart(thin, e, known) && View(e) == old(View(e))
    ensures thin.attributes.m == old(thin.attributes.m)
    ensures ViewExtensions(thin.extensions) == PutTokenEcho(old(ViewExtensions(thin.extensions)), View(e))
  {
    ObjectOfView(e, EventEcho);
    var raw := MapAt(e.extensions, EventEcho);
    if raw.Some? {
      EchoUnfolded(ViewExtensions(thin.extensions), View(e), raw.value.m);
      MergeEcho(thin, e, known, raw.value);
    }
  }

  /** The event's token keys join the thin echo, or start one if there is any to keep. */
  method MergeEcho(thin: HeapEvent, e: HeapEvent, ghost known: set<object>, raw: GoMap)
    requires Valid(e) && Apart(thin, e, known) && raw in Footprint(e)
    modifies thin.extensions, EchoOf(thin)
    ensures Apart(thin, e, known) && View(e) == old(View(e))
    ensures thin.attributes.m == old(thin.attributes.m)
    ensures var x, more := old(ViewExtensions(thin.extensions)), Restrict(old(raw.m), TOKEN_ECHO_KEYS);
            ViewExtensions(thin.extensions) ==
            match ObjectAt(x, EventEcho)
            case Some(m) => x[EventEcho := JObj(m + more)]
            case None => if more == map[] then x else x[EventEcho := JObj(more)]
  {
    var kept := MapAt(thin.extensions, EventEcho);
    assert ObjectAt(ViewExtensions(thin.extensions), EventEcho) == if kept.Some? then Some(kept.value.m) else None;
    if kept.Some? {
      MergeIntoOwnEcho(thin, e, known, raw, kept.value);
    } else {
      StartEcho(thin, e, known, raw);
    }
  }

  method StartEcho(thin: HeapEvent, e: HeapEvent, ghost known: set<object>, raw: GoMap)
    requires Valid(e) && Apart(thin, e, known)
    modifies thin.extensions
    ensures Apart(thin, e, known) && View(e) == old(View(e))
    ensures thin.attributes.m == old(thin.attributes.m)
    ensures var x, more := old(ViewExtensions(thin.extensions)), Restrict(old(raw.m), TOKEN_ECHO_KEYS);
            ViewExtensions(thin.extensions) == if more == map[] then x else x[EventEcho := JObj(more)]
  {
    label before:
    var eventCopy := MergedCopy(raw);
    Undisturbed@before(e);
    assert eventCopy !in known && eventCopy != thin.attributes && eventCopy !in Nested(thin.extensions);
    StoreAny(thin, e, known, eventCopy);
  }

  method StoreAny(thin: HeapEvent, e: HeapEvent, ghost known: set<object>, m: GoMap)
    requires Apart(thin, e, known)
    requires m !in known && m != thin.attributes && m !in Nested(thin.extensions)
    modifies thin.extensions
    ensures Apart(thin, e, known) && View(e) == old(View(e))
    ensures ViewExtensions(thin.extensions)
            == if m.m == map[] then old(ViewExtensions(thin.extensions))
               else old(ViewExtensions(thin.extensions))[EventEcho := JObj(m.m)]
  {
    if m.m != map[] {
      StoreFresh(thin, e, known, EventEcho, m);
    }
  }

  lemma {:induction false} EchoUnfolded(x: Object, e: Event, raw: Object)
    requires ObjectAt(e.extensions, EventEcho) == Some(raw)
    ensures var more := Restrict(raw, TOKEN_ECHO_KEYS);
            PutTokenEcho(x, e) ==
            match ObjectAt(x, EventEcho)
            case Some(m) => x[EventEcho := JObj(m + more)]
            case None => if more == map[] then x else x[EventEcho := JObj(more)]
  {
    var more := Restrict(raw, TOKEN_ECHO_KEYS);
    assert map[] + more == more;
    match ObjectAt(x, EventEcho)
    case None =>
    case Some(m) =>
      if m + more == map[] {
        assert m == map[];
        assert x[EventEcho := x[EventEcho]] == x;
      }
  }

  const TOKEN_ECHO_LIST := [InputTokens, OutputTokens, CacheReadTokens, CacheCreationTokens]

  lemma {:induction false} TokenEchoList()
    ensures Elements(TOKEN_ECHO_LIST) == TOKEN_ECHO_KEYS
  {}

  method MergedCopy(raw: GoMap) returns (eventCopy: GoMap)
    ensures fresh(eventCopy) && eventCopy.m == Restrict(raw.m, TOKEN_ECHO_KEYS)
  {
    eventCopy := new GoMap();
    TokenEchoList();
    CopySelectedKeys(eventCopy, raw, TOKEN_ECHO_LIST);
  }

  method MergeIntoOwnEcho(thin: HeapEvent, e: HeapEvent, ghost known: set<object>, raw: GoMap, echo: GoMap)
    requires Apart(thin, e, known)
    requires raw in Footprint(e)
    requires EventEcho in thin.extensions.m && thin.extensions.m[EventEcho] == Ref(echo)
    modifies echo
    ensures View(e) == old(View(e)) && thin.attributes.m == old(thin.attributes.m)
    ensures ViewExtensions(thin.extensions)
            == old(ViewExtensions(thin.extensions))[EventEcho := JObj(old(echo.m) + Restrict(raw.m, TOKEN_ECHO_KEYS))]
  {
    var slots := thin.extensions.m;
    assert echo in Nested(thin.extensions);
    ghost var before := ViewSlots(slots);
    TokenEchoList();
    CopySelectedKeys(echo, raw, TOKEN_ECHO_LIST);
    EchoRewritten(slots, before, echo);
    assert slots[EventEcho := Ref(echo)] == slots;
  }

  /** Every slot but the echo still reads as `before`. */
  lemma {:induction false} EchoRewritten(slots: map<Key, Slot>, before: Object, echo: GoMap)
    requires slots.Keys == before.Keys
    requires forall k :: k in slots && k != EventEcho ==> ViewSlot(slots[k]) == before[k]
    ensures ViewSlots(slots[EventEcho := Ref(echo)]) == before[EventEcho := JObj(echo.m)]
  {}

  lemma {:induction false} TokensUnfolded(g: Guards, x: Object, e: Event)
    requires g.tokens
    ensures var y := PutTokenEcho(x, e);
            PutTokens(g, x, e) == PutObject(y, e, OutcomeContract, OutcomeContract !in y)
  {}

  method CopyTokenAttributes(thin: HeapEvent, e: HeapEvent, ghost known: set<object>, ghost g: Guards)
    requires Valid(e) && Apart(thin, e, known) && g.tokens
    modifies thin.attributes, thin.extensions, EchoOf(thin)
    ensures Apart(thin, e, known) && View(e) == old(View(e))
    ensures ViewExtensions(thin.extensions) == PutTokens(g, old(ViewExtensions(thin.extensions)), View(e))
    ensures thin.attributes.m == Carry(old(thin.attributes.m), View(e), TOKEN_KEYS, true)
  {
    var keys := [InputTokenCount, OutputTokenCount, CachedInputTokens, CachedInputTokenCount];
    assert Elements(keys) == TOKEN_KEYS;
    CopyAttributes(thin, e, known, keys);
    TokensUnfolded(g, ViewExtensions(thin.extensions), View(e));
    MergeTokenEventExtension(thin, e, known);
    ShareContract(thin, e, known);
  }

  method ShareContract(thin: HeapEvent, e: HeapEvent, ghost known: set<object>)
    requires Valid(e) && Apart(thin, e, known)
    modifies thin.extensions
    ensures Apart(thin, e, known) && View(e) == old(View(e))
    ensures var y := old(ViewExtensions(thin.extensions));
            ViewExtensions(thin.extensions) == PutObject(y, View(e), OutcomeContract, OutcomeContract !in y)
  {
    ObjectOfView(e, OutcomeContract);
    if MapAt(e.extensions, OutcomeContract).Some? && OutcomeContract !in thin.extensions.m {
      ShareSlot(thin, e, known, OutcomeContract);
    }
  }

  method CopyIntegrationStateEvidence(thin: HeapEvent, e: HeapEvent, ghost known: set<object>) returns (keep: bool)
    requires Valid(e) && Apart(thin, e, known)
    modifies thin.attributes, thin.extensions
    ensures Apart(thin, e, known) && View(e) == old(View(e))
    ensures keep <==> HasIntegration(View(e))
    ensures ViewExtensions(thin.extensions)
            == PutObject(old(ViewExtensions(thin.extensions)), View(e), IntegrationState, keep)
    ensures thin.attributes.m == Carry(old(thin.attributes.m), View(e), INTEGRATION_KEYS, keep)
  {
    keep := IntegrationKind in e.attributes.m && IntegrationState in e.attributes.m;
    if keep {
      CopyIntegration(thin, e, known);
    }
  }

  method CopyIntegration(thin: HeapEvent, e: HeapEvent, ghost known: set<object>)
    requires Valid(e) && Apart(thin, e, known)
    modifies thin.attributes, thin.extensions
    ensures Apart(thin, e, known) && View(e) == old(View(e))
    ensures ViewExtensions(thin.extensions)
            == PutObject(old(ViewExtensions(thin.extensions)), View(e), IntegrationState, true)
    ensures thin.attributes.m == Carry(old(thin.attributes.m), View(e), INTEGRATION_KEYS, true)
  {
    KeyLists();
    CopyAttributes(thin, e, known, INTEGRATION_LIST);
    CloneInto(thin, e, known, IntegrationState);
  }

  method CopyGovernanceStateEvidence(thin: HeapEvent, e: HeapEvent, ghost known: set<object>, recovery: bool, ghost g: Guards) returns (keep: bool)
    requires Valid(e) && Apart(thin, e, known)
    requires g.recovery == recovery && g.governance == HasGovernance(View(e)) && recovery == AuthRecovery(View(e))
    modifies thin.attributes, thin.extensions
    ensures Apart(thin, e, known) && View(e) == old(View(e))
    ensures keep <==> g.governance
    ensures ViewExtensions(thin.extensions) == PutGovernance(g, old(ViewExtensions(thin.extensions)), View(e))
    ensures thin.attributes.m == Carry(Carry(old(thin.attributes.m), View(e), POLICY_KEYS, true), View(e), LIFECYCLE_KEYS, recovery)
  {
    var present := ApprovalPolicy in e.attributes.m || SandboxPolicy in e.attributes.m || AuthMode in e.attributes.m;
    assert g.governance == (present || recovery);
    var policies := [ApprovalPolicy, SandboxPolicy, AuthMode];
    assert Elements(policies) == POLICY_KEYS;
    CopyAttributes(thin, e, known, policies);
    if recovery {
      var keys := [LifecycleKind, LifecyclePhase, LifecycleStatus];
      assert Elements(keys) == LIFECYCLE_KEYS;
      CopyAttributes(thin, e, known, keys);
      present := true;
    }
    keep := present;
    if keep {
      CloneGovernance(thin, e, known);
    }
  }

  method CloneGovernance(thin: HeapEvent, e: HeapEvent, ghost known: set<object>)
    requires Valid(e) && Apart(thin, e, known)
    modifies thin.extensions
    ensures Apart(thin, e, known) && View(e) == old(View(e))
    ensures ViewExtensions(thin.extensions)
            == PutObject(PutObject(old(ViewExtensions(thin.extensions)), View(e), GovernanceStateKey, true),
                         View(e), SessionLifecycle, true)
  {
    CloneInto(thin, e, known, GovernanceStateKey);
    CloneInto(thin, e, known, SessionLifecycle);
  }

  // ---- one event --------------------------------------------------------------

  /** thinInsightEvent: the thin copy and whether any engine needs it. The copy's own
      maps are new, and so are those nested in it, but for the shared extensions. */
  method ThinInsightEvent(sc: Scanner, e: HeapEvent, ghost known: set<object>) returns (thin: HeapEvent, keep: bool)
    requires Valid(e) && Footprint(e) <= known
    ensures fresh(thin.attributes) && fresh(thin.extensions) && Apart(thin, e, known)
    ensures View(e) == old(View(e))
    ensures View(thin) == Thin(sc, View(e))
    ensures keep <==> Kept(sc, View(e))
  {
    var attributes := new GoMap();
    var extensions := new ExtMap();
    thin := HeapEvent(ThinEnvelope(e.env), attributes, extensions);
    keep := CopyEvidence(sc, thin, e, known);
  }

  method CopyEvidence(sc: Scanner, thin: HeapEvent, e: HeapEvent, ghost known: set<object>) returns (keep: bool)
    requires Valid(e) && Apart(thin, e, known)
    requires thin.env == ThinEnvelope(e.env) && thin.attributes.m == map[] && thin.extensions.m == map[]
    modifies thin.attributes, thin.extensions
    ensures Apart(thin, e, known) && View(e) == old(View(e))
    ensures View(thin) == Thin(sc, View(e))
    ensures keep <==> Kept(sc, View(e))
  {
    ghost var ev := View(e);
    ghost var g := GuardsOf(sc, ev);
    assert ViewExtensions(thin.extensions) == map[];
    keep := CopyFirstEvidence(thin, e, known, g, sc);
    var second := CopySecondEvidence(sc, thin, e, known, g);
    AssemblyIsThin(sc, ev);
    CarriedIsThin(sc, ev);
    KeptByGuards(sc, ev);
    keep := keep || second;
  }

  lemma {:induction false} KeptByGuards(sc: Scanner, e: Event)
    ensures var g := GuardsOf(sc, e);
            Kept(sc, e) <==> g.connection || g.use || OutcomeOf(e).Some? || g.metric || SkillDetection in e.extensions
                             || g.shape.Some? || g.tokens || g.integration || g.governance
  {}

  /** The helpers up to the user prompt. */
  method CopyFirstEvidence(thin: HeapEvent, e: HeapEvent, ghost known: set<object>, ghost g: Guards, ghost sc: Scanner) returns (keep: bool)
    requires Valid(e) && Apart(thin, e, known) && g == GuardsOf(sc, View(e))
    modifies thin.attributes, thin.extensions
    ensures Apart(thin, e, known) && View(e) == old(View(e))
    ensures MapAt(thin.extensions, EventEcho) == old(MapAt(thin.extensions, EventEcho)) ||
            (MapAt(thin.extensions, EventEcho).Some? && fresh(MapAt(thin.extensions, EventEcho).value))
    ensures keep <==> g.connection || g.use || OutcomeOf(View(e)).Some? || g.metric
                      || SkillDetection in View(e).extensions || g.shape.Some?
    ensures ViewExtensions(thin.extensions) ==
            PutUserPrompt(g, PutSkillPolicy(g, PutObject(PutObject(PutMcp(g, old(ViewExtensions(thin.extensions)), View(e)),
              View(e), OutcomeContract, true), View(e), PerformanceMetric, true), View(e)), View(e))
    ensures thin.attributes.m
            == Carry(Carry(old(thin.attributes.m), View(e), {Category}, g.use), View(e), METRIC_KEYS, g.metric)
  {
    var mcp := CopyMCPInsightEvidence(thin, e, known, IsMcpConnection(View(e)), McpUseOf(View(e)).Some?, g);
    var outcome := CopyOutcomeInsightEvidence(thin, e, known);
    var performance := CopyPerformanceInsightEvidence(thin, e, known);
    var skill := CopySkillPolicyEvidence(thin, e, known, g);
    var prompt := CopyUserPromptEvidence(thin, e, known, g);
    keep := mcp || outcome || performance || skill || prompt;
  }

  /** The helpers from the token signals on. */
  method CopySecondEvidence(sc: Scanner, thin: HeapEvent, e: HeapEvent, ghost known: set<object>, ghost g: Guards) returns (keep: bool)
    requires Valid(e) && Apart(thin, e, known) && g == GuardsOf(sc, View(e))
    modifies thin.attributes, thin.extensions, EchoOf(thin)
    ensures Apart(thin, e, known) && View(e) == old(View(e))
    ensures keep <==> g.tokens || g.integration || g.governance
    ensures ViewExtensions(thin.extensions) ==
            PutGovernance(g, PutObject(PutTokens(g, old(ViewExtensions(thin.extensions)), View(e)),
              View(e), IntegrationState, g.integration), View(e))
    ensures thin.attributes.m ==
            Carry(Carry(Carry(Carry(old(thin.attributes.m), View(e), TOKEN_KEYS, g.tokens),
              View(e), INTEGRATION_KEYS, g.integration), View(e), POLICY_KEYS, true), View(e), LIFECYCLE_KEYS, g.recovery)
  {
    var tokens := HasTokenSignal(sc, View(e));
    if tokens {
      CopyTokenAttributes(thin, e, known, g);
    }
    var integration := CopyIntegrationStateEvidence(thin, e, known);
    var governance := CopyGovernanceStateEvidence(thin, e, known, AuthRecovery(View(e)), g);
    keep := tokens || integration || governance;
  }

  // ---- the session ------------------------------------------------------------

  /** The coverage map: each surface's strongest detection state. */
  ghost predicate IsCoverage(coverage: map<string, Detection>, rows: map<string, CoverageRow>) {
    && coverage.Keys == rows.Keys
    && forall s :: s in rows ==> coverage[s] == rows[s].state
  }

  lemma {:induction false} SurfacesAreJoined(events: seq<Event>)
    ensures forall s :: s in CoverageRows(events) ==> '\0' in s
  {
    forall s | s in CoverageRows(events) ensures '\0' in s {
      CoverageOf(events, s);
      var e :| e in events && Surface(e) == s;
      assert s[|e.env.provider|] == '\0';
    }
  }

  /** Reading an event again, when nothing it refers to was written, gives the same value. */
  twostate lemma Undisturbed(e: HeapEvent)
    requires unchanged(e.attributes) && unchanged(e.extensions)
    requires forall o :: o in old(Nested(e.extensions)) ==> unchanged(o)
    ensures View(e) == old(View(e))
  {}

  lemma {:induction false} ViewsAre(events: seq<HeapEvent>, vs: seq<Event>)
    requires |events| == |vs| && forall i :: 0 <= i < |events| ==> View(events[i]) == vs[i]
    ensures Views(events) == vs
  {}

  /** Every map of `x` is new, its own two and the nested ones, except that an extension
      under a shared key is held by some event of the session. */
  ghost predicate OwnMaps(x: HeapEvent, events: seq<HeapEvent>, known: set<object>)
    reads x.extensions, set e | e in events :: e.extensions
  {
    && x.attributes !in known && x.extensions !in known
    && forall k :: k in x.extensions.m && x.extensions.m[k].Ref? ==>
         if k in SHARED_KEYS then SharedWith(events, k, x.extensions.m[k]) else x.extensions.m[k].obj !in known
  }

  ghost predicate SharedWith(events: seq<HeapEvent>, k: Key, slot: Slot)
    reads set e | e in events :: e.extensions
  {
    exists i :: 0 <= i < |events| && k in events[i].extensions.m && events[i].extensions.m[k] == slot
  }

  lemma {:induction false} MapsAreUnknown(out: seq<HeapEvent>, events: seq<HeapEvent>, known: set<object>)
    requires forall x :: x in out ==> OwnMaps(x, events, known)
    ensures forall x :: x in out ==> x.attributes !in known && x.extensions !in known
    ensures forall x, k :: x in out && k in x.extensions.m && x.extensions.m[k].Ref? ==>
              if k in SHARED_KEYS then SharedWith(events, k, x.extensions.m[k]) else x.extensions.m[k].obj !in known
  {
    forall x, k | x in out && k in x.extensions.m && x.extensions.m[k].Ref?
      ensures if k in SHARED_KEYS then SharedWith(events, k, x.extensions.m[k]) else x.extensions.m[k].obj !in known
    {
      assert OwnMaps(x, events, known);
    }
  }

  /** SourceEventsFromSession. It modifies nothing that existed before: the session's
      events and their maps are as they were. Every map of the index is new, nested ones
      too, but for the outcome contracts and skill detections: those it shares. */
  method SourceEventsFromSession(sc: Scanner, events: seq<HeapEvent>) returns (out: seq<HeapEvent>)
    requires forall e :: e in events ==> Valid(e)
    ensures forall e :: e in events ==> View(e) == old(View(e))
    ensures IsThinIndex(sc, Views(events), Views(out))
    ensures forall e :: e in out ==> fresh(e.attributes) && fresh(e.extensions)
    ensures forall e, k :: e in out && k in e.extensions.m && e.extensions.m[k].Ref? ==>
              if k in SHARED_KEYS then SharedWith(events, k, e.extensions.m[k]) else fresh(e.extensions.m[k].obj)
  {
    ghost var known := set o: object {:trigger allocated(o)} | allocated(o);
    out := IndexSession(sc, events, known);
    MapsAreUnknown(out, events, known);
  }

  method IndexSession(sc: Scanner, events: seq<HeapEvent>, ghost known: set<object>) returns (out: seq<HeapEvent>)
    requires forall e :: e in events ==> Valid(e) && Footprint(e) <= known
    ensures forall e :: e in events ==> View(e) == old(View(e))
    ensures IsThinIndex(sc, Views(events), Views(out))
    ensures forall e :: e in out ==> OwnMaps(e, events, known)
  {
    ghost var views := Views(events);
    if events == [] {
      return [];
    }
    ghost var thin, order;
    out, thin, order := KeepAndMark(sc, events, known, views);
    ghost var markers := CoverageEvents(events[0].env, CoverageRows(views), order);
    ViewsAre(out, thin + markers);
    ViewsAre(events, views);
    IndexFromParts(sc, views, thin, markers, order);
  }

  /** The two loops: the thin copies, then a marker per covered surface. */
  method KeepAndMark(sc: Scanner, events: seq<HeapEvent>, ghost known: set<object>, ghost views: seq<Event>)
    returns (out: seq<HeapEvent>, ghost thin: seq<Event>, ghost order: seq<string>)
    requires events != [] && forall e :: e in events ==> Valid(e) && Footprint(e) <= known
    requires |views| == |events| && forall i :: 0 <= i < |events| ==> View(events[i]) == views[i]
    ensures forall i :: 0 <= i < |events| ==> View(events[i]) == views[i]
    ensures Visits(CoverageRows(views), order) && thin == FilterMap(Keep(sc), views)
    ensures var all := thin + CoverageEvents(events[0].env, CoverageRows(views), order);
            |out| == |all| && forall i :: 0 <= i < |out| ==> View(out[i]) == all[i]
    ensures forall i :: 0 <= i < |out| ==> OwnMaps(out[i], events, known)
  {
    var kept, coverage;
    kept, coverage, thin := KeptEvents(sc, events, known, views);
    SurfacesAreJoined(views);
    label kept:
    var markers;
    markers, order := CoverageMarkers(events[0].env, coverage, CoverageRows(views), events, known);
    forall i | 0 <= i < |kept| ensures View(kept[i]) == thin[i] {
      Undisturbed@kept(kept[i]);
    }
    forall i | 0 <= i < |events| ensures View(events[i]) == views[i] {
      Undisturbed@kept(events[i]);
    }
    out := kept + markers;
  }

  lemma {:induction false} IndexFromParts(sc: Scanner, events: seq<Event>, kept: seq<Event>, markers: seq<Event>, order: seq<string>)
    requires events != [] && Visits(CoverageRows(events), order)
    requires kept == FilterMap(Keep(sc), events)
    requires markers == CoverageEvents(events[0].env, CoverageRows(events), order)
    ensures IsThinIndex(sc, events, kept + markers)
  {}

  function Note(coverage: map<string, Detection>, surface: string, state: Detection): map<string, Detection> {
    if surface !in coverage || Rank(state) > Rank(coverage[surface]) then coverage[surface := state] else coverage
  }

  lemma {:induction false} NoteStep(events: seq<Event>, n: nat, coverage: map<string, Detection>)
    requires n < |events| && IsCoverage(coverage, CoverageRows(events[..n]))
    ensures IsCoverage(Note(coverage, Surface(events[n]), DetectionState(events[n])), CoverageRows(events[..n + 1]))
  {
    assert events[..n + 1][..n] == events[..n];
  }

  lemma {:induction false} KeepStep(sc: Scanner, events: seq<Event>, n: nat)
    requires n < |events|
    ensures FilterMap(Keep(sc), events[..n + 1])
            == FilterMap(Keep(sc), events[..n]) + if Kept(sc, events[n]) then [Thin(sc, events[n])] else []
  {
    FilterMapStep(Keep(sc), events, n);
  }

  /** The first loop: the thin copies in order, and the strongest state per surface. */
  method KeptEvents(sc: Scanner, events: seq<HeapEvent>, ghost known: set<object>, ghost views: seq<Event>)
    returns (out: seq<HeapEvent>, coverage: map<string, Detection>, ghost thin: seq<Event>)
    requires forall e :: e in events ==> Valid(e) && Footprint(e) <= known
    requires |views| == |events| && forall i :: 0 <= i < |events| ==> View(events[i]) == views[i]
    ensures IsCoverage(coverage, CoverageRows(views))
    ensures thin == FilterMap(Keep(sc), views)
    ensures |out| == |thin| && forall i :: 0 <= i < |out| ==> View(out[i]) == thin[i]
    ensures forall i :: 0 <= i < |out| ==> OwnMaps(out[i], events, known)
  {
    out, coverage, thin := [], map[], [];
    for n := 0 to |events|
      invariant forall i :: 0 <= i < |events| ==> View(events[i]) == views[i]
      invariant IsCoverage(coverage, CoverageRows(views[..n]))
      invariant thin == FilterMap(Keep(sc), views[..n])
      invariant |out| == |thin| && forall i :: 0 <= i < |out| ==> View(out[i]) == thin[i]
      invariant forall i :: 0 <= i < |out| ==> OwnMaps(out[i], events, known)
    {
      out, coverage, thin := TakeEvent(sc, events, known, n, out, coverage, views, thin);
    }
    assert views[..|events|] == views;
  }

  /** One turn of the first loop. */
  method TakeEvent(
      sc: Scanner, events: seq<HeapEvent>, ghost known: set<object>, n: nat, out: seq<HeapEvent>,
      coverage: map<string, Detection>, ghost views: seq<Event>, ghost thin: seq<Event>)
    returns (out': seq<HeapEvent>, coverage': map<string, Detection>, ghost thin': seq<Event>)
    requires n < |events| && Valid(events[n]) && Footprint(events[n]) <= known
    requires |views| == |events| && forall i :: 0 <= i < |events| ==> View(events[i]) == views[i]
    requires IsCoverage(coverage, CoverageRows(views[..n])) && thin == FilterMap(Keep(sc), views[..n])
    requires |out| == |thin| && forall i :: 0 <= i < |out| ==> View(out[i]) == thin[i]
    requires forall i :: 0 <= i < |out| ==> OwnMaps(out[i], events, known)
    ensures forall i :: 0 <= i < |events| ==> View(events[i]) == views[i]
    ensures IsCoverage(coverage', CoverageRows(views[..n + 1])) && thin' == FilterMap(Keep(sc), views[..n + 1])
    ensures |out'| == |thin'| && forall i :: 0 <= i < |out'| ==> View(out'[i]) == thin'[i]
    ensures forall i :: 0 <= i < |out'| ==> OwnMaps(out'[i], events, known)
  {
    NoteStep(views, n, coverage);
    KeepStep(sc, views, n);
    coverage' := Note(coverage, Surface(View(events[n])), DetectionState(View(events[n])));
    out', thin' := KeepOne(sc, events, known, n, out, views, thin);
  }

  /** Adds the thin copy of one event, if it is kept; every other event shows what it did. */
  method KeepOne(
      sc: Scanner, events: seq<HeapEvent>, ghost known: set<object>, n: nat, out: seq<HeapEvent>,
      ghost views: seq<Event>, ghost thin: seq<Event>)
    returns (out': seq<HeapEvent>, ghost thin': seq<Event>)
    requires n < |events| && Valid(events[n]) && Footprint(events[n]) <= known
    requires |views| == |events| && forall i :: 0 <= i < |events| ==> View(events[i]) == views[i]
    requires |out| == |thin| && forall i :: 0 <= i < |out| ==> View(out[i]) == thin[i]
    requires forall i :: 0 <= i < |out| ==> OwnMaps(out[i], events, known)
    ensures forall i :: 0 <= i < |events| ==> View(events[i]) == views[i]
    ensures thin' == thin + if Kept(sc, views[n]) then [Thin(sc, views[n])] else []
    ensures |out'| == |thin'| && forall i :: 0 <= i < |out'| ==> View(out'[i]) == thin'[i]
    ensures forall i :: 0 <= i < |out'| ==> OwnMaps(out'[i], events, known)
  {
    label before:
    var copy, ok := ThinInsightEvent(sc, events[n], known);
    forall i | 0 <= i < |out| ensures View(out[i]) == thin[i] {
      Undisturbed@before(out[i]);
    }
    forall i | 0 <= i < |events| ensures View(events[i]) == views[i] {
      Undisturbed@before(events[i]);
    }
    out', thin' := out, thin;
    if ok {
      CopyOwnsMaps(copy, events, n, known);
      out', thin' := out + [copy], thin + [View(copy)];
    }
  }

  lemma {:induction false} CopyOwnsMaps(copy: HeapEvent, events: seq<HeapEvent>, n: nat, known: set<object>)
    requires n < |events| && Apart(copy, events[n], known)
    ensures OwnMaps(copy, events, known)
  {
    var slots, theirs := copy.extensions.m, events[n].extensions.m;
    forall k | k in slots && slots[k].Ref?
      ensures if k in SHARED_KEYS then SharedWith(events, k, slots[k]) else slots[k].obj !in known
    {
      assert Sourced(slots, theirs, known, k);
    }
  }

  /** The second loop: one coverage event per surface, in whatever order the map yields. */
  method CoverageMarkers(
      first: Envelope, coverage: map<string, Detection>, ghost rows: map<string, CoverageRow>,
      ghost events: seq<HeapEvent>, ghost known: set<object>)
    returns (out: seq<HeapEvent>, ghost order: seq<string>)
    requires IsCoverage(coverage, rows)
    requires forall s :: s in coverage ==> '\0' in s
    ensures Visits(rows, order)
    ensures |out| == |order| && forall i :: 0 <= i < |out| ==> View(out[i]) == CoverageEvents(first, rows, order)[i]
    ensures forall i :: 0 <= i < |out| ==> OwnMaps(out[i], events, known)
  {
    out, order := [], [];
    ghost var markers: seq<Event> := [];
    var pending := coverage.Keys;
    while pending != {}
      invariant pending <= coverage.Keys
      invariant forall s :: s in order <==> s in coverage && s !in pending
      invariant NoRepeats(order)
      invariant forall i :: 0 <= i < |out| ==> OwnMaps(out[i], events, known)
      invariant |markers| == |order| && markers == CoverageEvents(first, rows, order)
      invariant |out| == |markers| && forall i :: 0 <= i < |out| ==> View(out[i]) == markers[i]
      decreases |pending|
    {
      var surface :| surface in pending;
      MarkersStep(first, rows, order, surface);
      out, markers := AddMarker(first, surface, coverage[surface], events, known, out, markers);
      order := order + [surface];
      pending := pending - {surface};
    }
  }

  method AddMarker(
      first: Envelope, surface: string, state: Detection, ghost events: seq<HeapEvent>, ghost known: set<object>,
      out: seq<HeapEvent>, ghost markers: seq<Event>)
    returns (out': seq<HeapEvent>, ghost markers': seq<Event>)
    requires '\0' in surface
    requires |out| == |markers| && forall i :: 0 <= i < |out| ==> View(out[i]) == markers[i]
    requires forall i :: 0 <= i < |out| ==> OwnMaps(out[i], events, known)
    ensures markers' == markers + [CoverageEvent(first, surface, state)]
    ensures |out'| == |markers'| && forall i :: 0 <= i < |out'| ==> View(out'[i]) == markers'[i]
    ensures forall i :: 0 <= i < |out'| ==> OwnMaps(out'[i], events, known)
  {
    label before:
    var marker := CoverageMarker(first, surface, state, events, known);
    forall i | 0 <= i < |out| ensures View(out[i]) == markers[i] {
      Undisturbed@before(out[i]);
    }
    out', markers' := out + [marker], markers + [View(marker)];
  }

  lemma {:induction false} MarkersStep(first: Envelope, rows: map<string, CoverageRow>, order: seq<string>, s: string)
    requires s in rows && '\0' in s && forall q :: q in order ==> q in rows && '\0' in q
    ensures CoverageEvents(first, rows, order + [s])
            == CoverageEvents(first, rows, order) + [CoverageEvent(first, s, rows[s].state)]
  {}

  method CoverageMarker(
      first: Envelope, surface: string, state: Detection, ghost events: seq<HeapEvent>, ghost known: set<object>)
    returns (marker: HeapEvent)
    requires '\0' in surface
    ensures OwnMaps(marker, events, known)
    ensures View(marker) == CoverageEvent(first, surface, state)
  {
    var (provider, tool) := Cut(surface);
    var attributes := new GoMap();
    var extensions := new ExtMap();
    extensions.m := map[SkillDetection := Plain(JStr(DetectionName(state)))];
    marker := HeapEvent(
      Envelope(first.schemaVersion, "skill-coverage:" + first.sessionId + ":" + provider + ":" + tool,
               "skill_coverage", first.occurredAt, first.receivedAt, provider, tool, "", "", "", "",
               first.sessionId, None, None, first.privacyLevel),
      attributes, extensions);
  }
}

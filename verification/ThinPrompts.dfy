/** User prompts on the thin index (internal/insights/source_events.go): every Claude
    prompt is on it with its text and its keys, and no Codex text is. */
module ThinPrompts {
  import opened Prelude
  import opened Canonical
  import opened Signals
  import opened ThinEvent
  import opened ThinIndex
  import opened SkillUsage
  import opened PromptKeywords
  import opened KeywordFindings

  function Within(e: Event, namespace: Key, key: Key): Option<Json> {
    At(ObjectAt(e.extensions, namespace), key)
  }

  lemma {:induction false} RestrictLookup(m: Object, keys: set<Key>, k: Key)
    requires k in keys
    ensures HasKey(Restrict(m, keys), k) == HasKey(m, k)
  {}

  /** A logged prompt is kept, with its text, its length and its message uuid. */
  lemma {:induction false} ThinKeepsLoggedPrompt(sc: Scanner, e: Event)
    requires IsClaude(e) && e.env.eventType == "user_prompt"
    ensures Kept(sc, e)
    ensures Within(Thin(sc, e), EventEcho, Key.Prompt) == Within(e, EventEcho, Key.Prompt)
    ensures Within(Thin(sc, e), EventEcho, PromptLength) == Within(e, EventEcho, PromptLength)
    ensures Within(Thin(sc, e), Correlation, MessageUuid) == Within(e, Correlation, MessageUuid)
  {
    var g := GuardsOf(sc, e);
    GroupKept(sc, e, EventEcho, EchoKeys(g), Key.Prompt);
    GroupKept(sc, e, EventEcho, EchoKeys(g), PromptLength);
    GroupKept(sc, e, Correlation, {MessageUuid}, MessageUuid);
  }

  /** A transcript prompt is kept, with its text and its uuid. */
  lemma {:induction false} ThinKeepsTranscriptPrompt(sc: Scanner, e: Event)
    requires IsClaude(e) && e.env.eventType == "user_message"
    ensures Kept(sc, e)
    ensures Within(Thin(sc, e), Transcript, PromptContent) == Within(e, Transcript, PromptContent)
    ensures Within(Thin(sc, e), Correlation, Uuid) == Within(e, Correlation, Uuid)
  {
    GroupKept(sc, e, Transcript, {PromptContent}, PromptContent);
    GroupKept(sc, e, Correlation, {Uuid}, Uuid);
  }

  lemma {:induction false} GroupKept(sc: Scanner, e: Event, namespace: Key, keys: set<Key>, k: Key)
    requires namespace in CARRIED_EXTENSIONS && k in keys
    requires ThinExtension(GuardsOf(sc, e), e, namespace) == KeptKeys(e, namespace, keys)
    ensures Within(Thin(sc, e), namespace, k) == Within(e, namespace, k)
  {
    ExtensionUnder(GuardsOf(sc, e), e, namespace);
    match ObjectAt(e.extensions, namespace)
    case Some(m) => RestrictLookup(m, keys, k);
    case None =>
  }

  // ---- one event --------------------------------------------------------------

  /** A Claude event is the same prompt on the index: same key, same text. */
  lemma {:induction false} ThinKeepsPrompt(sc: Scanner, e: Event)
    requires IsClaude(e)
    ensures UserRecord(Thin(sc, e)) == UserRecord(e)
    ensures PromptIdentityKey(Thin(sc, e)) == PromptIdentityKey(e)
    ensures UserRecord(e).Some? ==> Kept(sc, e)
  {
    if e.env.eventType == "user_prompt" {
      ThinKeepsLoggedPrompt(sc, e);
    } else if e.env.eventType == "user_message" {
      ThinKeepsTranscriptPrompt(sc, e);
    }
  }

  /** A Codex prompt has no text on the index, and is there only if something else keeps it. */
  lemma {:induction false} ThinDropsCodexText(sc: Scanner, e: Event)
    requires IsCodex(e)
    ensures UserRecord(Thin(sc, e)) == if e.env.eventType == "user_prompt" then Some(None) else None
    ensures PromptIdentityKey(Thin(sc, e)) == PromptIdentityKey(e)
  {
    if e.env.eventType == "user_prompt" {
      var g := GuardsOf(sc, e);
      ExtensionUnder(g, e, EventEcho);
      assert Within(Thin(sc, e), EventEcho, Key.Prompt) == None;
    }
  }

  // ---- the list of prompts ----------------------------------------------------

  /** Ids tell events, and none reads like the id of a coverage marker. */
  ghost predicate ApartIds(events: seq<Event>) {
    && (forall d, e :: d in events && e in events && d.env.eventId == e.env.eventId ==> d == e)
    && forall e :: e in events ==> !("skill-coverage:" <= e.env.eventId)
  }

  function OwnPrompt(e: Event): Option<Prompt> { PromptOf(e, e) }

  /** What the index has of an event's prompt. */
  function ThinPrompt(sc: Scanner, e: Event): Option<Prompt> {
    if Kept(sc, e) then OwnPrompt(Thin(sc, e)) else None
  }

  function ThinReader(sc: Scanner): Event -> Option<Prompt> {
    (e: Event) => ThinPrompt(sc, e)
  }

  /** Every Codex prompt is on the index for another reason, and had no text to lose. */
  ghost predicate NoCodexText(sc: Scanner, events: seq<Event>) {
    forall e :: e in events && IsCodex(e) && e.env.eventType == "user_prompt" ==>
      Kept(sc, e) && AvailableText(Within(e, EventEcho, Key.Prompt)) == None
  }

  lemma {:induction false} ThinPromptOf(sc: Scanner, e: Event)
    ensures ThinPrompt(sc, e).Some? ==> OwnPrompt(e).Some?
    ensures ThinPrompt(sc, e) == OwnPrompt(e)
            <==> (IsCodex(e) && e.env.eventType == "user_prompt" ==>
                    Kept(sc, e) && AvailableText(Within(e, EventEcho, Key.Prompt)) == None)
  {
    if IsClaude(e) {
      ThinKeepsPrompt(sc, e);
    } else if IsCodex(e) {
      ThinDropsCodexText(sc, e);
    }
  }

  lemma {:induction false} OwnersAreOwn(events: seq<Event>, all: seq<Event>)
    requires forall e :: e in events ==> PromptAmong(all, e) == OwnPrompt(e)
    ensures FilterMap(PromptReader(all), events) == FilterMap(OwnPrompt, events)
  {
    if events != [] {
      OwnersAreOwn(events[..|events| - 1], all);
    }
  }

  /** Of two readers the second of which reads no more, the lists agree exactly where they do. */
  lemma {:induction false} ThinnerLists<A, B>(f: A -> Option<B>, g: A -> Option<B>, xs: seq<A>)
    requires forall x :: x in xs && g(x).Some? ==> f(x).Some?
    ensures |FilterMap(g, xs)| <= |FilterMap(f, xs)|
    ensures FilterMap(g, xs) == FilterMap(f, xs) <==> forall x :: x in xs ==> g(x) == f(x)
  {
    if xs != [] {
      var front, last := xs[..|xs| - 1], xs[|xs| - 1];
      ThinnerLists(f, g, front);
      assert xs == front + [last];
      assert f(last).Some? ==> FilterMap(f, xs)[..|FilterMap(f, front)|] == FilterMap(f, front);
      assert g(last).Some? ==> FilterMap(g, xs)[..|FilterMap(g, front)|] == FilterMap(g, front);
    }
  }

  lemma {:induction false} EventsOwnPrompts(events: seq<Event>)
    requires ApartIds(events)
    ensures PromptsOf(events) == FilterMap(OwnPrompt, events)
  {
    forall e | e in events ensures PromptAmong(events, e) == OwnPrompt(e) {
      ByIdFinds(events, e);
    }
    OwnersAreOwn(events, events);
  }

  /** The marker of a surface is no prompt, and its id reads like one's. */
  lemma {:induction false} MarkerIsNoPrompt(first: Envelope, surface: string, state: Detection)
    requires '\0' in surface
    ensures UserRecord(CoverageEvent(first, surface, state)) == None
    ensures "skill-coverage:" <= CoverageEvent(first, surface, state).env.eventId
  {}

  lemma {:induction false} IndexMember(
      sc: Scanner, events: seq<Event>, first: Envelope, rows: map<string, CoverageRow>, order: seq<string>, x: Event)
    requires Visits(rows, order) && x in FilterMap(Keep(sc), events) + CoverageEvents(first, rows, order)
    ensures (exists e :: e in events && x == Thin(sc, e)) || (UserRecord(x) == None && "skill-coverage:" <= x.env.eventId)
  {
    if x in FilterMap(Keep(sc), events) {
      FilterMapMember(Keep(sc), events, x);
    } else {
      var i :| 0 <= i < |order| && CoverageEvents(first, rows, order)[i] == x;
      MarkerIsNoPrompt(first, order[i], rows[order[i]].state);
    }
  }

  lemma {:induction false} IndexOwnsPrompts(
      sc: Scanner, events: seq<Event>, first: Envelope, rows: map<string, CoverageRow>, order: seq<string>)
    requires ApartIds(events) && Visits(rows, order)
    ensures var index := FilterMap(Keep(sc), events) + CoverageEvents(first, rows, order);
            PromptsOf(index) == FilterMap(OwnPrompt, index)
  {
    var index := FilterMap(Keep(sc), events) + CoverageEvents(first, rows, order);
    forall x | x in index ensures PromptAmong(index, x) == OwnPrompt(x) {
      IndexMember(sc, events, first, rows, order, x);
      ByIdFinds(index, x);
      var owner := ById(index, x.env.eventId).value;
      IndexMember(sc, events, first, rows, order, owner);
    }
    OwnersAreOwn(index, index);
  }

  /** Reading what another reader keeps is one reading. */
  lemma {:induction false} ReadTwice<A, B, C>(f: A -> Option<B>, g: B -> Option<C>, h: A -> Option<C>, xs: seq<A>)
    requires forall x :: x in xs ==> h(x) == if f(x).Some? then g(f(x).value) else None
    ensures FilterMap(g, FilterMap(f, xs)) == FilterMap(h, xs)
  {
    if xs != [] {
      var front, last := xs[..|xs| - 1], xs[|xs| - 1];
      ReadTwice(f, g, h, front);
      if f(last).Some? {
        FilterMapSnoc(g, FilterMap(f, front), f(last).value);
      }
    }
  }

  lemma {:induction false} KeptPrompts(sc: Scanner, events: seq<Event>)
    ensures FilterMap(OwnPrompt, FilterMap(Keep(sc), events)) == FilterMap(ThinReader(sc), events)
  {
    ReadTwice(Keep(sc), OwnPrompt, ThinReader(sc), events);
  }

  lemma {:induction false} PromptsOfIndex(sc: Scanner, events: seq<Event>, index: seq<Event>)
    requires IsThinIndex(sc, events, index) && ApartIds(events)
    ensures PromptsOf(index) == FilterMap(ThinReader(sc), events)
  {
    if events != [] {
      var first, rows := events[0].env, CoverageRows(events);
      var order :| Visits(rows, order) && index == FilterMap(Keep(sc), events) + CoverageEvents(first, rows, order);
      IndexOwnsPrompts(sc, events, first, rows, order);
      forall i | 0 <= i < |order| ensures OwnPrompt(CoverageEvent(first, order[i], rows[order[i]].state)) == None {
        MarkerIsNoPrompt(first, order[i], rows[order[i]].state);
      }
      MarkersAdded(OwnPrompt, FilterMap(Keep(sc), events), first, rows, order);
      KeptPrompts(sc, events);
    }
  }

  /** The prompts of the index, with their keys, sessions and texts, are those of the events
      exactly when every Codex prompt is there for another reason and has no text; so they
      are wherever all prompts are Claude's. */
  lemma {:induction false} PromptsAgree(sc: Scanner, events: seq<Event>, index: seq<Event>)
    requires IsThinIndex(sc, events, index) && ApartIds(events)
    ensures PromptsOf(index) == PromptsOf(events) <==> NoCodexText(sc, events)
  {
    var thin := ThinReader(sc);
    PromptsOfIndex(sc, events, index);
    EventsOwnPrompts(events);
    forall e ensures thin(e).Some? ==> OwnPrompt(e).Some?
      ensures thin(e) == OwnPrompt(e)
              <==> (IsCodex(e) && e.env.eventType == "user_prompt" ==>
                      Kept(sc, e) && AvailableText(Within(e, EventEcho, Key.Prompt)) == None)
    {
      ThinPromptOf(sc, e);
    }
    ThinnerLists(OwnPrompt, thin, events);
  }

  /** Any keyword report on the index is then one on the events. */
  lemma {:induction false} KeywordReportAgrees(
      sc: Scanner, events: seq<Event>, index: seq<Event>, m: Matcher, rules: seq<Rule>,
      report: Report, identities: seq<Identity>)
    requires IsThinIndex(sc, events, index) && ApartIds(events) && NoCodexText(sc, events)
    ensures Reports(m, PromptsOf(index), rules, report, identities) <==> Reports(m, PromptsOf(events), rules, report, identities)
  {
    PromptsAgree(sc, events, index);
  }

  /** One Codex prompt. */
  function CodexPrompt(id: string, text: string): Event {
    Event(
      Envelope("1", id, "user_prompt", 0, 0, "openai", "codex", "", "", "", "", "s", None, None, ""),
      map[], map[EventEcho := JObj(map[Key.Prompt := JStr(text)])])
  }

  /** A Codex prompt that a rule matches: a violation on the events, and nothing to judge on
      the index. */
  lemma {:induction false} CodexPromptIsLost(sc: Scanner, index: seq<Event>, m: Matcher, rule: Rule, text: string)
    requires IsThinIndex(sc, [CodexPrompt("e", text)], index)
    requires !Redacted(text) && rule.enabled && m.compiles(rule) && m.matches(rule, text)
    ensures SomeMatch(m, [rule], PromptsOf([CodexPrompt("e", text)])) && PromptsOf(index) == []
  {
    var e := CodexPrompt("e", text);
    CodexPromptRead(sc, text);
    EventsOwnPrompts([e]);
    PromptsOfIndex(sc, [e], index);
    OneRead(OwnPrompt, e);
    OneRead(ThinReader(sc), e);
    MatchIsSome(m, rule, PromptsOf([e]));
  }

  lemma {:induction false} MatchIsSome(m: Matcher, rule: Rule, prompts: seq<Prompt>)
    requires prompts != [] && Matches(m, rule, prompts[0])
    ensures SomeMatch(m, [rule], prompts)
  {
    assert rule in [rule] && prompts[0] in prompts;
  }

  lemma {:induction false} OneRead<A, B>(f: A -> Option<B>, x: A)
    ensures FilterMap(f, [x]) == if f(x).Some? then [f(x).value] else []
  {
    FilterMapSnoc(f, [], x);
    assert [] + [x] == [x];
  }

  lemma {:induction false} CodexPromptRead(sc: Scanner, text: string)
    requires !Redacted(text)
    ensures OwnPrompt(CodexPrompt("e", text)).Some? && OwnPrompt(CodexPrompt("e", text)).value.text == Some(text)
    ensures ThinPrompt(sc, CodexPrompt("e", text)) == None
  {
    var e := CodexPrompt("e", text);
    assert ObjectAt(e.extensions, McpCall) == None && ObjectAt(e.extensions, OutcomeContract) == None;
    assert ObjectAt(e.extensions, PerformanceMetric) == None;
    assert !Kept(sc, e);
  }
}

/** The request token columns of the MCP inventory on the thin index: which survive, and
    exactly when the others do. */
module ThinTokens {
  import opened Prelude
  import opened Folds
  import opened Canonical
  import opened Signals
  import opened ThinEvent
  import opened SkillUsage
  import opened McpInventory
  import opened ThinIndex

  // ---- one event --------------------------------------------------------------

  function OutputOf(sc: Scanner): Event -> Option<int> {
    (e: Event) => RequestContext(sc, e).output
  }

  /** The output count an event's thin copy still carries: all of it beside an input or
      cached count, else what a connection echoes. */
  function ThinOutput(sc: Scanner): Event -> Option<int> {
    (e: Event) =>
      if HasTokenSignal(sc, e) then RequestContext(sc, e).output
      else if IsMcpConnection(e) then OptionalInt(sc, At(ObjectAt(e.extensions, EventEcho), OutputTokens))
      else None
  }

  function CacheCreatedOf(sc: Scanner): Event -> Option<int> {
    (e: Event) => RequestContext(sc, e).cacheCreated
  }

  /** The cache creation count an event's thin copy still carries. */
  function ThinCacheCreated(sc: Scanner): Event -> Option<int> {
    (e: Event) => if HasTokenSignal(sc, e) || IsMcpConnection(e) then RequestContext(sc, e).cacheCreated else None
  }

  /** The lookups behind the request token columns, on the thin copy. */
  lemma {:induction false} TokenLookupUnder(g: Guards, e: Event, k: Key)
    requires k in TOKEN_KEYS
    ensures HasKey(ThinAttributes(g, e), k) == if g.tokens then HasKey(e.attributes, k) else None
  {}

  lemma {:induction false} TokenLookupsOfThin(sc: Scanner, e: Event, k: Key)
    requires k in TOKEN_KEYS
    ensures HasKey(Thin(sc, e).attributes, k) == if HasTokenSignal(sc, e) then HasKey(e.attributes, k) else None
  {
    TokenLookupUnder(GuardsOf(sc, e), e, k);
  }

  lemma {:induction false} EchoKeysOfToken(g: Guards, k: Key)
    requires k in TOKEN_ECHO_KEYS && k !in PromptEchoKeys(g)
    ensures k in EchoKeys(g) <==> g.tokens
  {}

  lemma {:induction false} PromptKeepsNoToken(sc: Scanner, e: Event, k: Key)
    requires k in TOKEN_ECHO_KEYS
    ensures k !in PromptEchoKeys(GuardsOf(sc, e))
  {}

  lemma {:induction false} EchoLookupsOfThin(sc: Scanner, e: Event, k: Key)
    requires k in TOKEN_ECHO_KEYS
    ensures At(ObjectAt(Thin(sc, e).extensions, EventEcho), k)
            == if HasTokenSignal(sc, e) || IsMcpConnection(e) then At(ObjectAt(e.extensions, EventEcho), k) else None
  {
    EchoOfThin(sc, e, k);
    PromptKeepsNoToken(sc, e, k);
    EchoKeysOfToken(GuardsOf(sc, e), k);
  }

  /** One event's request tokens on its thin copy: input and cached input as they were. */
  lemma {:induction false} RequestTokensOfThin(sc: Scanner, e: Event)
    ensures RequestContext(sc, Thin(sc, e))
            == TokenContext(RequestContext(sc, e).input, ThinOutput(sc)(e),
                            RequestContext(sc, e).cachedInput, ThinCacheCreated(sc)(e))
    ensures !Kept(sc, e) ==> RequestContext(sc, Thin(sc, e)) == NO_TOKENS
  {
    var t := Thin(sc, e);
    TokenLookupsOfThin(sc, e, InputTokenCount);
    TokenLookupsOfThin(sc, e, OutputTokenCount);
    TokenLookupsOfThin(sc, e, CachedInputTokens);
    TokenLookupsOfThin(sc, e, CachedInputTokenCount);
    EchoLookupsOfThin(sc, e, InputTokens);
    EchoLookupsOfThin(sc, e, OutputTokens);
    EchoLookupsOfThin(sc, e, CacheReadTokens);
    EchoLookupsOfThin(sc, e, CacheCreationTokens);
    TokensFromLookups(sc, e, t);
  }

  lemma {:induction false} TokensFromLookups(sc: Scanner, e: Event, t: Event)
    requires forall k :: k in TOKEN_KEYS ==>
               HasKey(t.attributes, k) == if HasTokenSignal(sc, e) then HasKey(e.attributes, k) else None
    requires forall k :: k in TOKEN_ECHO_KEYS ==>
               At(ObjectAt(t.extensions, EventEcho), k)
               == if HasTokenSignal(sc, e) || IsMcpConnection(e) then At(ObjectAt(e.extensions, EventEcho), k) else None
    ensures RequestContext(sc, t)
            == TokenContext(RequestContext(sc, e).input, ThinOutput(sc)(e),
                            RequestContext(sc, e).cachedInput, ThinCacheCreated(sc)(e))
    ensures !HasTokenSignal(sc, e) && !IsMcpConnection(e) ==> RequestContext(sc, t) == NO_TOKENS
  {
    assert InputTokenCount in TOKEN_KEYS && OutputTokenCount in TOKEN_KEYS;
    assert CachedInputTokens in TOKEN_KEYS && CachedInputTokenCount in TOKEN_KEYS;
    assert InputTokens in TOKEN_ECHO_KEYS && OutputTokens in TOKEN_ECHO_KEYS;
    assert CacheReadTokens in TOKEN_ECHO_KEYS && CacheCreationTokens in TOKEN_ECHO_KEYS;
  }

  // ---- the sums of one column -------------------------------------------------

  /** A column of session `s`: the sum of the counts present, none when none is. */
  function Column(f: Event -> Option<int>, events: seq<Event>, s: string): Option<int> {
    if events == [] then None
    else
      var before, last := Column(f, events[..|events| - 1], s), events[|events| - 1];
      if last.env.sessionId == s then AddOptional(before, f(last)) else before
  }

  ghost predicate Present(f: Event -> Option<int>, events: seq<Event>, s: string) {
    exists e :: e in events && e.env.sessionId == s && f(e).Some?
  }

  function Amount(count: Option<int>): int {
    if count.Some? then count.value else 0
  }

  /** What session `s` loses when `g` is read for `f`. */
  function Lost(f: Event -> Option<int>, g: Event -> Option<int>, events: seq<Event>, s: string): int {
    if events == [] then 0
    else
      var last := events[|events| - 1];
      Lost(f, g, events[..|events| - 1], s)
      + if last.env.sessionId == s then Amount(f(last)) - Amount(g(last)) else 0
  }

  lemma {:induction false} ColumnIsPresent(f: Event -> Option<int>, events: seq<Event>, s: string)
    ensures Column(f, events, s).Some? <==> Present(f, events, s)
  {
    if events != [] {
      var prefix, last := events[..|events| - 1], events[|events| - 1];
      ColumnIsPresent(f, prefix, s);
      assert forall e :: e in events <==> e in prefix || e == last;
    }
  }

  lemma {:induction false} LostIsDifference(f: Event -> Option<int>, g: Event -> Option<int>, events: seq<Event>, s: string)
    ensures Lost(f, g, events, s) == Amount(Column(f, events, s)) - Amount(Column(g, events, s))
  {
    if events != [] {
      LostIsDifference(f, g, events[..|events| - 1], s);
    }
  }

  /** The session loses nothing that shows: the counts lost sum to zero, and some count
      survives if any was there. */
  ghost predicate ShowsNoLoss(f: Event -> Option<int>, g: Event -> Option<int>, events: seq<Event>, s: string) {
    (Present(f, events, s) <==> Present(g, events, s)) && Lost(f, g, events, s) == 0
  }

  lemma {:induction false} ColumnsAgree(f: Event -> Option<int>, g: Event -> Option<int>, events: seq<Event>, s: string)
    ensures Column(g, events, s) == Column(f, events, s) <==> ShowsNoLoss(f, g, events, s)
  {
    ColumnIsPresent(f, events, s);
    ColumnIsPresent(g, events, s);
    LostIsDifference(f, g, events, s);
  }

  lemma {:induction false} ContextColumns(sc: Scanner, events: seq<Event>, s: string)
    ensures SessionContext(sc, events, s).output == Column(OutputOf(sc), events, s)
    ensures SessionContext(sc, events, s).cacheCreated == Column(CacheCreatedOf(sc), events, s)
  {
    if events != [] {
      ContextColumns(sc, events[..|events| - 1], s);
    }
  }

  // ---- the index --------------------------------------------------------------

  lemma {:induction false} KeptTokens(sc: Scanner, events: seq<Event>, s: string)
    ensures var full, thin := SessionContext(sc, events, s), SessionContext(sc, FilterMap(Keep(sc), events), s);
            && thin.input == full.input && thin.cachedInput == full.cachedInput
            && thin.output == Column(ThinOutput(sc), events, s)
            && thin.cacheCreated == Column(ThinCacheCreated(sc), events, s)
  {
    if events != [] {
      var prefix, last := events[..|events| - 1], events[|events| - 1];
      KeptTokens(sc, prefix, s);
      KeptTokensStep(sc, FilterMap(Keep(sc), prefix), last, s);
      RequestTokensOfThin(sc, last);
    }
  }

  lemma {:induction false} KeptTokensStep(sc: Scanner, before: seq<Event>, e: Event, s: string)
    ensures SessionContext(sc, before + (if Kept(sc, e) then [Thin(sc, e)] else []), s)
            == if e.env.sessionId == s then Merge(SessionContext(sc, before, s), RequestContext(sc, Thin(sc, e)))
               else SessionContext(sc, before, s)
  {
    RequestTokensOfThin(sc, e);
    var t := Thin(sc, e);
    assert (before + [t])[..|before|] == before;
    assert before + [] == before;
    assert Merge(SessionContext(sc, before, s), NO_TOKENS) == SessionContext(sc, before, s);
    assert t.env.sessionId == e.env.sessionId;
  }

  lemma {:induction false} SilentTokens(sc: Scanner, events: seq<Event>, s: string)
    requires forall e :: e in events ==> RequestContext(sc, e) == NO_TOKENS
    ensures SessionContext(sc, events, s) == NO_TOKENS
  {
    if events != [] {
      SilentTokens(sc, events[..|events| - 1], s);
    }
  }

  lemma {:induction false} MarkerHasNoTokens(sc: Scanner, first: Envelope, surface: string, state: Detection)
    requires '\0' in surface
    ensures RequestContext(sc, CoverageEvent(first, surface, state)) == NO_TOKENS
  {}

  lemma {:induction false} MarkersHaveNoTokens(sc: Scanner, first: Envelope, rows: map<string, CoverageRow>, order: seq<string>, s: string)
    requires Visits(rows, order)
    ensures SessionContext(sc, CoverageEvents(first, rows, order), s) == NO_TOKENS
  {
    var coverage := CoverageEvents(first, rows, order);
    forall e | e in coverage ensures RequestContext(sc, e) == NO_TOKENS {
      var i :| 0 <= i < |coverage| && coverage[i] == e;
      MarkerHasNoTokens(sc, first, order[i], rows[order[i]].state);
    }
    SilentTokens(sc, coverage, s);
  }

  /** The request token columns of a session on the index: input and cached input are
      those of the events, output and cache creation exactly when no loss shows. */
  lemma {:induction false} McpTokensAgree(sc: Scanner, events: seq<Event>, index: seq<Event>, s: string)
    requires IsThinIndex(sc, events, index)
    ensures var full, thin := SessionContext(sc, events, s), SessionContext(sc, index, s);
            && thin.input == full.input && thin.cachedInput == full.cachedInput
            && (thin.output == full.output <==> ShowsNoLoss(OutputOf(sc), ThinOutput(sc), events, s))
            && (thin.cacheCreated == full.cacheCreated
                <==> ShowsNoLoss(CacheCreatedOf(sc), ThinCacheCreated(sc), events, s))
  {
    ContextColumns(sc, events, s);
    ColumnsAgree(OutputOf(sc), ThinOutput(sc), events, s);
    ColumnsAgree(CacheCreatedOf(sc), ThinCacheCreated(sc), events, s);
    if events != [] {
      var first, rows := events[0].env, CoverageRows(events);
      var order :| Visits(rows, order) && index == FilterMap(Keep(sc), events) + CoverageEvents(first, rows, order);
      MarkersHaveNoTokens(sc, first, rows, order, s);
      SessionContextConcat(sc, FilterMap(Keep(sc), events), CoverageEvents(first, rows, order), s);
      KeptTokens(sc, events, s);
    }
  }

  // ---- events whose tokens are lost -------------------------------------------

  /** An event that carries an output token count and nothing else. */
  predicate OutputOnly(e: Event) {
    && e.env.provider == "openai" && e.env.eventType == "codex.sse_event"
    && e.attributes == map[OutputTokenCount := JInt(7)] && e.extensions == map[]
  }

  /** An event that echoes a cache creation count and nothing else. */
  predicate CacheCreationOnly(e: Event) {
    && e.env.provider == "anthropic" && e.env.eventType == "api_request"
    && e.attributes == map[] && e.extensions == map[EventEcho := JObj(map[CacheCreationTokens := JInt(5)])]
  }

  lemma {:induction false} OutputOnlyIsDropped(sc: Scanner, e: Event)
    requires OutputOnly(e)
    ensures !Kept(sc, e) && RequestContext(sc, e).output == Some(7)
  {}

  lemma {:induction false} CacheCreationOnlyIsDropped(sc: Scanner, e: Event)
    requires CacheCreationOnly(e)
    ensures !Kept(sc, e) && RequestContext(sc, e).cacheCreated == Some(5)
  {}

  /** This event's 7 output tokens are not on the index. */
  lemma {:induction false} OutputOnlyIsLost(sc: Scanner, e: Event, index: seq<Event>)
    requires OutputOnly(e) && IsThinIndex(sc, [e], index)
    ensures SessionContext(sc, [e], e.env.sessionId).output == Some(7)
    ensures SessionContext(sc, index, e.env.sessionId).output == None
  {
    OutputOnlyIsDropped(sc, e);
    SessionContextOfOne(sc, e);
    NothingIsLeft(sc, [e], index, e.env.sessionId);
  }

  /** Nor are this event's 5 cache creation tokens. */
  lemma {:induction false} CacheCreationIsLost(sc: Scanner, e: Event, index: seq<Event>)
    requires CacheCreationOnly(e) && IsThinIndex(sc, [e], index)
    ensures SessionContext(sc, [e], e.env.sessionId).cacheCreated == Some(5)
    ensures SessionContext(sc, index, e.env.sessionId).cacheCreated == None
  {
    CacheCreationOnlyIsDropped(sc, e);
    SessionContextOfOne(sc, e);
    NothingIsLeft(sc, [e], index, e.env.sessionId);
  }

  lemma {:induction false} NothingIsLeft(sc: Scanner, events: seq<Event>, index: seq<Event>, s: string)
    requires forall e :: e in events ==> !Kept(sc, e)
    requires IsThinIndex(sc, events, index)
    ensures SessionContext(sc, index, s) == NO_TOKENS
  {
    forall x | x in index ensures RequestContext(sc, x) == NO_TOKENS {
      IndexOfDropped(sc, events, index, x);
    }
    SilentTokens(sc, index, s);
  }

  /** Nothing but coverage events is left of events no engine reads. */
  lemma {:induction false} IndexOfDropped(sc: Scanner, events: seq<Event>, index: seq<Event>, x: Event)
    requires forall e :: e in events ==> !Kept(sc, e)
    requires IsThinIndex(sc, events, index) && x in index
    ensures RequestContext(sc, x) == NO_TOKENS
  {
    IndexMembers(sc, events, index, x);
    var surface :| IsMarker(events, surface, x);
    MarkerHasNoTokens(sc, events[0].env, surface, CoverageRows(events)[surface].state);
  }

  lemma {:induction false} SessionContextOfOne(sc: Scanner, e: Event)
    ensures SessionContext(sc, [e], e.env.sessionId) == Merge(NO_TOKENS, RequestContext(sc, e))
  {
    assert [e][..0] == [];
  }
}

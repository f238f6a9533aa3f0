/** The thin insight index against the full event list: SourceEventsFromSession
    (internal/insights/source_events.go) keeps enough for every insight engine. */
module ThinIndex {
  import opened Prelude
  import opened Canonical
  import opened Signals
  import opened ThinEvent
  import opened SkillUsage
  import ContextWaste
  import GovernanceStates
  import opened McpInventory
  import ModelPerformance

  // ---- the index --------------------------------------------------------------

  function Keep(sc: Scanner): Event -> Option<Event> {
    (e: Event) => if Kept(sc, e) then Some(Thin(sc, e)) else None
  }

  /** strings.Cut(surface, "\x00") */
  function Cut(s: string): (r: (string, string))
    requires '\0' in s
    ensures '\0' !in r.0 && s == r.0 + ['\0'] + r.1
  {
    if s[0] == '\0' then ("", s[1..])
    else
      var rest := Cut(s[1..]);
      assert s == [s[0]] + s[1..];
      ([s[0]] + rest.0, rest.1)
  }

  /** The synthetic event that records a surface's strongest detection state. */
  function CoverageEvent(first: Envelope, surface: string, state: Detection): Event
    requires '\0' in surface
  {
    var (provider, tool) := Cut(surface);
    Event(Envelope(first.schemaVersion, "skill-coverage:" + first.sessionId + ":" + provider + ":" + tool,
                   "skill_coverage", first.occurredAt, first.receivedAt, provider, tool, "", "", "", "",
                   first.sessionId, None, None, first.privacyLevel),
          map[], map[SkillDetection := JStr(DetectionName(state))])
  }

  /** One coverage event per surface, in the order the map was visited. */
  function CoverageEvents(first: Envelope, rows: map<string, CoverageRow>, order: seq<string>): (r: seq<Event>)
    requires forall s :: s in order ==> s in rows && '\0' in s
    ensures |r| == |order|
    ensures forall i :: 0 <= i < |r| ==> r[i] == CoverageEvent(first, order[i], rows[order[i]].state)
  {
    seq(|order|, i requires 0 <= i < |order| => CoverageEvent(first, order[i], rows[order[i]].state))
  }

  /** `order` visits every surface of `rows` (a Go map visits each once, in any order). */
  ghost predicate Visits(rows: map<string, CoverageRow>, order: seq<string>) {
    && (forall s :: s in order <==> s in rows)
    && (forall s :: s in order ==> '\0' in s)
    && NoRepeats(order)
  }

  /** `index` is what SourceEventsFromSession may return for `events`. */
  ghost predicate IsThinIndex(sc: Scanner, events: seq<Event>, index: seq<Event>) {
    if events == [] then index == []
    else exists order: seq<string> ::
           Visits(CoverageRows(events), order)
           && index == FilterMap(Keep(sc), events) + CoverageEvents(events[0].env, CoverageRows(events), order)
  }

  // ---- kept events agree, dropped events are no-ops, coverage is absorbed ------

  lemma {:induction false} Absorbed<S>(sc: Scanner, f: Event -> Option<S>, events: seq<Event>)
    requires forall e :: Kept(sc, e) ==> f(Thin(sc, e)) == f(e)
    requires forall e :: !Kept(sc, e) ==> f(e) == None
    ensures FilterMap(f, FilterMap(Keep(sc), events)) == FilterMap(f, events)
  {
    if events != [] {
      var last := |events| - 1;
      Absorbed(sc, f, events[..last]);
      var before := FilterMap(Keep(sc), events[..last]);
      if Kept(sc, events[last]) {
        assert (before + [Thin(sc, events[last])])[..|before|] == before;
      }
    }
  }

  lemma {:induction false} IndexAbsorbed<S>(sc: Scanner, f: Event -> Option<S>, events: seq<Event>, index: seq<Event>)
    requires IsThinIndex(sc, events, index)
    requires forall e :: Kept(sc, e) ==> f(Thin(sc, e)) == f(e)
    requires forall e :: !Kept(sc, e) ==> f(e) == None
    requires forall first: Envelope, surface: string, state: Detection | '\0' in surface ::
               f(CoverageEvent(first, surface, state)) == None
    ensures FilterMap(f, index) == FilterMap(f, events)
  {
    if events != [] {
      var first, rows := events[0].env, CoverageRows(events);
      var order :| Visits(rows, order) && index == FilterMap(Keep(sc), events) + CoverageEvents(first, rows, order);
      Absorbed(sc, f, events);
      MarkersAdded(f, FilterMap(Keep(sc), events), first, rows, order);
    }
  }

  lemma {:induction false} MarkersAdded<S>(
      f: Event -> Option<S>, kept: seq<Event>, first: Envelope, rows: map<string, CoverageRow>, order: seq<string>)
    requires Visits(rows, order)
    requires forall i :: 0 <= i < |order| ==> f(CoverageEvent(first, order[i], rows[order[i]].state)) == None
    ensures FilterMap(f, kept + CoverageEvents(first, rows, order)) == FilterMap(f, kept)
  {
    FilterMapConcat(f, kept, CoverageEvents(first, rows, order));
    MarkersAreSilent(f, first, rows, order);
    Regroup(FilterMap(f, kept), [], []);
  }

  /** Where the markers of coverage say nothing, nothing is read off them. */
  lemma {:induction false} MarkersAreSilent<S>(
      f: Event -> Option<S>, first: Envelope, rows: map<string, CoverageRow>, order: seq<string>)
    requires Visits(rows, order)
    requires forall i :: 0 <= i < |order| ==> f(CoverageEvent(first, order[i], rows[order[i]].state)) == None
    ensures FilterMap(f, CoverageEvents(first, rows, order)) == []
  {
    FilterMapNone(f, CoverageEvents(first, rows, order));
  }

  /** No engine but skill coverage reads anything from an event of this shape. */
  lemma {:induction false} MarkerIsSilent(sc: Scanner, c: Event)
    requires c.env.eventType == "skill_coverage" && c.attributes == map[] && c.extensions.Keys == {SkillDetection}
    ensures SkillInvocation(c) == None && TokenPointOf(sc, c) == None && McpSignalOf(c) == None
    ensures OutcomeOf(c) == None && MetricOf(c) == None && GovernanceSignalOf(c) == None
  {
    assert forall k :: HasKey(c.attributes, k) == None;
    assert ObjectAt(c.extensions, EventEcho) == None && ObjectAt(c.extensions, McpCall) == None;
    assert ObjectAt(c.extensions, Skill) == None && ObjectAt(c.extensions, OutcomeContract) == None;
    assert !IsMcpConnection(c) && McpUseOf(c) == None;
  }

  lemma {:induction false} CoverageIsSilent(sc: Scanner, first: Envelope, surface: string, state: Detection)
    requires '\0' in surface
    ensures var c := CoverageEvent(first, surface, state);
            && SkillInvocation(c) == None && TokenPointOf(sc, c) == None && McpSignalOf(c) == None
            && OutcomeOf(c) == None && MetricOf(c) == None && GovernanceSignalOf(c) == None
  {
    MarkerIsSilent(sc, CoverageEvent(first, surface, state));
  }

  lemma {:induction false} DroppedIsSilent(sc: Scanner, e: Event)
    requires !Kept(sc, e)
    ensures SkillInvocation(e) == None && TokenPointOf(sc, e) == None && McpSignalOf(e) == None
    ensures OutcomeOf(e) == None && MetricOf(e) == None && GovernanceSignalOf(e) == None
    ensures SkillPolicyOf(e) == None
  {}

  /** Every per-event reader yields the same list on the index as on the events. */
  lemma {:induction false} IndexKeepsSignals(sc: Scanner, events: seq<Event>, index: seq<Event>)
    requires IsThinIndex(sc, events, index)
    ensures FilterMap(SkillInvocation, index) == FilterMap(SkillInvocation, events)
    ensures FilterMap(ContextWaste.PointReader(sc), index) == FilterMap(ContextWaste.PointReader(sc), events)
    ensures FilterMap(McpSignalOf, index) == FilterMap(McpSignalOf, events)
    ensures FilterMap(OutcomeOf, index) == FilterMap(OutcomeOf, events)
    ensures FilterMap(GovernanceSignalOf, index) == FilterMap(GovernanceSignalOf, events)
  {
    IndexReadable(sc);
    IndexAbsorbed(sc, SkillInvocation, events, index);
    IndexAbsorbed(sc, ContextWaste.PointReader(sc), events, index);
    IndexAbsorbed(sc, McpSignalOf, events, index);
    IndexAbsorbed(sc, OutcomeOf, events, index);
    IndexAbsorbed(sc, GovernanceSignalOf, events, index);
  }

  lemma {:induction false} IndexReadable(sc: Scanner)
    ensures forall e :: SkillInvocation(Thin(sc, e)) == SkillInvocation(e)
    ensures forall e :: TokenPointOf(sc, Thin(sc, e)) == TokenPointOf(sc, e)
    ensures forall e :: McpSignalOf(Thin(sc, e)) == McpSignalOf(e)
    ensures forall e :: OutcomeOf(Thin(sc, e)) == OutcomeOf(e)
    ensures forall e :: GovernanceSignalOf(Thin(sc, e)) == GovernanceSignalOf(e)
    ensures forall e :: !Kept(sc, e) ==>
              SkillInvocation(e) == None && TokenPointOf(sc, e) == None && McpSignalOf(e) == None
              && OutcomeOf(e) == None && GovernanceSignalOf(e) == None
    ensures forall first: Envelope, surface: string, state: Detection | '\0' in surface ::
              var c := CoverageEvent(first, surface, state);
              SkillInvocation(c) == None && TokenPointOf(sc, c) == None && McpSignalOf(c) == None
              && OutcomeOf(c) == None && GovernanceSignalOf(c) == None
  {
    forall e
      ensures SkillInvocation(Thin(sc, e)) == SkillInvocation(e)
      ensures TokenPointOf(sc, Thin(sc, e)) == TokenPointOf(sc, e)
      ensures McpSignalOf(Thin(sc, e)) == McpSignalOf(e)
      ensures OutcomeOf(Thin(sc, e)) == OutcomeOf(e)
      ensures GovernanceSignalOf(Thin(sc, e)) == GovernanceSignalOf(e)
    {
      ThinKeepsSkill(sc, e);
      ThinKeepsTokens(sc, e);
      ThinKeepsMcp(sc, e);
      ThinKeepsOutcome(sc, e);
      ThinKeepsGovernance(sc, e);
    }
    forall e | !Kept(sc, e)
      ensures SkillInvocation(e) == None && TokenPointOf(sc, e) == None && McpSignalOf(e) == None
      ensures OutcomeOf(e) == None && GovernanceSignalOf(e) == None
    {
      DroppedIsSilent(sc, e);
    }
    forall first: Envelope, surface: string, state: Detection | '\0' in surface
      ensures var c := CoverageEvent(first, surface, state);
              SkillInvocation(c) == None && TokenPointOf(sc, c) == None && McpSignalOf(c) == None
              && OutcomeOf(c) == None && GovernanceSignalOf(c) == None
    {
      CoverageIsSilent(sc, first, surface, state);
    }
  }

  // ---- engine by engine -------------------------------------------------------

  /** The context-waste reports possible on the index are those possible on the events; so
      any two are the same list where each session's earliest input counts agree. */
  lemma {:induction false} ContextWasteAgrees(
      sc: Scanner, events: seq<Event>, index: seq<Event>, th: ContextWaste.Thresholds,
      full: seq<ContextWaste.WasteRow>, thin: seq<ContextWaste.WasteRow>)
    requires IsThinIndex(sc, events, index)
    requires ContextWaste.IsReport(FilterMap(ContextWaste.PointReader(sc), events), th, full)
    requires ContextWaste.IsReport(FilterMap(ContextWaste.PointReader(sc), index), th, thin)
    ensures ContextWaste.IsReport(FilterMap(ContextWaste.PointReader(sc), events), th, thin)
    ensures ContextWaste.IsReport(FilterMap(ContextWaste.PointReader(sc), index), th, full)
    ensures ContextWaste.AllOneFirst(FilterMap(ContextWaste.PointReader(sc), events)) ==> thin == full
  {
    IndexKeepsSignals(sc, events, index);
    ContextWaste.WasteIsDetermined(FilterMap(ContextWaste.PointReader(sc), events), th);
  }

  lemma {:induction false} ModelPerformanceAgrees(sc: Scanner, dims: Object -> string, events: seq<Event>, index: seq<Event>)
    requires IsThinIndex(sc, events, index)
    ensures ModelPerformance.Cards(sc, FilterMap(OutcomeOf, index))
         == ModelPerformance.Cards(sc, FilterMap(OutcomeOf, events))
    ensures ModelPerformance.MetricRows(FilterMap(ModelPerformance.MetricReader(sc, dims), index))
         == ModelPerformance.MetricRows(FilterMap(ModelPerformance.MetricReader(sc, dims), events))
  {
    IndexKeepsSignals(sc, events, index);
    var reader := ModelPerformance.MetricReader(sc, dims);
    forall e ensures reader(Thin(sc, e)) == reader(e) && (!Kept(sc, e) ==> reader(e) == None) {
      ThinKeepsMetric(sc, e);
      if !Kept(sc, e) {
        DroppedIsSilent(sc, e);
      }
    }
    forall first: Envelope, surface: string, state: Detection | '\0' in surface
      ensures reader(CoverageEvent(first, surface, state)) == None
    {
      CoverageIsSilent(sc, first, surface, state);
    }
    IndexAbsorbed(sc, reader, events, index);
  }

  /** Whatever order the maps are visited in, the governance report is the same list. */
  lemma {:induction false} GovernanceStatesAgree(
      sc: Scanner, events: seq<Event>, index: seq<Event>,
      full: seq<GovernanceState>, thin: seq<GovernanceState>)
    requires IsThinIndex(sc, events, index)
    requires GovernanceStates.IsReport(events, full) && GovernanceStates.IsReport(index, thin)
    ensures thin == full
  {
    IndexKeepsSignals(sc, events, index);
    GovernanceStates.ReportIsDetermined(events, full, thin);
  }

  /** `x` is the coverage event of surface `s`. */
  ghost predicate IsMarker(events: seq<Event>, s: string, x: Event)
    requires events != []
  {
    && s in CoverageRows(events) && '\0' in s
    && x == CoverageEvent(events[0].env, s, CoverageRows(events)[s].state)
  }

  /** The members of the index: thin copies of the events, and coverage markers. */
  lemma {:induction false} IndexMembers(sc: Scanner, events: seq<Event>, index: seq<Event>, x: Event)
    requires IsThinIndex(sc, events, index)
    ensures x in index ==>
              || (exists e :: e in events && Kept(sc, e) && x == Thin(sc, e))
              || (events != [] && exists s :: IsMarker(events, s, x))
    ensures forall e :: e in events && Kept(sc, e) ==> Thin(sc, e) in index
    ensures events != [] ==> forall s :: s in CoverageRows(events) ==>
              '\0' in s && CoverageEvent(events[0].env, s, CoverageRows(events)[s].state) in index
  {
    if events != [] {
      var order :| Visits(CoverageRows(events), order)
        && index == FilterMap(Keep(sc), events) + CoverageEvents(events[0].env, CoverageRows(events), order);
      KeptMembers(sc, events, x);
      MarkerMembers(events, order, x);
    }
  }

  lemma {:induction false} KeptMembers(sc: Scanner, events: seq<Event>, x: Event)
    ensures x in FilterMap(Keep(sc), events) ==> exists e :: e in events && Kept(sc, e) && x == Thin(sc, e)
    ensures forall e :: e in events && Kept(sc, e) ==> Thin(sc, e) in FilterMap(Keep(sc), events)
  {
    FilterMapMember(Keep(sc), events, x);
    forall e | e in events && Kept(sc, e) ensures Thin(sc, e) in FilterMap(Keep(sc), events) {
      FilterMapMember(Keep(sc), events, Thin(sc, e));
      assert Keep(sc)(e) == Some(Thin(sc, e));
    }
  }

  lemma {:induction false} MarkerMembers(events: seq<Event>, order: seq<string>, x: Event)
    requires events != [] && Visits(CoverageRows(events), order)
    ensures var coverage := CoverageEvents(events[0].env, CoverageRows(events), order);
            && (x in coverage ==> exists s :: IsMarker(events, s, x))
            && forall s :: s in CoverageRows(events) ==>
                 '\0' in s && CoverageEvent(events[0].env, s, CoverageRows(events)[s].state) in coverage
  {
    var coverage := CoverageEvents(events[0].env, CoverageRows(events), order);
    forall s | s in CoverageRows(events)
      ensures '\0' in s && CoverageEvent(events[0].env, s, CoverageRows(events)[s].state) in coverage
    {
      var i :| 0 <= i < |order| && order[i] == s;
      assert coverage[i] in coverage;
    }
    if x in coverage {
      var i :| 0 <= i < |coverage| && coverage[i] == x;
      assert IsMarker(events, order[i], x);
    }
  }

  lemma {:induction false} CoverageEventState(first: Envelope, surface: string, state: Detection)
    requires '\0' in surface
    ensures DetectionState(CoverageEvent(first, surface, state)) == state
    ensures Surface(CoverageEvent(first, surface, state)) == surface
    ensures '\0' !in CoverageEvent(first, surface, state).env.provider
  {
    ParseDetectionName(state);
  }

  ghost predicate NulFreeProviders(events: seq<Event>) {
    forall e :: e in events ==> '\0' !in e.env.provider
  }

  /** An index event stands for an original one of the same surface that is no weaker. */
  lemma {:induction false} IndexIsNoStronger(sc: Scanner, events: seq<Event>, index: seq<Event>, x: Event)
    requires IsThinIndex(sc, events, index) && x in index
    ensures exists e :: e in events && Surface(e) == Surface(x) && DetectionState(e) == DetectionState(x)
    ensures NulFreeProviders(events) ==> '\0' !in x.env.provider
  {
    IndexMembers(sc, events, index, x);
    if e :| e in events && Kept(sc, e) && x == Thin(sc, e) {
      ThinKeepsSkill(sc, e);
      assert Surface(x) == Surface(e);
    } else {
      CoverageIsStrongest(events);
      var s :| IsMarker(events, s, x);
      CoverageEventState(events[0].env, s, CoverageRows(events)[s].state);
      assert Strongest(events, s, CoverageRows(events)[s]);
    }
  }

  /** The strongest row of a surface is the same on the index. */
  lemma {:induction false} StrongestAgrees(
      sc: Scanner, events: seq<Event>, index: seq<Event>, s: string,
      full: CoverageRow, thin: CoverageRow, marker: Event)
    requires IsThinIndex(sc, events, index)
    requires Strongest(events, s, full) && Strongest(index, s, thin)
    requires marker in index && Surface(marker) == s && DetectionState(marker) == full.state
    ensures thin.state == full.state
    ensures NulFreeProviders(events) ==> thin == full
  {
    var x :| x in index && Surface(x) == s && RowOf(x) == thin;
    IndexIsNoStronger(sc, events, index, x);
    StrongestMeets(events, index, s, full, thin, marker, x);
  }

  lemma {:induction false} StrongestMeets(
      events: seq<Event>, index: seq<Event>, s: string,
      full: CoverageRow, thin: CoverageRow, marker: Event, x: Event)
    requires Strongest(events, s, full) && Strongest(index, s, thin)
    requires marker in index && Surface(marker) == s && DetectionState(marker) == full.state
    requires Surface(x) == s && RowOf(x) == thin
    requires exists e :: e in events && Surface(e) == s && DetectionState(e) == thin.state
    requires NulFreeProviders(events) ==> '\0' !in x.env.provider
    ensures thin.state == full.state
    ensures NulFreeProviders(events) ==> thin == full
  {
    var e :| e in events && Surface(e) == s && DetectionState(e) == thin.state;
    assert Rank(thin.state) <= Rank(full.state);
    assert Rank(full.state) <= Rank(thin.state);
    var source :| source in events && Surface(source) == s && RowOf(source) == full;
    if NulFreeProviders(events) {
      JoinSplits('\0', source.env.provider, source.env.tool, x.env.provider, x.env.tool);
    }
  }

  lemma {:induction false} CoverageOfSurface(sc: Scanner, events: seq<Event>, index: seq<Event>, s: string)
    requires IsThinIndex(sc, events, index) && s in CoverageRows(events)
    ensures s in CoverageRows(index) && CoverageRows(index)[s].state == CoverageRows(events)[s].state
    ensures NulFreeProviders(events) ==> CoverageRows(index)[s] == CoverageRows(events)[s]
  {
    var full := CoverageRows(events)[s];
    var marker := CoverageEvent(events[0].env, s, full.state);
    IndexMembers(sc, events, index, marker);
    CoverageEventState(events[0].env, s, full.state);
    CoverageOf(events, s);
    CoverageOf(index, s);
    StrongestAgrees(sc, events, index, s, full, CoverageRows(index)[s], marker);
  }

  lemma {:induction false} CoverageOf(events: seq<Event>, s: string)
    ensures s in CoverageRows(events) <==> exists e :: e in events && Surface(e) == s
    ensures s in CoverageRows(events) ==> Strongest(events, s, CoverageRows(events)[s])
  {
    CoverageIsStrongest(events);
  }

  /** Skill usage: the invocation counts always agree, and the coverage rows agree
      when no provider name contains the separator the surface key is joined with. */
  lemma {:induction false} SkillUsageAgrees(sc: Scanner, events: seq<Event>, index: seq<Event>)
    requires IsThinIndex(sc, events, index)
    ensures Tally(FilterMap(SkillInvocation, index)) == Tally(FilterMap(SkillInvocation, events))
    ensures CoverageRows(index).Keys == CoverageRows(events).Keys
    ensures forall s :: s in CoverageRows(events) ==> CoverageRows(index)[s].state == CoverageRows(events)[s].state
    ensures NulFreeProviders(events) ==> CoverageRows(index) == CoverageRows(events)
  {
    IndexKeepsSignals(sc, events, index);
    CoverageRowsAgree(sc, events, index);
  }

  lemma {:induction false} CoverageRowsAgree(sc: Scanner, events: seq<Event>, index: seq<Event>)
    requires IsThinIndex(sc, events, index)
    ensures CoverageRows(index).Keys == CoverageRows(events).Keys
    ensures forall s :: s in CoverageRows(events) ==> CoverageRows(index)[s].state == CoverageRows(events)[s].state
    ensures NulFreeProviders(events) ==> CoverageRows(index) == CoverageRows(events)
  {
    forall s | s in CoverageRows(index) ensures s in CoverageRows(events) {
      IndexAddsNoSurface(sc, events, index, s);
    }
    forall s | s in CoverageRows(events)
      ensures s in CoverageRows(index) && CoverageRows(index)[s].state == CoverageRows(events)[s].state
      ensures NulFreeProviders(events) ==> CoverageRows(index)[s] == CoverageRows(events)[s]
    {
      CoverageOfSurface(sc, events, index, s);
    }
    assert forall s :: s in CoverageRows(index) <==> s in CoverageRows(events);
  }

  lemma {:induction false} IndexAddsNoSurface(sc: Scanner, events: seq<Event>, index: seq<Event>, s: string)
    requires IsThinIndex(sc, events, index) && s in CoverageRows(index)
    ensures s in CoverageRows(events)
  {
    CoverageOf(index, s);
    CoverageOf(events, s);
    var x :| x in index && Surface(x) == s;
    IndexIsNoStronger(sc, events, index, x);
  }

  // ---- MCP --------------------------------------------------------------------

  /** Every MCP column except the request token columns. */
  lemma {:induction false} McpInventoryAgrees(sc: Scanner, events: seq<Event>, index: seq<Event>)
    requires IsThinIndex(sc, events, index)
    ensures Rows(FilterMap(McpSignalOf, index)) == Rows(FilterMap(McpSignalOf, events))
  {
    IndexKeepsSignals(sc, events, index);
  }

  /** What a marker shows: the surface's provider and tool, the state by name, and the
      session, schema, privacy level and times of the first event. */
  lemma {:induction false} MarkerIsStated(first: Envelope, provider: string, tool: string, state: Detection)
    requires '\0' !in provider
    ensures '\0' in provider + ['\0'] + tool
    ensures var c := CoverageEvent(first, provider + ['\0'] + tool, state);
            && c.env.provider == provider && c.env.tool == tool && c.env.eventType == "skill_coverage"
            && c.env.eventId == "skill-coverage:" + first.sessionId + ":" + provider + ":" + tool
            && c.env.sessionId == first.sessionId && c.env.schemaVersion == first.schemaVersion
            && c.env.privacyLevel == first.privacyLevel
            && c.env.occurredAt == first.occurredAt && c.env.receivedAt == first.receivedAt
            && c.attributes == map[] && c.extensions.Keys == {SkillDetection}
            && (state == Explicit ==> c.extensions[SkillDetection] == JStr("explicit"))
            && (state == Inferred ==> c.extensions[SkillDetection] == JStr("inferred"))
            && (state == Unavailable ==> c.extensions[SkillDetection] == JStr("unavailable"))
            && (state == Unknown ==> c.extensions[SkillDetection] == JStr("unknown"))
  {
    var surface := provider + ['\0'] + tool;
    assert surface[|provider|] == '\0';
    var (p, t) := Cut(surface);
    JoinSplits('\0', p, t, provider, tool);
  }
}

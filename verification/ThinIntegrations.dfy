/** The integration report on the thin index: which states survive thinning, and exactly
    when the report is the same. */
module ThinIntegrations {
  import opened Prelude
  import opened Ordering
  import opened Canonical
  import opened Signals
  import opened LatestStates
  import opened ThinEvent
  import opened ThinIndex
  import opened SkillUsage
  import opened IntegrationStates

  /** An event whose integration state its thin copy keeps: attributes report it, or the
      MCP block is of a call the inventory counts. */
  predicate Survives(e: Event) {
    Reported(e).Some? || McpUseOf(e).Some?
  }

  function SurvivingOf(e: Event): Option<Integration> {
    if Survives(e) then IntegrationOf(e) else None
  }

  // ---- one event --------------------------------------------------------------

  lemma {:induction false} IntegrationLookup(sc: Scanner, e: Event, k: Key)
    requires k in INTEGRATION_KEYS
    ensures HasKey(Thin(sc, e).attributes, k) == if HasIntegration(e) then HasKey(e.attributes, k) else None
  {
    AttributeOfThin(sc, e, k);
    CarriedIntegration(GuardsOf(sc, e), k);
  }

  lemma {:induction false} CarriedIntegration(g: Guards, k: Key)
    requires k in INTEGRATION_KEYS
    ensures CarriedAttribute(g, k) == g.integration
  {}

  lemma {:induction false} ReportedSurvives(sc: Scanner, e: Event)
    ensures Reported(Thin(sc, e)) == Reported(e)
  {
    IntegrationLookup(sc, e, IntegrationKind);
    IntegrationLookup(sc, e, IntegrationName);
    IntegrationLookup(sc, e, Key.IntegrationState);
    ReportedAgrees(e, Thin(sc, e));
  }

  lemma {:induction false} ReportedAgrees(e: Event, t: Event)
    requires SameIdentity(e, t)
    requires forall k :: k in {IntegrationKind, IntegrationName, Key.IntegrationState} ==>
               HasKey(t.attributes, k) == if HasIntegration(e) then HasKey(e.attributes, k) else None
    ensures Reported(t) == Reported(e)
  {
    assert HasKey(t.attributes, IntegrationKind) == if HasIntegration(e) then HasKey(e.attributes, IntegrationKind) else None;
    assert HasKey(t.attributes, IntegrationName) == if HasIntegration(e) then HasKey(e.attributes, IntegrationName) else None;
    assert HasKey(t.attributes, Key.IntegrationState)
        == if HasIntegration(e) then HasKey(e.attributes, Key.IntegrationState) else None;
  }

  lemma {:induction false} ImpliedOfThin(sc: Scanner, e: Event)
    ensures Implied(Thin(sc, e)) == if McpUseOf(e).Some? then Implied(e) else None
  {
    ExtensionOfThin(sc, e, McpCall);
  }

  /** A thin copy has its event's integration state exactly if the state survives, and
      none otherwise; what is dropped from the index had none that survives. */
  lemma {:induction false} IntegrationOfThin(sc: Scanner, e: Event)
    ensures IntegrationOf(Thin(sc, e)) == SurvivingOf(e)
    ensures !Kept(sc, e) ==> SurvivingOf(e) == None
  {
    ReportedSurvives(sc, e);
    ImpliedOfThin(sc, e);
  }

  lemma {:induction false} MarkerHasNoIntegration(first: Envelope, surface: string, state: Detection)
    requires '\0' in surface
    ensures IntegrationOf(CoverageEvent(first, surface, state)) == None
  {
    var c := CoverageEvent(first, surface, state);
    assert c.attributes == map[] && ObjectAt(c.extensions, McpCall) == None;
  }

  // ---- the index --------------------------------------------------------------

  lemma {:induction false} KeptIntegrations(sc: Scanner, events: seq<Event>)
    ensures StatesOf(FilterMap(Keep(sc), events)) == FilterMap(SurvivingOf, events)
  {
    if events != [] {
      var front, last := events[..|events| - 1], events[|events| - 1];
      KeptIntegrations(sc, front);
      IntegrationOfThin(sc, last);
      var before := FilterMap(Keep(sc), front);
      if Kept(sc, last) {
        assert (before + [Thin(sc, last)])[..|before|] == before;
      }
    }
  }

  /** The states on the index are the events' that survive, in order. */
  lemma {:induction false} IndexStates(sc: Scanner, events: seq<Event>, index: seq<Event>)
    requires IsThinIndex(sc, events, index)
    ensures StatesOf(index) == FilterMap(SurvivingOf, events)
  {
    if events != [] {
      var first, rows := events[0].env, CoverageRows(events);
      var order :| Visits(rows, order) && index == FilterMap(Keep(sc), events) + CoverageEvents(first, rows, order);
      forall i | 0 <= i < |order| ensures IntegrationOf(CoverageEvent(first, order[i], rows[order[i]].state)) == None {
        MarkerHasNoIntegration(first, order[i], rows[order[i]].state);
      }
      KeptIntegrations(sc, events);
      MarkersAdded(IntegrationOf, FilterMap(Keep(sc), events), first, rows, order);
    }
  }

  // ---- the report -------------------------------------------------------------

  /** Some surviving event reports the same key no earlier than `e` does. */
  predicate Outlived(events: seq<Event>, e: Event)
    requires IntegrationOf(e).Some?
  {
    exists x :: x in events && SurvivingOf(x).Some? && KeyOf(SurvivingOf(x).value) == KeyOf(IntegrationOf(e).value)
                && !Before(StampOf(SurvivingOf(x).value), StampOf(IntegrationOf(e).value))
  }

  /** Every state thinning loses is outlived by one that survives. */
  predicate LossesAreOutlived(events: seq<Event>) {
    forall e :: e in events && IntegrationOf(e).Some? && !Survives(e) ==> Outlived(events, e)
  }

  /** The integration report on the index shows the same keys as of the same events as on
      the events exactly when every state lost is outlived; and then it is the same list,
      where a key, a time and an event id tell a state. */
  lemma {:induction false} IntegrationsAgree(
      sc: Scanner, events: seq<Event>, index: seq<Event>, full: seq<Integration>, thin: seq<Integration>)
    requires IsThinIndex(sc, events, index)
    requires IsReport(StatesOf(events), full) && IsReport(StatesOf(index), thin)
    ensures SameLatest(KeyOf, StampOf, full, thin) <==> LossesAreOutlived(events)
    ensures DistinctStamps(KeyOf, StampOf, StatesOf(events)) ==> (thin == full <==> LossesAreOutlived(events))
  {
    var all, survivors := StatesOf(events), FilterMap(SurvivingOf, events);
    IndexStates(sc, events, index);
    SurvivorsAreStates(events);
    ReportsAlike(KeyOf, StampOf, all, survivors, full, thin);
    LossesOnStates(events);
  }

  lemma {:induction false} LossesOnStates(events: seq<Event>)
    ensures LossesAreOutlived(events)
            <==> forall s :: s in StatesOf(events) ==> Covers(KeyOf, StampOf, FilterMap(SurvivingOf, events), s)
  {
    forall e | e in events && IntegrationOf(e).Some?
      ensures IntegrationOf(e).value in StatesOf(events)
      ensures Covers(KeyOf, StampOf, FilterMap(SurvivingOf, events), IntegrationOf(e).value)
              <==> Survives(e) || Outlived(events, e)
    {
      CoveredOrOutlived(events, e);
    }
    forall s | s in StatesOf(events) ensures exists e :: e in events && IntegrationOf(e) == Some(s) {
      FilterMapMember(IntegrationOf, events, s);
    }
  }

  lemma {:induction false} CoveredOrOutlived(events: seq<Event>, e: Event)
    requires e in events && IntegrationOf(e).Some?
    ensures IntegrationOf(e).value in StatesOf(events)
    ensures Covers(KeyOf, StampOf, FilterMap(SurvivingOf, events), IntegrationOf(e).value)
            <==> Survives(e) || Outlived(events, e)
  {
    var s, survivors := IntegrationOf(e).value, FilterMap(SurvivingOf, events);
    FilterMapMember(IntegrationOf, events, s);
    if Covers(KeyOf, StampOf, survivors, s) {
      var b :| b in survivors && KeyOf(b) == KeyOf(s) && !Before(StampOf(b), StampOf(s));
      FilterMapMember(SurvivingOf, events, b);
    }
    forall x | x in events && SurvivingOf(x).Some? ensures SurvivingOf(x).value in survivors {
      FilterMapMember(SurvivingOf, events, SurvivingOf(x).value);
    }
    if Survives(e) {
      StrLessIrreflexive(StampOf(s).id);
      assert s in survivors;
    }
  }

  lemma {:induction false} SurvivorsAreStates(events: seq<Event>)
    ensures forall s :: s in FilterMap(SurvivingOf, events) ==> s in StatesOf(events)
  {
    forall s | s in FilterMap(SurvivingOf, events) ensures s in StatesOf(events) {
      FilterMapMember(SurvivingOf, events, s);
      FilterMapMember(IntegrationOf, events, s);
    }
  }

  // ---- a state that is lost ---------------------------------------------------

  /** An MCP block on an event that is no MCP call. */
  predicate StrayCall(e: Event) {
    && e.env.provider == "openai" && e.env.eventType == "tool_result"
    && e.attributes == map[] && e.extensions == map[McpCall := JObj(map[ServerName := JStr("github")])]
  }

  /** This event's integration is reported on the events, and not on the index. */
  lemma {:induction false} StrayCallIsLost(
      sc: Scanner, e: Event, index: seq<Event>, full: seq<Integration>, thin: seq<Integration>)
    requires StrayCall(e) && IsThinIndex(sc, [e], index)
    requires IsReport(StatesOf([e]), full) && IsReport(StatesOf(index), thin)
    ensures full != [] && thin == []
  {
    IndexStates(sc, [e], index);
    StrayCallHasState(e);
    FilterMapNone(SurvivingOf, [e]);
    FilterMapMember(IntegrationOf, [e], IntegrationOf(e).value);
    assert e in [e];
    RowsAreLatest(KeyOf, StampOf, StatesOf([e]), full);
    assert RowFor(KeyOf, full, KeyOf(IntegrationOf(e).value));
    NoStatesNoRows(thin);
  }

  lemma {:induction false} StrayCallHasState(e: Event)
    requires StrayCall(e)
    ensures IntegrationOf(e).Some? && SurvivingOf(e) == None
  {}

  lemma {:induction false} NoStatesNoRows(rows: seq<Integration>)
    requires IsReport([], rows)
    ensures rows == []
  {
    forall r ensures r !in rows {}
    assert multiset(rows) == multiset{};
    assert |rows| == |multiset(rows)|;
  }
}

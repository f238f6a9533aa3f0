/** The latest integration state per key (internal/insights/integrations.go). */
module IntegrationStates {
  import opened Prelude
  import opened Ordering
  import opened Canonical
  import opened Signals
  import opened LatestStates

  datatype Integration = Integration(
    provider: string, tool: string, kind: string, name: Option<string>, state: string,
    sourceEventId: string, observedAt: int)

  function NewIntegration(e: Event, kind: string, name: string, state: string): Integration {
    Integration(e.env.provider, e.env.tool, kind, if TrimSpace(name) == "" then None else Some(TrimSpace(name)), state,
                e.env.eventId, e.env.occurredAt)
  }

  /** The state an event's attributes report. */
  function Reported(e: Event): Option<Integration> {
    var kind, state := ObservedAttribute(e.attributes, IntegrationKind), ObservedAttribute(e.attributes, Key.IntegrationState);
    var name := ObservedAttribute(e.attributes, IntegrationName);
    if kind.Some? && state.Some? then
      Some(NewIntegration(e, kind.value, if name.Some? then name.value else "", state.value))
    else None
  }

  /** The state an MCP call block stands for, whatever event carries it. */
  function Implied(e: Event): Option<Integration> {
    var call := ObjectAt(e.extensions, McpCall);
    var server := AsText(At(call, ServerName));
    if call.Some? then Some(NewIntegration(e, "mcp", if server.Some? then server.value else "", "used")) else None
  }

  /** integrationStateFromEvent */
  function IntegrationOf(e: Event): Option<Integration> {
    FirstOf(Reported(e), Implied(e))
  }

  /** integrationStateKey */
  function KeyOf(s: Integration): string {
    s.provider + ['\0'] + s.tool + ['\0'] + s.kind + ['\0'] + (if s.name.Some? then s.name.value else "") + ['\0'] + s.state
  }

  function StampOf(s: Integration): Stamp {
    Stamp(s.observedAt, s.sourceEventId)
  }

  function StatesOf(events: seq<Event>): seq<Integration> {
    FilterMap(IntegrationOf, events)
  }

  ghost predicate IsReport(states: seq<Integration>, rows: seq<Integration>) {
    RowsOf(KeyOf, (s: Integration) => StampOf(s).at, Latest(KeyOf, StampOf, states), rows)
  }

  method IntegrationStatesFromEvents(events: seq<Event>) returns (rows: seq<Integration>)
    ensures IsReport(StatesOf(events), rows)
  {
    var groups: seq<seq<Integration>> := [];
    for n := 0 to |events|
      invariant Flatten(groups) == FilterMap(IntegrationOf, events[..n])
    {
      FilterMapStep(IntegrationOf, events, n);
      var state := IntegrationOf(events[n]);
      if state.Some? {
        assert (groups + [[state.value]])[..|groups|] == groups;
        groups := groups + [[state.value]];
      }
    }
    assert events[..|events|] == events;
    rows := LatestObservedStates(groups, KeyOf, StampOf);
  }
}

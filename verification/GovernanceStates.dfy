/** The latest governance state per key (internal/insights/governance_states.go). */
module GovernanceStates {
  import opened Prelude
  import opened Ordering
  import opened Canonical
  import opened Signals
  import opened LatestStates

  /** governanceStateKey */
  function KeyOf(s: GovernanceState): string {
    s.provider + ['\0'] + s.tool + ['\0'] + s.sessionId + ['\0'] + s.kind + ['\0'] + s.value + ['\0']
    + (if s.phase.Some? then s.phase.value else "")
  }

  function StampOf(s: GovernanceState): Stamp {
    Stamp(s.observedAt, s.sourceEventId)
  }

  function StatesOf(events: seq<Event>): seq<GovernanceState> {
    Flatten(FilterMap(GovernanceSignalOf, events))
  }

  ghost predicate IsReport(events: seq<Event>, rows: seq<GovernanceState>) {
    RowsOf(KeyOf, (s: GovernanceState) => StampOf(s).at, Latest(KeyOf, StampOf, StatesOf(events)), rows)
  }

  lemma {:induction false} ReportIsDetermined(events: seq<Event>, a: seq<GovernanceState>, b: seq<GovernanceState>)
    requires IsReport(events, a) && IsReport(events, b)
    ensures a == b
  {
    RowsAreDetermined(KeyOf, (s: GovernanceState) => StampOf(s).at, Latest(KeyOf, StampOf, StatesOf(events)), a, b);
  }

  method GovernanceStatesFromEvents(events: seq<Event>) returns (rows: seq<GovernanceState>)
    ensures IsReport(events, rows)
  {
    var groups: seq<seq<GovernanceState>> := [];
    for n := 0 to |events|
      invariant groups == FilterMap(GovernanceSignalOf, events[..n])
    {
      FilterMapStep(GovernanceSignalOf, events, n);
      var states := GovernanceSignalOf(events[n]);
      if states.Some? {
        groups := groups + [states.value];
      }
    }
    assert events[..|events|] == events;
    rows := LatestObservedStates(groups, KeyOf, StampOf);
  }
}

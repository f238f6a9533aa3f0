/** When the MCP report lists its servers in the same order every time, read off the calls
    and connections of the events (internal/insights/mcp.go). */
module McpTies {
  import opened Prelude
  import opened Ordering
  import opened Canonical
  import opened Signals
  import opened McpInventory
  import opened SortedRows

  // ---- what the events say of a server ----------------------------------------

  function SignalsOf(events: seq<Event>): seq<McpSignal> {
    FilterMap(McpSignalOf, events)
  }

  /** The rows that the calls naming server `k` would start, in order. */
  function CallRows(signals: seq<McpSignal>, k: string): seq<McpServer> {
    FilterMap((s: McpSignal) =>
      if s.use.Some? && s.use.value.serverName == k then Some(UseRow(s, s.use.value)) else None, signals)
  }

  predicate Evidenced(signals: seq<McpSignal>, k: string) {
    CallRows(signals, k) != [] || ConnectionsOf(signals, k) != []
  }

  /** The last connection under the key describes the server, else the first call does. */
  function Described(signals: seq<McpSignal>, k: string): McpServer
    requires Evidenced(signals, k)
  {
    var connections := ConnectionsOf(signals, k);
    if connections != [] then connections[|connections| - 1] else CallRows(signals, k)[0]
  }

  /** The name shown: none for a nameless connection, unless calls use its key. */
  function ShownName(signals: seq<McpSignal>, k: string): string
    requires Evidenced(signals, k)
  {
    if Described(signals, k).serverName == "" && CallRows(signals, k) != [] then k else Described(signals, k).serverName
  }

  /** "provider:tool:name" */
  function OrderText(signals: seq<McpSignal>, k: string): string
    requires Evidenced(signals, k)
  {
    Described(signals, k).provider + ":" + Described(signals, k).tool + ":" + ShownName(signals, k)
  }

  lemma {:induction false} CallsStep(prefix: seq<McpSignal>, last: McpSignal, k: string)
    ensures CallRows(prefix + [last], k)
            == CallRows(prefix, k)
               + (if last.use.Some? && last.use.value.serverName == k then [UseRow(last, last.use.value)] else [])
    ensures UsesOf(prefix + [last], k)
            == UsesOf(prefix, k) + (if last.use.Some? && last.use.value.serverName == k then [last.use.value.toolName] else [])
    ensures ConnectionsOf(prefix + [last], k)
            == ConnectionsOf(prefix, k)
               + (if last.connection.Some? && last.connection.value.0 == k then [last.connection.value.1] else [])
  {
    assert (prefix + [last])[..|prefix|] == prefix;
  }

  lemma {:induction false} ServersAreDescribed(signals: seq<McpSignal>, k: string)
    ensures k in Observe(signals).servers <==> Evidenced(signals, k)
    ensures Evidenced(signals, k) ==> Observe(signals).servers[k] == Described(signals, k)
    ensures k in Observe(signals).used <==> CallRows(signals, k) != []
  {
    if signals != [] {
      var prefix, last := signals[..|signals| - 1], signals[|signals| - 1];
      ServersAreDescribed(prefix, k);
      assert signals == prefix + [last];
      CallsStep(prefix, last, k);
    }
  }

  // ---- what the reader makes of names -----------------------------------------

  /** A connection's key is its server's name, or it has no name and a key of its own; a
      call names its server. */
  predicate WellNamed(s: McpSignal) {
    && (s.use.Some? ==> s.use.value.serverName != "")
    && (s.connection.Some? ==>
          var (key, server) := s.connection.value;
          server.provider == s.provider && server.tool == s.tool
          && if server.serverName == "" then "connection:" <= key else server.serverName == key)
  }

  lemma {:induction false} ReadWellNamed(e: Event)
    ensures McpSignalOf(e).Some? ==> WellNamed(McpSignalOf(e).value)
    ensures McpSignalOf(e).Some? ==>
              McpSignalOf(e).value.provider == e.env.provider && McpSignalOf(e).value.tool == e.env.tool
  {}

  ghost predicate AllWellNamed(signals: seq<McpSignal>) {
    forall s :: s in signals ==> WellNamed(s)
  }

  lemma {:induction false} SignalsAreWellNamed(events: seq<Event>)
    ensures AllWellNamed(SignalsOf(events))
    ensures forall s :: s in SignalsOf(events) ==> exists e :: e in events && s.provider == e.env.provider && s.tool == e.env.tool
  {
    forall s | s in SignalsOf(events)
      ensures WellNamed(s) && exists e :: e in events && s.provider == e.env.provider && s.tool == e.env.tool
    {
      FilterMapMember(McpSignalOf, events, s);
      var e :| e in events && McpSignalOf(e) == Some(s);
      ReadWellNamed(e);
    }
  }

  /** Some signal under this key has this row's provider and tool. */
  lemma {:induction false} DescribedBy(signals: seq<McpSignal>, k: string) returns (s: McpSignal)
    requires AllWellNamed(signals) && Evidenced(signals, k)
    ensures s in signals && Described(signals, k).provider == s.provider && Described(signals, k).tool == s.tool
    ensures Described(signals, k).serverName == k
            || (Described(signals, k).serverName == "" && "connection:" <= k && ConnectionsOf(signals, k) != [])
    ensures CallRows(signals, k) != [] ==> k != ""
  {
    var connections := ConnectionsOf(signals, k);
    if CallRows(signals, k) != [] {
      s := CallerOf(signals, k);
    }
    if connections != [] {
      s := ConnectedBy(signals, k, connections[|connections| - 1]);
    }
  }

  lemma {:induction false} CallerOf(signals: seq<McpSignal>, k: string) returns (s: McpSignal)
    requires AllWellNamed(signals) && CallRows(signals, k) != []
    ensures s in signals && s.use.Some? && s.use.value.serverName == k && k != ""
    ensures CallRows(signals, k)[0] == UseRow(s, s.use.value)
  {
    var row := CallRows(signals, k)[0];
    var f := (s: McpSignal) =>
      if s.use.Some? && s.use.value.serverName == k then Some(UseRow(s, s.use.value)) else None;
    FilterMapMember(f, signals, row);
    s :| s in signals && f(s) == Some(row);
  }

  lemma {:induction false} ConnectedBy(signals: seq<McpSignal>, k: string, row: McpServer) returns (s: McpSignal)
    requires AllWellNamed(signals) && row in ConnectionsOf(signals, k)
    ensures s in signals && s.connection == Some((k, row)) && WellNamed(s)
  {
    var f := (s: McpSignal) =>
      if s.connection.Some? && s.connection.value.0 == k then Some(s.connection.value.1) else None;
    FilterMapMember(f, signals, row);
    s :| s in signals && f(s) == Some(row);
  }

  // ---- the rows ---------------------------------------------------------------

  lemma {:induction false} RowIsDescribed(signals: seq<McpSignal>, k: string)
    requires AllWellNamed(signals)
    ensures k in Rows(signals) <==> Evidenced(signals, k)
    ensures Evidenced(signals, k) ==>
              Rows(signals)[k].server == Described(signals, k).(serverName := ShownName(signals, k))
    ensures Evidenced(signals, k) && ShownName(signals, k) == "" ==>
              Rows(signals)[k] == ServerRow(Described(signals, k), 0, {}, false, "unavailable", "usage_unavailable")
    ensures Evidenced(signals, k) && ShownName(signals, k) != "" ==> ShownName(signals, k) == k
  {
    ServersAreDescribed(signals, k);
    if Evidenced(signals, k) {
      var s := DescribedBy(signals, k);
      if "connection:" <= k {
        ConnectionKeysAreUncorrelated(k);
      }
    }
  }

  lemma {:induction false} ConnectionKeysAreUncorrelated(k: string)
    requires "connection:" <= k
    ensures !Correlatable(k)
  {
    assert TrimLeft(k) == k;
    TrimRightKeeps(k, "connection:");
  }

  lemma {:induction false} TrimRightKeeps(s: string, prefix: string)
    requires prefix != "" && prefix <= s && !IsSpace(prefix[|prefix| - 1])
    ensures prefix <= TrimRight(s)
  {
    if IsSpace(s[|s| - 1]) {
      assert |s| > |prefix|;
      TrimRightKeeps(s[..|s| - 1], prefix);
    }
  }

  // ---- ties -------------------------------------------------------------------

  /** Two connections without a name that sort alike but are described differently. */
  ghost predicate NamelessTie(signals: seq<McpSignal>, k: string, l: string) {
    && Evidenced(signals, k) && Evidenced(signals, l)
    && ShownName(signals, k) == "" && ShownName(signals, l) == ""
    && OrderText(signals, k) == OrderText(signals, l) && Described(signals, k) != Described(signals, l)
  }

  /** Two servers of different names whose provider, tool and name join to one text. */
  ghost predicate JoinedTie(signals: seq<McpSignal>, k: string, l: string) {
    && Evidenced(signals, k) && Evidenced(signals, l)
    && ShownName(signals, k) != ShownName(signals, l) && OrderText(signals, k) == OrderText(signals, l)
  }

  lemma {:induction false} RowsTie(sc: Scanner, events: seq<Event>, k: string, l: string)
    requires Evidenced(SignalsOf(events), k) && Evidenced(SignalsOf(events), l)
    ensures var listing, signals := Inventoried(sc, events), SignalsOf(events);
            && k in listing && l in listing
            && (InventoryOrder(listing[k]) == InventoryOrder(listing[l]) && listing[k] != listing[l]
                <==> NamelessTie(signals, k, l) || JoinedTie(signals, k, l))
  {
    var listing, signals := Inventoried(sc, events), SignalsOf(events);
    SignalsAreWellNamed(events);
    RowIsDescribed(signals, k);
    RowIsDescribed(signals, l);
    assert listing[k] == InventoryRow(Rows(signals)[k], SessionContext(sc, events, Rows(signals)[k].server.sessionId));
    assert listing[l] == InventoryRow(Rows(signals)[l], SessionContext(sc, events, Rows(signals)[l].server.sessionId));
    assert InventoryOrder(listing[k]) == OrderText(signals, k) && InventoryOrder(listing[l]) == OrderText(signals, l);
    if ShownName(signals, k) != ShownName(signals, l) {
      assert listing[k].row.server.serverName != listing[l].row.server.serverName;
    }
  }

  /** The list of servers is the same every time exactly when no two nameless connections
      that sort alike differ, and no two names join to one text. */
  lemma {:induction false} InventoryIsDetermined(sc: Scanner, events: seq<Event>)
    ensures Determined(StrLess, InventoryOrder, Inventoried(sc, events))
            <==> forall k, l :: !NamelessTie(SignalsOf(events), k, l) && !JoinedTie(SignalsOf(events), k, l)
  {
    var listing, signals := Inventoried(sc, events), SignalsOf(events);
    StrLessStrictTotal();
    RowsAreDetermined(StrLess, InventoryOrder, listing);
    forall k ensures k in listing <==> Evidenced(signals, k) {
      ServersAreDescribed(signals, k);
    }
    forall k, l | Evidenced(signals, k) && Evidenced(signals, l)
      ensures InventoryOrder(listing[k]) == InventoryOrder(listing[l]) && listing[k] != listing[l]
              <==> NamelessTie(signals, k, l) || JoinedTie(signals, k, l)
    {
      RowsTie(sc, events, k, l);
    }
  }

  /** Where no provider or tool holds a colon: exactly when no two nameless connections of
      one provider and tool differ. */
  lemma {:induction false} ColonFreeInventoryIsDetermined(sc: Scanner, events: seq<Event>)
    requires forall e :: e in events ==> ':' !in e.env.provider && ':' !in e.env.tool
    ensures Determined(StrLess, InventoryOrder, Inventoried(sc, events))
            <==> forall k, l :: !NamelessTie(SignalsOf(events), k, l)
  {
    InventoryIsDetermined(sc, events);
    SignalsAreWellNamed(events);
    forall k, l ensures !JoinedTie(SignalsOf(events), k, l) {
      if Evidenced(SignalsOf(events), k) && Evidenced(SignalsOf(events), l) {
        TextsComeApart(SignalsOf(events), k, l);
      }
    }
  }

  lemma {:induction false} TextsComeApart(signals: seq<McpSignal>, k: string, l: string)
    requires AllWellNamed(signals) && Evidenced(signals, k) && Evidenced(signals, l)
    requires forall s :: s in signals ==> ':' !in s.provider && ':' !in s.tool
    ensures OrderText(signals, k) == OrderText(signals, l) ==> ShownName(signals, k) == ShownName(signals, l)
  {
    var s := DescribedBy(signals, k);
    var t := DescribedBy(signals, l);
    if OrderText(signals, k) == OrderText(signals, l) {
      JoinTwice(s.provider, s.tool, ShownName(signals, k), t.provider, t.tool, ShownName(signals, l));
    }
  }

  lemma {:induction false} JoinTwice(p: string, t: string, n: string, p': string, t': string, n': string)
    requires ':' !in p && ':' !in p' && ':' !in t && ':' !in t'
    requires p + ":" + t + ":" + n == p' + ":" + t' + ":" + n'
    ensures n == n'
  {
    assert p + ":" + t + ":" + n == p + [':'] + (t + [':'] + n);
    assert p' + ":" + t' + ":" + n' == p' + [':'] + (t' + [':'] + n');
    JoinSplits(':', p, t + [':'] + n, p', t' + [':'] + n');
    JoinSplits(':', t, n, t', n');
  }

  // ---- events whose order is left open ----------------------------------------

  /** A connection that reports no server name. */
  predicate Nameless(e: Event) {
    IsMcpConnection(e) && e.attributes == map[] && e.extensions == map[]
  }

  lemma {:induction false} NamelessSignal(e: Event)
    requires Nameless(e)
    ensures ConnectionOf(e).Some? && ConnectionOf(e).value.0 == "connection:" + e.env.eventId
    ensures var server := ConnectionOf(e).value.1;
            server.serverName == "" && server.provider == e.env.provider && server.tool == e.env.tool
            && server.sessionId == e.env.sessionId
    ensures McpSignalOf(e) == Some(McpSignal(e.env.provider, e.env.tool, e.env.sessionId, None, ConnectionOf(e)))
  {}

  lemma {:induction false} TwoSignals(a: McpSignal, b: McpSignal, k: string)
    ensures CallRows([a, b], k)
            == (if a.use.Some? && a.use.value.serverName == k then [UseRow(a, a.use.value)] else [])
               + (if b.use.Some? && b.use.value.serverName == k then [UseRow(b, b.use.value)] else [])
    ensures ConnectionsOf([a, b], k)
            == (if a.connection.Some? && a.connection.value.0 == k then [a.connection.value.1] else [])
               + (if b.connection.Some? && b.connection.value.0 == k then [b.connection.value.1] else [])
  {
    CallsStep([], a, k);
    CallsStep([a], b, k);
    assert [] + [a] == [a] && [a] + [b] == [a, b];
  }

  /** Two nameless connections of one tool, in different sessions, tie: their order in the
      report is not determined. */
  lemma {:induction false} NamelessServersTie(sc: Scanner, a: Event, b: Event)
    requires Nameless(a) && Nameless(b)
    requires a.env.provider == b.env.provider && a.env.tool == b.env.tool
    requires a.env.eventId != b.env.eventId && a.env.sessionId != b.env.sessionId
    ensures !Determined(StrLess, InventoryOrder, Inventoried(sc, [a, b]))
  {
    NamelessSignal(a);
    NamelessSignal(b);
    var sa, sb := McpSignalOf(a).value, McpSignalOf(b).value;
    FilterMapTwo(McpSignalOf, a, b);
    assert SignalsOf([a, b]) == [sa, sb];
    var ka, kb := "connection:" + a.env.eventId, "connection:" + b.env.eventId;
    assert ka[|"connection:"|..] == a.env.eventId && kb[|"connection:"|..] == b.env.eventId;
    TwoSignals(sa, sb, ka);
    TwoSignals(sa, sb, kb);
    assert NamelessTie([sa, sb], ka, kb);
    InventoryIsDetermined(sc, [a, b]);
  }

  /** A call of this server, by an event of this tool. */
  function CallOf(env: Envelope, tool: string, server: string): Event {
    Event(env.(eventType := "mcp_call", tool := tool), map[], map[McpCall := JObj(map[ServerName := JStr(server)])])
  }

  lemma {:induction false} CallSignal(env: Envelope, tool: string, server: string) returns (s: McpSignal)
    requires !Blank(server)
    ensures McpSignalOf(CallOf(env, tool, server)) == Some(s)
    ensures s.provider == env.provider && s.tool == tool && s.connection == None
    ensures s.use.Some? && s.use.value.serverName == server
  {
    s := McpSignalOf(CallOf(env, tool, server)).value;
  }

  /** Calls of server "x:y" by tool "t", and of server "y" by tool "t:x": one text, so
      their order is not determined. */
  lemma {:induction false} JoinedNamesTie(sc: Scanner, env: Envelope)
    ensures !Determined(StrLess, InventoryOrder, Inventoried(sc, [CallOf(env, "t", "x:y"), CallOf(env, "t:x", "y")]))
  {
    var a, b := CallOf(env, "t", "x:y"), CallOf(env, "t:x", "y");
    assert "x:y"[0] in "x:y" && "y"[0] in "y";
    var sa := CallSignal(env, "t", "x:y");
    var sb := CallSignal(env, "t:x", "y");
    FilterMapTwo(McpSignalOf, a, b);
    assert SignalsOf([a, b]) == [sa, sb];
    TwoSignals(sa, sb, "x:y");
    TwoSignals(sa, sb, "y");
    assert env.provider + ":" + "t" + ":" + "x:y" == env.provider + ":" + "t:x" + ":" + "y";
    assert JoinedTie([sa, sb], "x:y", "y");
    InventoryIsDetermined(sc, [a, b]);
  }

  // ---- the states shown -------------------------------------------------------

  /** A server is used exactly when some call names it; unused if it has a name to be called
      by, and of unknown use if it has none. */
  lemma {:induction false} UsageIsStated(signals: seq<McpSignal>, k: string)
    requires k in Rows(signals)
    ensures var row := Rows(signals)[k];
            && (row.used <==> CallRows(signals, k) != [])
            && (row.wasteState == "used" && row.usageState == "observed" <==> CallRows(signals, k) != [])
            && (row.wasteState == "connected_but_unused" && row.usageState == "not_observed"
                <==> CallRows(signals, k) == [] && !Blank(k) && !("connection:" <= TrimSpace(k)))
            && (row.wasteState == "usage_unavailable" && row.usageState == "unavailable"
                <==> CallRows(signals, k) == [] && (Blank(k) || "connection:" <= TrimSpace(k)))
            && (CallRows(signals, k) == [] ==> row.invocationCount == 0 && row.toolNames == {})
  {
    ServersAreDescribed(signals, k);
  }

  /** A server known by calls alone shows nothing of a connection. */
  lemma {:induction false} UncalledColumns(signals: seq<McpSignal>, k: string)
    requires AllWellNamed(signals) && CallRows(signals, k) != [] && ConnectionsOf(signals, k) == []
    ensures var row := Described(signals, k);
            && row.serverName == k && row.status == "unavailable" && row.scope == "unknown" && row.transport == "unknown"
            && row.isPlugin == None && row.identityState == if Blank(k) then "unavailable" else "provider_reported"
  {
    var s := CallerOf(signals, k);
  }

  /** What the totals count: servers called, servers with a name and no call, and the rest. */
  lemma {:induction false} CountedIsStated(sc: Scanner, events: seq<Event>, k: string)
    requires k in Inventoried(sc, events)
    ensures var r, signals := Inventoried(sc, events)[k], SignalsOf(events);
            && (IsUsed(r) <==> CallRows(signals, k) != [])
            && (IsUnused(r) <==> CallRows(signals, k) == [] && !Blank(k) && !("connection:" <= TrimSpace(k)))
            && (IsUnknown(r) <==> CallRows(signals, k) == [] && (Blank(k) || "connection:" <= TrimSpace(k)))
  {
    UsageIsStated(SignalsOf(events), k);
  }
}

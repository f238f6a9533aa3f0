/** The MCP server inventory (internal/insights/mcp.go). */
module McpInventory {
  import opened Folds
  import opened Prelude
  import opened Ordering
  import opened Canonical
  import opened Signals
  import opened SortedRows

  datatype Usage = Usage(count: nat, toolNames: set<string>)

  datatype Inventory = Inventory(servers: map<string, McpServer>, used: map<string, Usage>)

  function UseRow(s: McpSignal, use: McpUse): McpServer {
    McpServer(use.serverName, IdentityState(use.serverName), s.provider, s.tool, s.sessionId,
              "unavailable", "unknown", "unknown", None)
  }

  function UsageAt(used: map<string, Usage>, k: string): Usage {
    if k in used then used[k] else Usage(0, {})
  }

  function NoteUse(inv: Inventory, s: McpSignal): Inventory {
    match s.use
    case None => inv
    case Some(use) =>
      var k, u := use.serverName, UsageAt(inv.used, use.serverName);
      Inventory(
        if k in inv.servers then inv.servers else inv.servers[k := UseRow(s, use)],
        inv.used[k := Usage(u.count + 1, u.toolNames + if Blank(use.toolName) then {} else {use.toolName})])
  }

  function NoteConnection(inv: Inventory, s: McpSignal): Inventory {
    match s.connection
    case None => inv
    case Some((key, server)) => inv.(servers := inv.servers[key := server])
  }

  function Observe(signals: seq<McpSignal>): Inventory {
    if signals == [] then Inventory(map[], map[])
    else
      var last := signals[|signals| - 1];
      NoteConnection(NoteUse(Observe(signals[..|signals| - 1]), last), last)
  }

  /** The calls that named server `k`. */
  function UsesOf(signals: seq<McpSignal>, k: string): seq<string> {
    FilterMap((s: McpSignal) =>
      if s.use.Some? && s.use.value.serverName == k then Some(s.use.value.toolName) else None, signals)
  }

  /** The rows connections reported under key `k`. */
  function ConnectionsOf(signals: seq<McpSignal>, k: string): seq<McpServer> {
    FilterMap((s: McpSignal) =>
      if s.connection.Some? && s.connection.value.0 == k then Some(s.connection.value.1) else None, signals)
  }

  /** A server's usage counts exactly the calls that named it. */
  lemma {:induction false} UsageIsCalls(signals: seq<McpSignal>, k: string)
    ensures k in Observe(signals).used <==> UsesOf(signals, k) != []
    ensures UsageAt(Observe(signals).used, k).count == |UsesOf(signals, k)|
    ensures forall t :: t in UsageAt(Observe(signals).used, k).toolNames <==> t in UsesOf(signals, k) && !Blank(t)
  {
    if signals != [] {
      var last := signals[|signals| - 1];
      UsageIsCalls(signals[..|signals| - 1], k);
      if last.use.Some? && last.use.value.serverName == k {
        assert UsesOf(signals, k) == UsesOf(signals[..|signals| - 1], k) + [last.use.value.toolName];
      } else {
        assert UsesOf(signals, k) == UsesOf(signals[..|signals| - 1], k);
      }
    }
  }

  /** A server is listed if it was used or connected, and its last connection describes it. */
  lemma {:induction false} ServersAreEvidence(signals: seq<McpSignal>, k: string)
    ensures k in Observe(signals).servers <==> UsesOf(signals, k) != [] || ConnectionsOf(signals, k) != []
    ensures ConnectionsOf(signals, k) != [] ==>
              k in Observe(signals).servers
              && Observe(signals).servers[k] == ConnectionsOf(signals, k)[|ConnectionsOf(signals, k)| - 1]
  {
    if signals != [] {
      var prefix, last := signals[..|signals| - 1], signals[|signals| - 1];
      ServersAreEvidence(prefix, k);
      assert UsesOf(signals, k) == UsesOf(prefix, k)
             + (if last.use.Some? && last.use.value.serverName == k then [last.use.value.toolName] else []);
      assert ConnectionsOf(signals, k) == ConnectionsOf(prefix, k)
             + (if last.connection.Some? && last.connection.value.0 == k then [last.connection.value.1] else []);
    }
  }

  // ---- annotation -------------------------------------------------------------

  datatype ServerRow = ServerRow(
    server: McpServer, invocationCount: nat, toolNames: set<string>, used: bool,
    usageState: string, wasteState: string)

  /** hasCorrelatableMCPIdentity */
  predicate Correlatable(key: string) {
    !Blank(key) && !("connection:" <= TrimSpace(key))
  }

  /** annotatedServer without the token columns */
  function Annotate(inv: Inventory, key: string): ServerRow
    requires key in inv.servers
  {
    var server := inv.servers[key];
    if key in inv.used then
      ServerRow(if server.serverName == "" then server.(serverName := key) else server,
                inv.used[key].count, inv.used[key].toolNames, true, "observed", "used")
    else if Correlatable(key) then ServerRow(server, 0, {}, false, "not_observed", "connected_but_unused")
    else ServerRow(server, 0, {}, false, "unavailable", "usage_unavailable")
  }

  function Rows(signals: seq<McpSignal>): map<string, ServerRow> {
    var inv := Observe(signals);
    map k | k in inv.servers :: Annotate(inv, k)
  }

  // ---- request tokens ---------------------------------------------------------

  const NO_TOKENS := TokenContext(None, None, None, None)

  /** mergeTokenContext */
  function Merge(a: TokenContext, b: TokenContext): TokenContext {
    TokenContext(AddOptional(a.input, b.input), AddOptional(a.output, b.output),
                 AddOptional(a.cachedInput, b.cachedInput), AddOptional(a.cacheCreated, b.cacheCreated))
  }

  /** What session `s` sums to. */
  function SessionContext(sc: Scanner, events: seq<Event>, s: string): TokenContext {
    if events == [] then NO_TOKENS
    else
      var last := events[|events| - 1];
      var before := SessionContext(sc, events[..|events| - 1], s);
      if last.env.sessionId == s then Merge(before, RequestContext(sc, last)) else before
  }

  function ContextAt(tokens: map<string, TokenContext>, s: string): TokenContext {
    if s in tokens then tokens[s] else NO_TOKENS
  }

  lemma {:induction false} SessionContextConcat(sc: Scanner, xs: seq<Event>, ys: seq<Event>, s: string)
    ensures SessionContext(sc, xs + ys, s) == Merge(SessionContext(sc, xs, s), SessionContext(sc, ys, s))
  {
    if ys == [] {
      assert xs + ys == xs;
    } else {
      assert (xs + ys)[..|xs + ys| - 1] == xs + ys[..|ys| - 1];
      SessionContextConcat(sc, xs, ys[..|ys| - 1], s);
    }
  }

  lemma {:induction false} ObserveStep(events: seq<Event>, n: nat)
    requires n < |events|
    ensures Observe(FilterMap(McpSignalOf, events[..n + 1]))
            == match McpSignalOf(events[n])
               case Some(s) => NoteConnection(NoteUse(Observe(FilterMap(McpSignalOf, events[..n])), s), s)
               case None => Observe(FilterMap(McpSignalOf, events[..n]))
  {
    var before := FilterMap(McpSignalOf, events[..n]);
    FilterMapStep(McpSignalOf, events, n);
    match McpSignalOf(events[n])
    case Some(s) => assert (before + [s])[..|before|] == before;
    case None => assert before + [] == before;
  }

  /** The loops over the events and the servers: the rows, and each session's tokens. */
  method GatherServers(sc: Scanner, events: seq<Event>)
    returns (rows: map<string, ServerRow>, tokens: map<string, TokenContext>)
    ensures rows == Rows(FilterMap(McpSignalOf, events))
    ensures forall s :: ContextAt(tokens, s) == SessionContext(sc, events, s)
  {
    var inv := Inventory(map[], map[]);
    tokens := map[];
    for n := 0 to |events|
      invariant inv == Observe(FilterMap(McpSignalOf, events[..n]))
      invariant forall s :: ContextAt(tokens, s) == SessionContext(sc, events[..n], s)
    {
      ObserveStep(events, n);
      var e := events[n];
      tokens := NoteTokens(sc, events, n, tokens);
      var signal := McpSignalOf(e);
      if signal.Some? {
        inv := NoteConnection(NoteUse(inv, signal.value), signal.value);
      }
    }
    assert events[..|events|] == events;
    rows := AnnotateAll(inv);
  }

  /** The event's tokens join those of its session. */
  method NoteTokens(sc: Scanner, events: seq<Event>, n: nat, before: map<string, TokenContext>)
    returns (tokens: map<string, TokenContext>)
    requires n < |events| && forall s :: ContextAt(before, s) == SessionContext(sc, events[..n], s)
    ensures forall s :: ContextAt(tokens, s) == SessionContext(sc, events[..n + 1], s)
  {
    assert events[..n + 1][..n] == events[..n];
    var e := events[n];
    var context := RequestContext(sc, e);
    tokens := before;
    if context != NO_TOKENS {
      tokens := tokens[e.env.sessionId := Merge(ContextAt(tokens, e.env.sessionId), context)];
    }
  }

  method AnnotateAll(inv: Inventory) returns (rows: map<string, ServerRow>)
    ensures rows == map k | k in inv.servers :: Annotate(inv, k)
  {
    rows := map[];
    var pending := inv.servers.Keys;
    while pending != {}
      invariant pending <= inv.servers.Keys
      invariant rows.Keys == inv.servers.Keys - pending
      invariant forall k :: k in rows ==> rows[k] == Annotate(inv, k)
      decreases |pending|
    {
      var k :| k in pending;
      rows := rows[k := Annotate(inv, k)];
      pending := pending - {k};
    }
  }

  // ---- the report -------------------------------------------------------------

  /** annotatedServer: a server's row, with its session's request tokens. */
  datatype InventoryRow = InventoryRow(row: ServerRow, tokens: TokenContext)

  function Listing(rows: map<string, ServerRow>, contexts: string -> TokenContext): map<string, InventoryRow> {
    map k | k in rows :: InventoryRow(rows[k], contexts(rows[k].server.sessionId))
  }

  /** "provider:tool:server" */
  function InventoryOrder(r: InventoryRow): string {
    r.row.server.provider + ":" + r.row.server.tool + ":" + r.row.server.serverName
  }

  datatype InventoryTotals = InventoryTotals(
    connected: nat, used: nat, unused: nat, usageUnavailable: nat, tokens: TokenContext)

  predicate IsUsed(r: InventoryRow) { r.row.used }
  predicate IsUnused(r: InventoryRow) { r.row.wasteState == "connected_but_unused" }
  predicate IsUnknown(r: InventoryRow) { r.row.wasteState == "usage_unavailable" }

  /** The sessions of the rows, each at its first row. */
  function SessionsOf(rows: seq<InventoryRow>): seq<string> {
    if rows == [] then []
    else
      var seen, s := SessionsOf(rows[..|rows| - 1]), rows[|rows| - 1].row.server.sessionId;
      if s in seen then seen else seen + [s]
  }

  function SumContexts(contexts: string -> TokenContext, sessions: seq<string>): TokenContext {
    Fold(Merge, NO_TOKENS, contexts, sessions)
  }

  ghost predicate InContext(rows: seq<InventoryRow>, contexts: string -> TokenContext) {
    forall r :: r in rows ==> r.tokens == contexts(r.row.server.sessionId)
  }

  /** One more server in the counts. */
  function Tallied(t: InventoryTotals, r: InventoryRow): InventoryTotals {
    t.(connected := t.connected + 1,
       used := if IsUsed(r) then t.used + 1 else t.used,
       unused := if IsUnused(r) then t.unused + 1 else t.unused,
       usageUnavailable := if IsUnknown(r) then t.usageUnavailable + 1 else t.usageUnavailable)
  }

  /** mcpTotals */
  method TotalsOf(rows: seq<InventoryRow>, ghost contexts: string -> TokenContext) returns (t: InventoryTotals)
    requires InContext(rows, contexts)
    ensures t == InventoryTotals(|rows|, CountOf(IsUsed, rows), CountOf(IsUnused, rows), CountOf(IsUnknown, rows),
                                 SumContexts(contexts, SessionsOf(rows)))
  {
    t := InventoryTotals(0, 0, 0, 0, NO_TOKENS);
    var counted: set<string> := {};
    for n := 0 to |rows|
      invariant forall s :: s in counted <==> s in SessionsOf(rows[..n])
      invariant t == InventoryTotals(n, CountOf(IsUsed, rows[..n]), CountOf(IsUnused, rows[..n]), CountOf(IsUnknown, rows[..n]),
                                     SumContexts(contexts, SessionsOf(rows[..n])))
    {
      RowStep(rows, n);
      var r := rows[n];
      t := Tallied(t, r);
      if r.row.server.sessionId in counted { continue; }
      counted := counted + {r.row.server.sessionId};
      SumStep(contexts, SessionsOf(rows[..n]), r.row.server.sessionId);
      t := t.(tokens := Merge(t.tokens, r.tokens));
    }
    assert rows[..|rows|] == rows;
  }

  lemma {:induction false} RowStep(rows: seq<InventoryRow>, n: nat)
    requires n < |rows|
    ensures CountOf(IsUsed, rows[..n + 1]) == CountOf(IsUsed, rows[..n]) + if IsUsed(rows[n]) then 1 else 0
    ensures CountOf(IsUnused, rows[..n + 1]) == CountOf(IsUnused, rows[..n]) + if IsUnused(rows[n]) then 1 else 0
    ensures CountOf(IsUnknown, rows[..n + 1]) == CountOf(IsUnknown, rows[..n]) + if IsUnknown(rows[n]) then 1 else 0
    ensures var seen, s := SessionsOf(rows[..n]), rows[n].row.server.sessionId;
            SessionsOf(rows[..n + 1]) == if s in seen then seen else seen + [s]
  {
    assert rows[..n + 1][..n] == rows[..n];
  }

  lemma {:induction false} MergeMonoid()
    ensures CommutativeMonoid(Merge, NO_TOKENS)
  {}

  lemma {:induction false} SumStep(contexts: string -> TokenContext, sessions: seq<string>, s: string)
    ensures SumContexts(contexts, sessions + [s]) == Merge(SumContexts(contexts, sessions), contexts(s))
  {
    assert (sessions + [s])[..|sessions|] == sessions;
  }

  lemma {:induction false} SessionsListed(rows: seq<InventoryRow>)
    ensures NoRepeats(SessionsOf(rows))
    ensures forall s :: s in SessionsOf(rows) <==> exists r :: r in rows && r.row.server.sessionId == s
  {
    if rows != [] {
      var front, last := rows[..|rows| - 1], rows[|rows| - 1];
      SessionsListed(front);
      assert forall r :: r in rows <==> r in front || r == last;
    }
  }

  lemma {:induction false} SameSessions(a: seq<InventoryRow>, b: seq<InventoryRow>)
    requires multiset(a) == multiset(b)
    ensures multiset(SessionsOf(a)) == multiset(SessionsOf(b))
  {
    SessionsListed(a);
    SessionsListed(b);
    forall r ensures r in a <==> r in b {
      assert r in multiset(a) <==> r in multiset(b);
    }
    SameMembersOnce((s: string) => s, SessionsOf(a), SessionsOf(b));
  }

  /** Each session's tokens count once, whatever the order of the rows. */
  lemma {:induction false} TotalsForgetOrder(a: seq<InventoryRow>, b: seq<InventoryRow>, contexts: string -> TokenContext)
    requires multiset(a) == multiset(b)
    ensures SumContexts(contexts, SessionsOf(a)) == SumContexts(contexts, SessionsOf(b))
  {
    SameSessions(a, b);
    MergeMonoid();
    FoldForgetsOrder(Merge, NO_TOKENS, contexts, SessionsOf(a), SessionsOf(b));
  }

  ghost function ContextOf(sc: Scanner, events: seq<Event>): string -> TokenContext {
    (s: string) => SessionContext(sc, events, s)
  }

  ghost function Inventoried(sc: Scanner, events: seq<Event>): map<string, InventoryRow> {
    Listing(Rows(FilterMap(McpSignalOf, events)), ContextOf(sc, events))
  }

  method MCPInventoryFromEvents(sc: Scanner, events: seq<Event>) returns (servers: seq<InventoryRow>, totals: InventoryTotals)
    ensures var listing := Inventoried(sc, events);
            && RowsOf(StrLess, InventoryOrder, listing, servers)
            && totals == InventoryTotals(|listing|, |KeysWhere(IsUsed, listing)|, |KeysWhere(IsUnused, listing)|,
                                         |KeysWhere(IsUnknown, listing)|,
                                         SumContexts(ContextOf(sc, events), SessionsOf(servers)))
  {
    var rows, tokens := GatherServers(sc, events);
    ghost var contexts := ContextOf(sc, events);
    var listing := Listing(rows, (s: string) => ContextAt(tokens, s));
    assert listing == Inventoried(sc, events);
    StrLessStrictTotal();
    servers := Collect(StrLess, InventoryOrder, listing);
    forall r | r in servers ensures r.tokens == contexts(r.row.server.sessionId) {
      HeldValue(listing, servers, r);
    }
    totals := TotalsOf(servers, contexts);
    HeldCount(listing, servers);
    CountIsOfKeys(IsUsed, listing, servers);
    CountIsOfKeys(IsUnused, listing, servers);
    CountIsOfKeys(IsUnknown, listing, servers);
  }

  /** The token totals are the same every time, however the rows are listed. */
  lemma {:induction false} TotalsAreDetermined(sc: Scanner, events: seq<Event>, a: seq<InventoryRow>, b: seq<InventoryRow>)
    requires RowsOf(StrLess, InventoryOrder, Inventoried(sc, events), a)
    requires RowsOf(StrLess, InventoryOrder, Inventoried(sc, events), b)
    ensures SumContexts(ContextOf(sc, events), SessionsOf(a)) == SumContexts(ContextOf(sc, events), SessionsOf(b))
  {
    HoldSameRows(Inventoried(sc, events), a, b);
    TotalsForgetOrder(a, b, ContextOf(sc, events));
  }
}

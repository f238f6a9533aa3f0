/** The context-waste insight per session (internal/insights/context_waste.go).
    float64 ratios are real. */
module ContextWaste {
  import opened Prelude
  import opened Ordering
  import opened Canonical
  import opened Signals
  import opened Folds
  import opened SortedRows

  function PointReader(sc: Scanner): Event -> Option<TokenPoint> {
    (e: Event) => TokenPointOf(sc, e)
  }

  function InputOf(p: TokenPoint): Option<int> {
    p.input
  }

  function OverlapOf(p: TokenPoint): Option<(int, int)> {
    if p.input.Some? && p.cached.Some? then Some((p.input.value, p.cached.value)) else None
  }

  function Inputs(points: seq<TokenPoint>): seq<int> {
    FilterMap(InputOf, points)
  }

  function Overlaps(points: seq<TokenPoint>): seq<(int, int)> {
    FilterMap(OverlapOf, points)
  }

  function SumInput(xs: seq<(int, int)>): int {
    if xs == [] then 0 else SumInput(xs[..|xs| - 1]) + xs[|xs| - 1].0
  }

  function SumCached(xs: seq<(int, int)>): int {
    if xs == [] then 0 else SumCached(xs[..|xs| - 1]) + xs[|xs| - 1].1
  }

  function Greatest(xs: seq<int>): (m: int)
    requires xs != []
    ensures m in xs && forall x :: x in xs ==> x <= m
  {
    var last := xs[|xs| - 1];
    assert xs == xs[..|xs| - 1] + [last];
    if |xs| == 1 then last
    else
      var m := Greatest(xs[..|xs| - 1]);
      if last > m then last else m
  }

  lemma {:induction false} GreatestStep(xs: seq<int>, x: int)
    ensures Greatest(xs + [x]) == if xs == [] || x > Greatest(xs) then x else Greatest(xs)
  {
    assert (xs + [x])[..|xs|] == xs;
  }

  lemma {:induction false} SumStep(xs: seq<(int, int)>, x: (int, int))
    ensures SumInput(xs + [x]) == SumInput(xs) + x.0
    ensures SumCached(xs + [x]) == SumCached(xs) + x.1
  {
    assert (xs + [x])[..|xs|] == xs;
  }

  datatype Thresholds = Thresholds(ratio: real, growth: real)

  datatype WasteRow = WasteRow(
    provider: string, tool: string, sessionId: string, tokenPoints: nat, inputSamples: nat,
    firstInput: Option<int>, maxInput: Option<int>,
    overlapInput: Option<int>, overlapCached: Option<int>,
    cachedRatio: Option<real>, inputGrowth: Option<real>, reasons: seq<string>)

  function RatioOf(overlaps: seq<(int, int)>): Option<real> {
    if overlaps == [] || SumInput(overlaps) <= 0 then None
    else Some(SumCached(overlaps) as real / SumInput(overlaps) as real)
  }

  function GrowthOf(inputs: seq<int>): Option<real> {
    if |inputs| < 2 || inputs[0] <= 0 then None
    else Some(Greatest(inputs) as real / inputs[0] as real)
  }

  function Reasons(ratio: Option<real>, growth: Option<real>, th: Thresholds): seq<string> {
    (if ratio.Some? && ratio.value >= th.ratio then ["cached_context_ratio"] else [])
    + (if growth.Some? && growth.value >= th.growth then ["input_token_growth"] else [])
  }

  /** What a session's row says about its points, taken in time order. */
  function RowOf(provider: string, tool: string, sessionId: string, points: seq<TokenPoint>, th: Thresholds): WasteRow {
    var inputs, overlaps := Inputs(points), Overlaps(points);
    WasteRow(provider, tool, sessionId, |points|, |inputs|,
             if inputs == [] then None else Some(inputs[0]),
             if inputs == [] then None else Some(Greatest(inputs)),
             if overlaps == [] then None else Some(SumInput(overlaps)),
             if overlaps == [] then None else Some(SumCached(overlaps)),
             RatioOf(overlaps), GrowthOf(inputs), Reasons(RatioOf(overlaps), GrowthOf(inputs), th))
  }

  function PointStamp(p: TokenPoint): Stamp {
    Stamp(p.occurredAt, p.eventId)
  }

  function OfSession(s: string): TokenPoint -> Option<TokenPoint> {
    (p: TokenPoint) => if p.sessionId == s then Some(p) else None
  }

  function PointsOf(points: seq<TokenPoint>, s: string): seq<TokenPoint> {
    FilterMap(OfSession(s), points)
  }

  /** sort.Slice may leave points of one time and event in any order. */
  ghost predicate Arranged(points: seq<TokenPoint>, sorted: seq<TokenPoint>) {
    multiset(sorted) == multiset(points) && SortedBy(Before, PointStamp, sorted)
  }

  /** A row the points of one session may be given. */
  ghost predicate IsSessionRow(points: seq<TokenPoint>, th: Thresholds, row: WasteRow) {
    && points != []
    && exists sorted :: Arranged(points, sorted)
                        && row == RowOf(points[0].provider, points[0].tool, points[0].sessionId, sorted, th)
  }

  ghost predicate HasSession(points: seq<TokenPoint>, s: string) {
    exists p :: p in points && p.sessionId == s
  }

  /** One row per session of the points. */
  ghost predicate IsWaste(points: seq<TokenPoint>, th: Thresholds, waste: map<string, WasteRow>) {
    Each(waste, InPoints(points), RowIn(points, th))
  }

  ghost function InPoints(points: seq<TokenPoint>): string -> bool {
    (s: string) => HasSession(points, s)
  }

  ghost function RowIn(points: seq<TokenPoint>, th: Thresholds): (string, WasteRow) -> bool {
    (s: string, row: WasteRow) => IsSessionRow(PointsOf(points, s), th, row)
  }

  method InputStats(points: seq<TokenPoint>) returns (samples: nat, first: Option<int>, max: Option<int>)
    ensures samples == |Inputs(points)|
    ensures first == if Inputs(points) == [] then None else Some(Inputs(points)[0])
    ensures max == if Inputs(points) == [] then None else Some(Greatest(Inputs(points)))
  {
    samples, first, max := 0, None, None;
    for n := 0 to |points|
      invariant samples == |Inputs(points[..n])|
      invariant first == if samples == 0 then None else Some(Inputs(points[..n])[0])
      invariant max == if samples == 0 then None else Some(Greatest(Inputs(points[..n])))
    {
      FilterMapStep(InputOf, points, n);
      assert Inputs(points[..n + 1])
             == if points[n].input.Some? then Inputs(points[..n]) + [points[n].input.value] else Inputs(points[..n]);
      if points[n].input.Some? {
        var input := points[n].input.value;
        GreatestStep(Inputs(points[..n]), input);
        samples := samples + 1;
        if first == None {
          first := Some(input);
        }
        if max == None || input > max.value {
          max := Some(input);
        }
      }
    }
    assert points[..|points|] == points;
  }

  method OverlapSums(points: seq<TokenPoint>) returns (observed: bool, input: int, cached: int)
    ensures observed <==> Overlaps(points) != []
    ensures input == SumInput(Overlaps(points)) && cached == SumCached(Overlaps(points))
  {
    observed, input, cached := false, 0, 0;
    for n := 0 to |points|
      invariant observed <==> Overlaps(points[..n]) != []
      invariant input == SumInput(Overlaps(points[..n])) && cached == SumCached(Overlaps(points[..n]))
    {
      FilterMapStep(OverlapOf, points, n);
      var p := points[n];
      assert Overlaps(points[..n + 1])
             == if OverlapOf(p).Some? then Overlaps(points[..n]) + [OverlapOf(p).value] else Overlaps(points[..n]);
      if p.input.Some? && p.cached.Some? {
        SumStep(Overlaps(points[..n]), (p.input.value, p.cached.value));
        input, cached, observed := input + p.input.value, cached + p.cached.value, true;
      }
    }
    assert points[..|points|] == points;
  }

  /** contextWasteSession */
  method ContextWasteSession(provider: string, tool: string, sessionId: string, points: seq<TokenPoint>, th: Thresholds)
    returns (row: WasteRow)
    ensures row == RowOf(provider, tool, sessionId, points, th)
  {
    var samples, first, max := InputStats(points);
    var observed, input, cached := OverlapSums(points);
    var reasons := [];
    var ratio: Option<real> := None;
    if observed && input > 0 {
      ratio := Some(cached as real / input as real);
      if ratio.value >= th.ratio {
        reasons := reasons + ["cached_context_ratio"];
      }
    }
    var growth: Option<real> := None;
    if samples >= 2 && first.value > 0 {
      growth := Some(max.value as real / first.value as real);
      if growth.value >= th.growth {
        reasons := reasons + ["input_token_growth"];
      }
    }
    row := WasteRow(provider, tool, sessionId, |points|, samples, first, max,
                    if observed then Some(input) else None, if observed then Some(cached) else None,
                    ratio, growth, reasons);
  }

  /** The points gathered so far, by session, with the first event's provider and tool. */
  ghost predicate Gathered(points: seq<TokenPoint>, bySession: map<string, seq<TokenPoint>>) {
    && bySession.Keys == (set p | p in points :: p.sessionId)
    && forall s :: s in bySession ==> bySession[s] == FilterMap(OfSession(s), points) && bySession[s] != []
  }

  lemma {:induction false} GatherStep(points: seq<TokenPoint>, p: TokenPoint, bySession: map<string, seq<TokenPoint>>)
    requires Gathered(points, bySession)
    ensures Gathered(points + [p],
              bySession[p.sessionId := (if p.sessionId in bySession then bySession[p.sessionId] else []) + [p]])
  {
    var before := if p.sessionId in bySession then bySession[p.sessionId] else [];
    var after := bySession[p.sessionId := before + [p]];
    if p.sessionId !in bySession {
      FilterMapNone(OfSession(p.sessionId), points);
    }
    forall s | s in after ensures after[s] == FilterMap(OfSession(s), points + [p]) && after[s] != [] {
      OfSessionSnoc(points, p, s);
    }
    SessionsSnoc(points, p);
  }

  lemma {:induction false} OfSessionSnoc(points: seq<TokenPoint>, p: TokenPoint, s: string)
    ensures FilterMap(OfSession(s), points + [p])
            == FilterMap(OfSession(s), points) + (if p.sessionId == s then [p] else [])
  {
    FilterMapSnoc(OfSession(s), points, p);
  }

  lemma {:induction false} SessionsSnoc(points: seq<TokenPoint>, p: TokenPoint)
    ensures (set q | q in points + [p] :: q.sessionId) == (set q | q in points :: q.sessionId) + {p.sessionId}
  {}

  /** The loops over the events and the sessions. */
  method GatherSessions(sc: Scanner, events: seq<Event>, th: Thresholds)
    returns (rows: map<string, WasteRow>)
    ensures IsWaste(FilterMap(PointReader(sc), events), th, rows)
  {
    var bySession: map<string, seq<TokenPoint>> := map[];
    for n := 0 to |events|
      invariant Gathered(FilterMap(PointReader(sc), events[..n]), bySession)
    {
      var point := TokenPointOf(sc, events[n]);
      GatherEvent(sc, events, n, bySession);
      if point.Some? {
        var s := point.value.sessionId;
        bySession := bySession[s := (if s in bySession then bySession[s] else []) + [point.value]];
      }
    }
    assert events[..|events|] == events;
    rows := SessionRows(bySession, th);
    GatheredAreWaste(FilterMap(PointReader(sc), events), bySession, th, rows);
  }

  lemma {:induction false} GatheredAreWaste(
      points: seq<TokenPoint>, bySession: map<string, seq<TokenPoint>>, th: Thresholds, rows: map<string, WasteRow>)
    requires Gathered(points, bySession) && rows.Keys == bySession.Keys
    requires forall s :: s in rows ==> IsSessionRow(bySession[s], th, rows[s])
    ensures IsWaste(points, th, rows)
  {
    forall s ensures s in rows <==> InPoints(points)(s) {
      assert s in rows <==> s in rows.Keys;
    }
  }

  lemma {:induction false} GatherEvent(sc: Scanner, events: seq<Event>, n: nat, bySession: map<string, seq<TokenPoint>>)
    requires n < |events|
    requires Gathered(FilterMap(PointReader(sc), events[..n]), bySession)
    ensures Gathered(FilterMap(PointReader(sc), events[..n + 1]),
              match TokenPointOf(sc, events[n])
              case Some(p) =>
                bySession[p.sessionId := (if p.sessionId in bySession then bySession[p.sessionId] else []) + [p]]
              case None => bySession)
  {
    var before := FilterMap(PointReader(sc), events[..n]);
    FilterMapStep(PointReader(sc), events, n);
    var point := PointReader(sc)(events[n]);
    assert point == TokenPointOf(sc, events[n]);
    if point.Some? {
      GatherStep(before, point.value, bySession);
    } else {
      assert before + [] == before;
    }
  }

  /** sort.Slice by time and event id */
  method SortPoints(points: seq<TokenPoint>) returns (sorted: seq<TokenPoint>)
    ensures Arranged(points, sorted)
  {
    BeforeStrictTotal();
    SortBySorted(Before, PointStamp, points);
    sorted := SortBy(Before, PointStamp, points);
  }

  method SortedSession(points: seq<TokenPoint>, th: Thresholds) returns (row: WasteRow)
    requires points != []
    ensures IsSessionRow(points, th, row)
  {
    var sorted := SortPoints(points);
    row := ContextWasteSession(points[0].provider, points[0].tool, points[0].sessionId, sorted, th);
  }

  method SessionRows(bySession: map<string, seq<TokenPoint>>, th: Thresholds) returns (rows: map<string, WasteRow>)
    requires forall s :: s in bySession ==> bySession[s] != []
    ensures rows.Keys == bySession.Keys && forall s :: s in rows ==> IsSessionRow(bySession[s], th, rows[s])
  {
    rows := map[];
    var pending := bySession.Keys;
    while pending != {}
      invariant pending <= bySession.Keys
      invariant rows.Keys == bySession.Keys - pending
      invariant forall s :: s in rows ==> IsSessionRow(bySession[s], th, rows[s])
      decreases |pending|
    {
      var s := Pick(pending);
      var row := SortedSession(bySession[s], th);
      rows := rows[s := row];
      pending := pending - {s};
    }
  }

  // ---- the report -------------------------------------------------------------

  /** (provider, tool, session): the order of the rows. */
  type WasteKey = (string, (string, string))

  function WasteOrder(row: WasteRow): WasteKey { (row.provider, (row.tool, row.sessionId)) }

  predicate WasteLess(a: WasteKey, b: WasteKey) {
    if a.0 != b.0 then StrLess(a.0, b.0)
    else if a.1.0 != b.1.0 then StrLess(a.1.0, b.1.0)
    else StrLess(a.1.1, b.1.1)
  }

  lemma {:induction false} WasteLessStrictTotal()
    ensures StrictTotal(WasteLess)
  {
    StrLessStrictTotal();
    forall a: WasteKey, b: WasteKey ensures a == b || WasteLess(a, b) || WasteLess(b, a) {
      assert a == (a.0, (a.1.0, a.1.1)) && b == (b.0, (b.1.0, b.1.1));
    }
    forall a: WasteKey, b: WasteKey, c: WasteKey | WasteLess(a, b) && WasteLess(b, c) ensures WasteLess(a, c) {
      WasteLessTransitive(a, b, c);
    }
  }

  lemma {:induction false} WasteLessTransitive(a: WasteKey, b: WasteKey, c: WasteKey)
    requires WasteLess(a, b) && WasteLess(b, c)
    ensures WasteLess(a, c)
  {
    StrLessStrictTotal();
    assert forall x: string, y: string, z: string :: StrLess(x, y) && StrLess(y, z) ==> StrLess(x, z);
    assert forall x: string :: !StrLess(x, x);
  }

  datatype WasteTotals = WasteTotals(
    sessions: nat, triggered: nat, ratioObserved: nat, growthObserved: nat, bothUnavailable: nat)

  predicate Triggered(row: WasteRow) { row.reasons != [] }
  predicate RatioObserved(row: WasteRow) { row.cachedRatio.Some? }
  predicate GrowthObserved(row: WasteRow) { row.inputGrowth.Some? }
  predicate NeitherObserved(row: WasteRow) { row.cachedRatio.None? && row.inputGrowth.None? }

  /** contextWasteTotals */
  method TotalsOf(rows: seq<WasteRow>) returns (t: WasteTotals)
    ensures t == WasteTotals(|rows|, CountOf(Triggered, rows), CountOf(RatioObserved, rows),
                             CountOf(GrowthObserved, rows), CountOf(NeitherObserved, rows))
  {
    t := WasteTotals(|rows|, 0, 0, 0, 0);
    for n := 0 to |rows|
      invariant t == WasteTotals(|rows|, CountOf(Triggered, rows[..n]), CountOf(RatioObserved, rows[..n]),
                                 CountOf(GrowthObserved, rows[..n]), CountOf(NeitherObserved, rows[..n]))
    {
      assert rows[..n + 1][..n] == rows[..n];
      var row := rows[n];
      if row.reasons != [] { t := t.(triggered := t.triggered + 1); }
      if row.cachedRatio.Some? { t := t.(ratioObserved := t.ratioObserved + 1); }
      if row.inputGrowth.Some? { t := t.(growthObserved := t.growthObserved + 1); }
      if row.cachedRatio.None? && row.inputGrowth.None? { t := t.(bothUnavailable := t.bothUnavailable + 1); }
    }
    assert rows[..|rows|] == rows;
  }

  method ContextWasteFromEvents(sc: Scanner, events: seq<Event>, th: Thresholds)
    returns (rows: seq<WasteRow>, totals: WasteTotals, ghost waste: map<string, WasteRow>)
    ensures IsWaste(FilterMap(PointReader(sc), events), th, waste)
    ensures && RowsOf(WasteLess, WasteOrder, waste, rows)
            && totals == WasteTotals(|waste|, |KeysWhere(Triggered, waste)|, |KeysWhere(RatioObserved, waste)|,
                                     |KeysWhere(GrowthObserved, waste)|, |KeysWhere(NeitherObserved, waste)|)
  {
    var sessions := GatherSessions(sc, events, th);
    waste := sessions;
    WasteLessStrictTotal();
    rows := Collect(WasteLess, WasteOrder, sessions);
    totals := TotalsOf(rows);
    HeldCount(sessions, rows);
    CountIsOfKeys(Triggered, sessions, rows);
    CountIsOfKeys(RatioObserved, sessions, rows);
    CountIsOfKeys(GrowthObserved, sessions, rows);
    CountIsOfKeys(NeitherObserved, sessions, rows);
  }

  // ---- when the report is determined ------------------------------------------

  /** A list of session rows the points may be reported by. */
  ghost predicate IsReport(points: seq<TokenPoint>, th: Thresholds, rows: seq<WasteRow>) {
    exists waste :: IsWaste(points, th, waste) && RowsOf(WasteLess, WasteOrder, waste, rows)
  }

  /** No point that carries an input count is earlier than this one, which does too. */
  ghost predicate Earliest(points: seq<TokenPoint>, p: TokenPoint) {
    p in points && p.input.Some? && forall x :: x in points && x.input.Some? ==> !Before(PointStamp(x), PointStamp(p))
  }

  /** The earliest points that carry an input count carry the same one. */
  ghost predicate OneFirst(points: seq<TokenPoint>) {
    forall p, q :: Earliest(points, p) && Earliest(points, q) ==> p.input == q.input
  }

  lemma {:induction false} NoneCarries(points: seq<TokenPoint>)
    requires Inputs(points) == []
    ensures forall p :: p in points ==> p.input.None?
  {
    forall p | p in points ensures p.input.None? {
      if p.input.Some? {
        FilterMapMember(InputOf, points, p.input.value);
      }
    }
  }

  lemma {:induction false} FirstCarrier(points: seq<TokenPoint>) returns (i: nat)
    requires Inputs(points) != []
    ensures i < |points| && points[i].input == Some(Inputs(points)[0])
    ensures forall j :: 0 <= j < i ==> points[j].input.None?
  {
    var n := |points| - 1;
    assert points[..n + 1] == points;
    FilterMapStep(InputOf, points, n);
    if Inputs(points[..n]) == [] {
      i := n;
      NoneCarries(points[..n]);
      assert forall j :: 0 <= j < n ==> points[j] in points[..n];
    } else {
      i := FirstCarrier(points[..n]);
    }
  }

  /** The first count of an arrangement is that of an earliest point. */
  lemma {:induction false} FirstIsEarliest(points: seq<TokenPoint>, sorted: seq<TokenPoint>) returns (p: TokenPoint)
    requires Arranged(points, sorted) && Inputs(sorted) != []
    ensures Earliest(points, p) && p.input == Some(Inputs(sorted)[0])
  {
    var i := FirstCarrier(sorted);
    p := sorted[i];
    SameMembers(sorted, points);
    forall x | x in points && x.input.Some? ensures !Before(PointStamp(x), PointStamp(p)) {
      var j :| 0 <= j < |sorted| && sorted[j] == x;
      BeforeStrictTotal();
      assert j == i || i < j;
    }
  }

  lemma {:induction false} SameMembers<T>(a: seq<T>, b: seq<T>)
    requires multiset(a) == multiset(b)
    ensures |a| == |b| && forall x :: x in a <==> x in b
  {
    forall x ensures x in a <==> x in b {
      assert x in multiset(a) <==> x in multiset(b);
    }
    assert |a| == |multiset(a)| && |b| == |multiset(b)|;
  }

  lemma {:induction false} GreatestForgetsOrder(a: seq<int>, b: seq<int>)
    requires a != [] && b != [] && multiset(a) == multiset(b)
    ensures Greatest(a) == Greatest(b)
  {
    SameMembers(a, b);
  }

  lemma {:induction false} SumsForgetOrder(a: seq<(int, int)>, b: seq<(int, int)>)
    requires multiset(a) == multiset(b)
    ensures SumInput(a) == SumInput(b) && SumCached(a) == SumCached(b)
  {
    SumsAreSums(a);
    SumsAreSums(b);
    SumForgetsOrder((x: (int, int)) => x.0, a, b);
    SumForgetsOrder((x: (int, int)) => x.1, a, b);
  }

  lemma {:induction false} SumsAreSums(a: seq<(int, int)>)
    ensures SumInput(a) == SumOf((x: (int, int)) => x.0, a) && SumCached(a) == SumOf((x: (int, int)) => x.1, a)
  {
    if a != [] {
      SumsAreSums(a[..|a| - 1]);
    }
  }

  /** Two arrangements differ in the row by their first input count alone. */
  lemma {:induction false} RowsDifferByFirst(
      provider: string, tool: string, sessionId: string, a: seq<TokenPoint>, b: seq<TokenPoint>, th: Thresholds)
    requires multiset(a) == multiset(b)
    ensures Inputs(a) == [] <==> Inputs(b) == []
    ensures RowOf(provider, tool, sessionId, a, th) == RowOf(provider, tool, sessionId, b, th)
            <==> Inputs(a) == [] || Inputs(a)[0] == Inputs(b)[0]
  {
    SameMembers(a, b);
    FilterMapMultiset(InputOf, a, b);
    FilterMapMultiset(OverlapOf, a, b);
    SameMembers(Inputs(a), Inputs(b));
    SameMembers(Overlaps(a), Overlaps(b));
    SumsForgetOrder(Overlaps(a), Overlaps(b));
    if Inputs(a) != [] {
      GreatestForgetsOrder(Inputs(a), Inputs(b));
    }
  }

  /** A session's row is the same every time exactly when its earliest input counts agree. */
  lemma {:induction false} RowIsDetermined(points: seq<TokenPoint>, th: Thresholds)
    requires points != []
    ensures (forall a, b :: IsSessionRow(points, th, a) && IsSessionRow(points, th, b) ==> a == b) <==> OneFirst(points)
  {
    if OneFirst(points) {
      forall a, b | IsSessionRow(points, th, a) && IsSessionRow(points, th, b) ensures a == b {
        OneFirstOneRow(points, th, a, b);
      }
    }
    if forall a, b :: IsSessionRow(points, th, a) && IsSessionRow(points, th, b) ==> a == b {
      forall p, q | Earliest(points, p) && Earliest(points, q) ensures p.input == q.input {
        var a := RowFrom(points, th, p);
        var b := RowFrom(points, th, q);
        assert a == b;
      }
    }
  }

  lemma {:induction false} OneFirstOneRow(points: seq<TokenPoint>, th: Thresholds, a: WasteRow, b: WasteRow)
    requires OneFirst(points) && IsSessionRow(points, th, a) && IsSessionRow(points, th, b)
    ensures a == b
  {
    var provider, tool, sessionId := points[0].provider, points[0].tool, points[0].sessionId;
    var s :| Arranged(points, s) && a == RowOf(provider, tool, sessionId, s, th);
    var t :| Arranged(points, t) && b == RowOf(provider, tool, sessionId, t, th);
    RowsDifferByFirst(provider, tool, sessionId, s, t, th);
    if Inputs(s) != [] {
      var p := FirstIsEarliest(points, s);
      var q := FirstIsEarliest(points, t);
    }
  }

  /** A row whose first count is that of a given earliest point. */
  lemma {:induction false} RowFrom(points: seq<TokenPoint>, th: Thresholds, p: TokenPoint) returns (row: WasteRow)
    requires points != [] && Earliest(points, p)
    ensures IsSessionRow(points, th, row) && row.firstInput == p.input
  {
    var sorted := ArrangedFrom(points, p);
    row := RowOf(points[0].provider, points[0].tool, points[0].sessionId, sorted, th);
  }

  lemma {:induction false} ArrangedFrom(points: seq<TokenPoint>, p: TokenPoint) returns (sorted: seq<TokenPoint>)
    requires Earliest(points, p)
    ensures Arranged(points, sorted) && Inputs(sorted) != [] && Some(Inputs(sorted)[0]) == p.input
  {
    var k :| 0 <= k < |points| && points[k] == p;
    var front := [p] + points[..k] + points[k + 1..];
    assert points == points[..k] + [p] + points[k + 1..];
    BeforeStrictTotal();
    SortBySorted(Before, PointStamp, front);
    SortIsStable(Before, PointStamp, front, PointStamp(p));
    sorted := SortBy(Before, PointStamp, front);
    SameMembers(sorted, points);
    FilterMapMember(InputOf, sorted, p.input.value);
    FirstWithKey(PointStamp, front, p);
    LeaderCarries(points, sorted, p);
  }

  /** Where `p` leads the points of its stamp, its count is the first. */
  lemma {:induction false} LeaderCarries(points: seq<TokenPoint>, sorted: seq<TokenPoint>, p: TokenPoint)
    requires Earliest(points, p) && Arranged(points, sorted) && Inputs(sorted) != []
    requires var own := FilterMap(WithKey(PointStamp, PointStamp(p)), sorted); own != [] && own[0] == p
    ensures Some(Inputs(sorted)[0]) == p.input
  {
    var i := FirstCarrier(sorted);
    var q := FirstIsEarliest(points, sorted);
    BeforeStrictTotal();
    SameMembers(sorted, points);
    var f := WithKey(PointStamp, PointStamp(p));
    assert sorted[i].input.Some? && sorted[i] in points;
    EarliestTie(points, sorted, p, i);
    if sorted[i] != p {
      LeaderIsFirst(PointStamp, sorted, p, i);
    }
  }

  lemma {:induction false} EarliestTie(points: seq<TokenPoint>, sorted: seq<TokenPoint>, p: TokenPoint, i: nat)
    requires Earliest(points, p) && Arranged(points, sorted) && i < |sorted| && sorted[i].input.Some?
    requires forall j :: 0 <= j < i ==> sorted[j].input.None?
    ensures PointStamp(sorted[i]) == PointStamp(p)
  {
    BeforeStrictTotal();
    SameMembers(sorted, points);
    var j :| 0 <= j < |sorted| && sorted[j] == p;
    assert sorted[i] in points;
  }

  /** An element that leads those of its key comes before any other of the key. */
  lemma {:induction false} LeaderIsFirst<R, S>(key: R -> S, rows: seq<R>, p: R, i: nat)
    requires i < |rows| && rows[i] != p && key(rows[i]) == key(p)
    requires FilterMap(WithKey(key, key(p)), rows) != [] && FilterMap(WithKey(key, key(p)), rows)[0] == p
    ensures exists j :: 0 <= j < i && rows[j] == p
  {
    var f := WithKey(key, key(p));
    assert rows[..i + 1][..i] == rows[..i] && rows == rows[..i + 1] + rows[i + 1..];
    FilterMapConcat(f, rows[..i + 1], rows[i + 1..]);
    FilterMapStep(f, rows, i);
    assert FilterMap(f, rows[..i]) != [] && FilterMap(f, rows[..i])[0] == p;
    FilterMapMember(f, rows[..i], p);
    var x :| x in rows[..i] && f(x) == Some(p);
    var j :| 0 <= j < i && rows[..i][j] == x;
    assert rows[j] == p;
  }

  lemma {:induction false} FirstWithKey<R, S>(key: R -> S, rows: seq<R>, p: R)
    requires rows != [] && rows[0] == p
    ensures FilterMap(WithKey(key, key(p)), rows) != [] && FilterMap(WithKey(key, key(p)), rows)[0] == p
  {
    var f := WithKey(key, key(p));
    assert rows == [p] + rows[1..] && [p][..0] == [];
    FilterMapConcat(f, [p], rows[1..]);
  }

  /** The points of one session, in any order, give the same row up to the provider and tool
      of the first, where their earliest input counts agree. */
  lemma {:induction false} WasteForgetsOrder(a: seq<TokenPoint>, b: seq<TokenPoint>, th: Thresholds, x: WasteRow, y: WasteRow)
    requires multiset(a) == multiset(b) && OneFirst(a)
    requires IsSessionRow(a, th, x) && IsSessionRow(b, th, y)
    ensures y == x.(provider := b[0].provider, tool := b[0].tool, sessionId := b[0].sessionId)
  {
    var t :| Arranged(b, t) && y == RowOf(b[0].provider, b[0].tool, b[0].sessionId, t, th);
    var row := RowOf(a[0].provider, a[0].tool, a[0].sessionId, t, th);
    assert Arranged(a, t) && IsSessionRow(a, th, row);
    OneFirstOneRow(a, th, x, row);
  }

  lemma {:induction false} RowNamesSession(points: seq<TokenPoint>, th: Thresholds, s: string, row: WasteRow)
    requires IsSessionRow(PointsOf(points, s), th, row)
    ensures row.sessionId == s
  {
    var own := PointsOf(points, s);
    FilterMapMember(OfSession(s), points, own[0]);
    assert own[0] in own;
  }

  lemma {:induction false} WasteHasNoTies(points: seq<TokenPoint>, th: Thresholds, waste: map<string, WasteRow>)
    requires IsWaste(points, th, waste)
    ensures NoTies(WasteOrder, waste)
    ensures forall s :: s in waste ==> waste[s].sessionId == s
  {
    forall s | s in waste ensures waste[s].sessionId == s {
      RowNamesSession(points, th, s, waste[s]);
    }
  }

  /** Every session's earliest input counts agree. */
  ghost predicate AllOneFirst(points: seq<TokenPoint>) {
    forall p :: p in points ==> OneFirst(PointsOf(points, p.sessionId))
  }

  /** The list of session rows is the same every time exactly when, in every session, the
      earliest input counts agree. */
  lemma {:induction false} WasteIsDetermined(points: seq<TokenPoint>, th: Thresholds)
    ensures (forall a, b :: IsReport(points, th, a) && IsReport(points, th, b) ==> a == b) <==> AllOneFirst(points)
  {
    if AllOneFirst(points) {
      forall a, b | IsReport(points, th, a) && IsReport(points, th, b) ensures a == b {
        OneFirstOneReport(points, th, a, b);
      }
    }
    if forall a, b :: IsReport(points, th, a) && IsReport(points, th, b) ==> a == b {
      forall p | p in points ensures OneFirst(PointsOf(points, p.sessionId)) {
        OneReportOneRow(points, th, p.sessionId);
        RowIsDetermined(PointsOf(points, p.sessionId), th);
      }
    }
  }

  lemma {:induction false} OneFirstOneReport(points: seq<TokenPoint>, th: Thresholds, a: seq<WasteRow>, b: seq<WasteRow>)
    requires AllOneFirst(points) && IsReport(points, th, a) && IsReport(points, th, b)
    ensures a == b
  {
    var v :| IsWaste(points, th, v) && RowsOf(WasteLess, WasteOrder, v, a);
    var w :| IsWaste(points, th, w) && RowsOf(WasteLess, WasteOrder, w, b);
    OneFirstOneWaste(points, th, v, w);
    WasteLessStrictTotal();
    WasteHasNoTies(points, th, v);
    SameWithoutTies(WasteLess, WasteOrder, v, a, b);
  }

  lemma {:induction false} OneFirstOneWaste(
      points: seq<TokenPoint>, th: Thresholds, v: map<string, WasteRow>, w: map<string, WasteRow>)
    requires AllOneFirst(points) && IsWaste(points, th, v) && IsWaste(points, th, w)
    ensures v == w
  {
    forall s, x, y | InPoints(points)(s) && RowIn(points, th)(s, x) && RowIn(points, th)(s, y) ensures x == y {
      OneFirstAt(points, s);
      OneFirstOneRow(PointsOf(points, s), th, x, y);
    }
    EachIsUnique(v, w, InPoints(points), RowIn(points, th));
  }

  lemma {:induction false} OneFirstAt(points: seq<TokenPoint>, s: string)
    requires AllOneFirst(points) && HasSession(points, s)
    ensures OneFirst(PointsOf(points, s))
  {
    var p :| p in points && p.sessionId == s;
  }

  /** Where the report is determined, so is the row of each session. */
  lemma {:induction false} OneReportOneRow(points: seq<TokenPoint>, th: Thresholds, s: string)
    requires HasSession(points, s)
    requires forall a, b :: IsReport(points, th, a) && IsReport(points, th, b) ==> a == b
    ensures PointsOf(points, s) != []
    ensures forall x, y :: IsSessionRow(PointsOf(points, s), th, x) && IsSessionRow(PointsOf(points, s), th, y) ==> x == y
  {
    var p :| p in points && p.sessionId == s;
    FilterMapMember(OfSession(s), points, p);
    forall x, y | IsSessionRow(PointsOf(points, s), th, x) && IsSessionRow(PointsOf(points, s), th, y) ensures x == y {
      var a := ReportWith(points, th, s, x);
      var b := ReportWith(points, th, s, y);
      var v :| IsWaste(points, th, v) && Holds(v, a) && s in v && v[s] == x;
      var w :| IsWaste(points, th, w) && Holds(w, b) && s in w && w[s] == y;
      SameListSameRow(points, th, v, w, a, s);
    }
  }

  /** A report in which session `s` has a given row. */
  lemma {:induction false} ReportWith(points: seq<TokenPoint>, th: Thresholds, s: string, row: WasteRow) returns (rows: seq<WasteRow>)
    requires HasSession(points, s)
    requires IsSessionRow(PointsOf(points, s), th, row)
    ensures IsReport(points, th, rows)
    ensures exists waste :: IsWaste(points, th, waste) && Holds(waste, rows) && s in waste && waste[s] == row
  {
    var waste := SomeWaste(points, th);
    RowReplaced(points, th, waste, s, row);
    WasteLessStrictTotal();
    rows := SomeSortedRows(WasteLess, WasteOrder, waste[s := row]);
  }

  lemma {:induction false} RowReplaced(points: seq<TokenPoint>, th: Thresholds, waste: map<string, WasteRow>, s: string, row: WasteRow)
    requires IsWaste(points, th, waste) && s in waste && IsSessionRow(PointsOf(points, s), th, row)
    ensures IsWaste(points, th, waste[s := row])
  {
    EachReplaced(waste, InPoints(points), RowIn(points, th), s, row);
  }

  lemma {:induction false} SameListSameRow(
      points: seq<TokenPoint>, th: Thresholds, v: map<string, WasteRow>, w: map<string, WasteRow>, rows: seq<WasteRow>, s: string)
    requires IsWaste(points, th, v) && IsWaste(points, th, w) && s in v && s in w
    requires Holds(v, rows) && Holds(w, rows)
    ensures v[s] == w[s]
  {
    WasteHasNoTies(points, th, v);
    WasteHasNoTies(points, th, w);
    HeldValue(v, rows, v[s]);
    HeldValue(w, rows, v[s]);
  }

  lemma {:induction false} SomeWaste(points: seq<TokenPoint>, th: Thresholds) returns (waste: map<string, WasteRow>)
    ensures IsWaste(points, th, waste)
  {
    var sessions := set p | p in points :: p.sessionId;
    forall s | s in sessions ensures exists row :: IsSessionRow(PointsOf(points, s), th, row) {
      var p :| p in points && p.sessionId == s;
      FilterMapMember(OfSession(s), points, p);
      SomeRow(PointsOf(points, s), th);
    }
    waste := map s | s in sessions :: var row :| IsSessionRow(PointsOf(points, s), th, row); row;
  }

  lemma {:induction false} SomeRow(points: seq<TokenPoint>, th: Thresholds)
    requires points != []
    ensures exists row :: IsSessionRow(points, th, row)
  {
    BeforeStrictTotal();
    SortBySorted(Before, PointStamp, points);
    var sorted := SortBy(Before, PointStamp, points);
    assert Arranged(points, sorted);
    assert IsSessionRow(points, th, RowOf(points[0].provider, points[0].tool, points[0].sessionId, sorted, th));
  }

  // ---- events whose report is left open ---------------------------------------

  /** An event that carries this input count and nothing else. */
  function InputEvent(env: Envelope, input: int): Event {
    Event(env, map[InputTokenCount := JInt(input)], map[])
  }

  lemma {:induction false} InputPoint(sc: Scanner, env: Envelope, input: int) returns (p: TokenPoint)
    ensures PointReader(sc)(InputEvent(env, input)) == Some(p)
    ensures p.input == Some(input) && p.sessionId == env.sessionId && PointStamp(p) == Stamp(env.occurredAt, env.eventId)
  {
    p := TokenPointOf(sc, InputEvent(env, input)).value;
  }

  /** One event id retained twice at one time, with two input counts: the report may start
      from either. */
  lemma {:induction false} RepeatedEventsTie(sc: Scanner, env: Envelope, th: Thresholds)
    ensures var points := FilterMap(PointReader(sc), [InputEvent(env, 1), InputEvent(env, 2)]);
            exists a, b :: IsReport(points, th, a) && IsReport(points, th, b) && a != b
  {
    var p := InputPoint(sc, env, 1);
    var q := InputPoint(sc, env, 2);
    FilterMapTwo(PointReader(sc), InputEvent(env, 1), InputEvent(env, 2));
    var points := [p, q];
    assert FilterMap(PointReader(sc), [InputEvent(env, 1), InputEvent(env, 2)]) == points;
    FilterMapTwo(OfSession(env.sessionId), p, q);
    assert PointsOf(points, env.sessionId) == points;
    StrLessIrreflexive(env.eventId);
    assert Earliest(points, p) && Earliest(points, q);
    assert p in points && !AllOneFirst(points);
    WasteIsDetermined(points, th);
  }

  // ---- what a row shows -------------------------------------------------------

  /** The ratio is there exactly if overlapping input was counted and is positive, the growth
      exactly with two samples or more and a positive first; each is that quotient, and each
      triggers exactly from its threshold on. */
  lemma {:induction false} RowIsStated(
      provider: string, tool: string, sessionId: string, points: seq<TokenPoint>, th: Thresholds, row: WasteRow)
    requires row == RowOf(provider, tool, sessionId, points, th)
    ensures row.provider == provider && row.tool == tool && row.sessionId == sessionId
    ensures row.tokenPoints == |points|
    ensures (row.firstInput.Some? <==> row.inputSamples > 0) && (row.maxInput.Some? <==> row.inputSamples > 0)
    ensures row.overlapInput.Some? <==> row.overlapCached.Some?
    ensures row.cachedRatio.Some? <==> row.overlapInput.Some? && row.overlapInput.value > 0
    ensures row.cachedRatio.Some? ==>
              row.cachedRatio.value == row.overlapCached.value as real / row.overlapInput.value as real
    ensures row.inputGrowth.Some? <==> row.inputSamples >= 2 && row.firstInput.value > 0
    ensures row.inputGrowth.Some? ==> row.inputGrowth.value == row.maxInput.value as real / row.firstInput.value as real
    ensures "cached_context_ratio" in row.reasons <==> row.cachedRatio.Some? && row.cachedRatio.value >= th.ratio
    ensures "input_token_growth" in row.reasons <==> row.inputGrowth.Some? && row.inputGrowth.value >= th.growth
    ensures forall r :: r in row.reasons ==> r in ["cached_context_ratio", "input_token_growth"]
  {}

  /** What the totals count of a row. */
  lemma {:induction false} CountedIsStated(row: WasteRow)
    ensures Triggered(row) <==> row.reasons != []
    ensures RatioObserved(row) <==> row.cachedRatio.Some?
    ensures GrowthObserved(row) <==> row.inputGrowth.Some?
    ensures NeitherObserved(row) <==> row.cachedRatio.None? && row.inputGrowth.None?
  {}

  /** A token signal of an event, by the names of its attributes and echo keys. */
  lemma {:induction false} PointIsStated(sc: Scanner, e: Event)
    ensures var input := HasKey(e.attributes, InputTokenCount);
            var echo, contract := ObjectAt(e.extensions, EventEcho), ObjectAt(e.extensions, OutcomeContract);
            && (OptionalInt(sc, input).Some? ==> TokenInput(sc, e) == OptionalInt(sc, input))
            && (OptionalInt(sc, input).None? && OptionalInt(sc, At(echo, InputTokens)).Some? ==>
                  TokenInput(sc, e) == OptionalInt(sc, At(echo, InputTokens)))
            && (OptionalInt(sc, input).None? && OptionalInt(sc, At(echo, InputTokens)).None? ==>
                  TokenInput(sc, e) == OptionalInt(sc, At(contract, InputTokens)))
    ensures var cached, count := HasKey(e.attributes, CachedInputTokens), HasKey(e.attributes, CachedInputTokenCount);
            var echo := At(ObjectAt(e.extensions, EventEcho), CacheReadTokens);
            && (OptionalInt(sc, cached).Some? ==> TokenCached(sc, e) == OptionalInt(sc, cached))
            && (OptionalInt(sc, cached).None? && OptionalInt(sc, count).Some? ==>
                  TokenCached(sc, e) == OptionalInt(sc, count))
            && (OptionalInt(sc, cached).None? && OptionalInt(sc, count).None? ==>
                  TokenCached(sc, e) == OptionalInt(sc, echo))
    ensures TokenPointOf(sc, e).Some? <==> TokenInput(sc, e).Some? || TokenCached(sc, e).Some?
    ensures TokenPointOf(sc, e).Some? ==>
              TokenPointOf(sc, e).value
              == TokenPoint(e.env.occurredAt, e.env.eventId, e.env.sessionId, e.env.provider, e.env.tool,
                            TokenInput(sc, e), TokenCached(sc, e))
  {}

  /** The counts a row is made of: the inputs of the points that have one, and the inputs and
      cached counts of those that have both. */
  lemma {:induction false} CountsAreStated(points: seq<TokenPoint>)
    ensures forall n :: n in Inputs(points) <==> exists p :: p in points && p.input == Some(n)
    ensures forall n, c :: (n, c) in Overlaps(points) <==> exists p :: p in points && p.input == Some(n) && p.cached == Some(c)
  {
    forall n ensures n in Inputs(points) <==> exists p :: p in points && p.input == Some(n) {
      FilterMapMember(InputOf, points, n);
    }
    forall n, c ensures (n, c) in Overlaps(points) <==> exists p :: p in points && p.input == Some(n) && p.cached == Some(c) {
      FilterMapMember(OverlapOf, points, (n, c));
      assert forall p :: OverlapOf(p) == Some((n, c)) <==> p.input == Some(n) && p.cached == Some(c);
    }
  }
}

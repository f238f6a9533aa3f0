/** Model scorecards and provider efficiency metrics
    (internal/insights/model_performance.go). float64 is real; the rendering of a
    dimension map to text stays abstract. */
module ModelPerformance {
  import opened Folds
  import opened Prelude
  import opened Ordering
  import opened Canonical
  import opened Signals
  import opened SortedRows

  /** Go's int64(float64): toward zero. */
  function Truncate(r: real): int {
    if r >= 0.0 then r.Floor else -((-r).Floor)
  }

  function ContractInt(sc: Scanner, v: Option<Json>): Option<int> {
    match v
    case Some(JFloat(r)) => Some(Truncate(r))
    case Some(JInt(n)) => Some(n)
    case Some(JStr(s)) => sc.parseInt(s)
    case _ => None
  }

  function ContractFloat(sc: Scanner, v: Option<Json>): Option<real> {
    match v
    case Some(JFloat(r)) => Some(r)
    case Some(JInt(n)) => Some(n as real)
    case Some(JStr(s)) => sc.parseFloat(s)
    case _ => None
  }

  function OrEmpty(s: Option<string>): string {
    if s.Some? then s.value else ""
  }

  // ---- outcome scorecards -----------------------------------------------------

  datatype ModelKey = ModelKey(provider: string, tool: string, model: string)

  datatype Scorecard = Scorecard(
    success: nat, failed: nat, abandoned: nat, retries: nat, errorCodes: map<string, nat>,
    completedTokens: seq<real>, latencies: seq<real>, sources: set<string>)

  const NO_OUTCOMES := Scorecard(0, 0, 0, 0, map[], [], [], {})

  function KeyOf(s: OutcomeSignal): Option<ModelKey> {
    var model := OrEmpty(TextAt(s.contract, Model));
    if model in {"", "unknown"} then None else Some(ModelKey(s.provider, s.tool, model))
  }

  /** contractTokens */
  function ContractTokens(sc: Scanner, contract: Object): Option<real> {
    AddOptionalReal(ContractFloat(sc, HasKey(contract, InputTokens)), ContractFloat(sc, HasKey(contract, OutputTokens)))
  }

  function ListOf<T>(v: Option<T>): seq<T> {
    if v.Some? then [v.value] else []
  }

  datatype OutcomeStatus = Success | Failed | Abandoned | Unreviewed

  function StatusOf(contract: Object): OutcomeStatus {
    var status := OrEmpty(TextAt(contract, Status));
    if status == "success" then Success
    else if status == "failed" then Failed
    else if status == "abandoned" then Abandoned
    else Unreviewed
  }

  function One(b: bool): nat {
    if b then 1 else 0
  }

  predicate IsRetry(sc: Scanner, contract: Object) {
    var attempt := ContractInt(sc, HasKey(contract, RetryAttempt));
    attempt.Some? && attempt.value > 0
  }

  /** What one contract adds to its model's row; an unreviewed status adds nothing. */
  function SampleOf(sc: Scanner, contract: Object): Scorecard {
    var status := StatusOf(contract);
    var source, code := OrEmpty(TextAt(contract, Source)), OrEmpty(TextAt(contract, ErrorCode));
    if status.Unreviewed? then NO_OUTCOMES
    else
      Scorecard(One(status.Success?), One(status.Failed?), One(status.Abandoned?), One(IsRetry(sc, contract)),
                if code == "" then map[] else map[code := 1],
                if status.Success? then ListOf(ContractTokens(sc, contract)) else [],
                ListOf(ContractFloat(sc, HasKey(contract, DurationMs))),
                if source == "" then {} else {source})
  }

  function AddCounts(a: map<string, nat>, b: map<string, nat>): map<string, nat> {
    map k | k in a.Keys + b.Keys :: (if k in a then a[k] else 0) + (if k in b then b[k] else 0)
  }

  function MergeCards(a: Scorecard, b: Scorecard): Scorecard {
    Scorecard(a.success + b.success, a.failed + b.failed, a.abandoned + b.abandoned, a.retries + b.retries,
              AddCounts(a.errorCodes, b.errorCodes), a.completedTokens + b.completedTokens,
              a.latencies + b.latencies, a.sources + b.sources)
  }

  function CardAt(cards: map<ModelKey, Scorecard>, k: ModelKey): Scorecard {
    if k in cards then cards[k] else NO_OUTCOMES
  }

  function Record(sc: Scanner, cards: map<ModelKey, Scorecard>, s: OutcomeSignal): map<ModelKey, Scorecard> {
    match KeyOf(s)
    case None => cards
    case Some(k) => AddAt(MergeCards, cards, k, SampleOf(sc, s.contract))
  }

  function Cards(sc: Scanner, signals: seq<OutcomeSignal>): map<ModelKey, Scorecard> {
    if signals == [] then map[] else Record(sc, Cards(sc, signals[..|signals| - 1]), signals[|signals| - 1])
  }

  lemma {:induction false} MergeCardsUnit(a: Scorecard)
    ensures MergeCards(a, NO_OUTCOMES) == a && MergeCards(NO_OUTCOMES, a) == a
  {
    assert AddCounts(a.errorCodes, map[]) == a.errorCodes == AddCounts(map[], a.errorCodes);
  }

  lemma {:induction false} AddCountsAssociative(a: map<string, nat>, b: map<string, nat>, c: map<string, nat>)
    ensures AddCounts(AddCounts(a, b), c) == AddCounts(a, AddCounts(b, c))
  {}

  lemma {:induction false} MergeCardsAssociative(a: Scorecard, b: Scorecard, c: Scorecard)
    ensures MergeCards(MergeCards(a, b), c) == MergeCards(a, MergeCards(b, c))
  {
    AddCountsAssociative(a.errorCodes, b.errorCodes, c.errorCodes);
    assert (a.completedTokens + b.completedTokens) + c.completedTokens
        == a.completedTokens + (b.completedTokens + c.completedTokens);
    assert (a.latencies + b.latencies) + c.latencies == a.latencies + (b.latencies + c.latencies);
    assert (a.sources + b.sources) + c.sources == a.sources + (b.sources + c.sources);
  }

  /** Two batches of outcomes can be scored apart and merged. */
  lemma {:induction false} CardsMerge(sc: Scanner, xs: seq<OutcomeSignal>, ys: seq<OutcomeSignal>)
    ensures Cards(sc, xs + ys) == MergeMaps(MergeCards, Cards(sc, xs), Cards(sc, ys))
  {
    if ys == [] {
      assert xs + ys == xs;
    } else {
      var prefix, last := ys[..|ys| - 1], ys[|ys| - 1];
      assert (xs + ys)[..|xs + ys| - 1] == xs + prefix;
      CardsMerge(sc, xs, prefix);
      match KeyOf(last)
      case None =>
      case Some(k) =>
        var a, b, sample := Cards(sc, xs), Cards(sc, prefix), SampleOf(sc, last.contract);
        MergeCardsAssociative(CardAt(a, k), CardAt(b, k), sample);
        AddAtMerges(MergeCards, a, b, k, sample);
    }
  }

  /** accumulateContracts */
  method AccumulateContracts(sc: Scanner, events: seq<Event>) returns (cards: map<ModelKey, Scorecard>)
    ensures cards == Cards(sc, FilterMap(OutcomeOf, events))
  {
    cards := map[];
    for n := 0 to |events|
      invariant cards == Cards(sc, FilterMap(OutcomeOf, events[..n]))
    {
      CardsStep(sc, events, n);
      var signal := OutcomeOf(events[n]);
      if signal.Some? {
        cards := AccumulateContract(sc, cards, signal.value);
      }
    }
    assert events[..|events|] == events;
  }

  method AccumulateContract(sc: Scanner, cards: map<ModelKey, Scorecard>, s: OutcomeSignal)
    returns (cards': map<ModelKey, Scorecard>)
    ensures cards' == Record(sc, cards, s)
  {
    cards' := cards;
    var key := KeyOf(s);
    if key.Some? {
      var row := CardAt(cards, key.value);
      row := ApplyContract(sc, row, s.contract);
      CardAdded(cards, key.value, SampleOf(sc, s.contract));
      cards' := cards[key.value := row];
    }
  }

  lemma {:induction false} CardAdded(cards: map<ModelKey, Scorecard>, k: ModelKey, sample: Scorecard)
    ensures AddAt(MergeCards, cards, k, sample) == cards[k := MergeCards(CardAt(cards, k), sample)]
  {
    MergeCardsUnit(sample);
  }

  lemma {:induction false} CardsStep(sc: Scanner, events: seq<Event>, n: nat)
    requires n < |events|
    ensures var before := Cards(sc, FilterMap(OutcomeOf, events[..n]));
            Cards(sc, FilterMap(OutcomeOf, events[..n + 1]))
            == match OutcomeOf(events[n]) case Some(s) => Record(sc, before, s) case None => before
  {
    var before := FilterMap(OutcomeOf, events[..n]);
    FilterMapStep(OutcomeOf, events, n);
    match OutcomeOf(events[n])
    case Some(s) => assert (before + [s])[..|before|] == before;
    case None => assert before + [] == before;
  }

  method ApplyContract(sc: Scanner, card: Scorecard, contract: Object) returns (row: Scorecard)
    ensures row == MergeCards(card, SampleOf(sc, contract))
  {
    var applied;
    row, applied := ApplyOutcomeStatus(sc, card, contract);
    if applied {
      row := RecordContractMeta(sc, row, contract);
    } else {
      MergeCardsUnit(card);
    }
  }

  method ApplyOutcomeStatus(sc: Scanner, card: Scorecard, contract: Object) returns (row: Scorecard, applied: bool)
    ensures applied <==> !StatusOf(contract).Unreviewed?
    ensures !applied ==> row == card
    ensures applied ==>
              row == card.(success := card.success + SampleOf(sc, contract).success,
                           failed := card.failed + SampleOf(sc, contract).failed,
                           abandoned := card.abandoned + SampleOf(sc, contract).abandoned,
                           completedTokens := card.completedTokens + SampleOf(sc, contract).completedTokens)
  {
    row, applied := card, true;
    match StatusOf(contract)
    case Success =>
      row := row.(success := row.success + 1);
      var tokens := ContractTokens(sc, contract);
      if tokens.Some? {
        row := row.(completedTokens := row.completedTokens + [tokens.value]);
      }
    case Failed => row := row.(failed := row.failed + 1);
    case Abandoned => row := row.(abandoned := row.abandoned + 1);
    case Unreviewed => applied := false;
  }

  method RecordContractMeta(sc: Scanner, card: Scorecard, contract: Object) returns (row: Scorecard)
    requires !StatusOf(contract).Unreviewed?
    ensures row == card.(retries := card.retries + SampleOf(sc, contract).retries,
                         errorCodes := AddCounts(card.errorCodes, SampleOf(sc, contract).errorCodes),
                         latencies := card.latencies + SampleOf(sc, contract).latencies,
                         sources := card.sources + SampleOf(sc, contract).sources)
  {
    row := card;
    var source := OrEmpty(TextAt(contract, Source));
    if source != "" {
      row := row.(sources := row.sources + {source});
    }
    var code := OrEmpty(TextAt(contract, ErrorCode));
    if code != "" {
      row := row.(errorCodes := row.errorCodes[code := (if code in row.errorCodes then row.errorCodes[code] else 0) + 1]);
    }
    var attempt := ContractInt(sc, HasKey(contract, RetryAttempt));
    if attempt.Some? && attempt.value > 0 {
      row := row.(retries := row.retries + 1);
    }
    var duration := ContractFloat(sc, HasKey(contract, DurationMs));
    if duration.Some? {
      row := row.(latencies := row.latencies + [duration.value]);
    }
    CountOnce(card.errorCodes, code);
    assert row.sources == card.sources + if source == "" then {} else {source};
    assert row.latencies == card.latencies + ListOf(duration);
  }

  lemma {:induction false} CountOnce(counts: map<string, nat>, code: string)
    ensures AddCounts(counts, map[]) == counts
    ensures AddCounts(counts, map[code := 1]) == counts[code := (if code in counts then counts[code] else 0) + 1]
  {}

  // ---- efficiency metrics -----------------------------------------------------

  datatype Numbers = Numbers(
    sampleCount: Option<int>, total: Option<real>, value: Option<int>, min: Option<real>, max: Option<real>)

  const NO_NUMBERS := Numbers(None, None, None, None, None)

  datatype Summary = Summary(
    name: string, family: string, provider: string, tool: string, model: string,
    kind: string, unit: string, scope: string, dimensions: Object, numbers: Numbers)

  /** performanceSummary */
  function SummaryOf(sc: Scanner, s: MetricSignal): Option<Summary> {
    var m := s.metric;
    var name, family, kind := OrEmpty(TextAt(m, Name)), OrEmpty(TextAt(m, Family)), OrEmpty(TextAt(m, Kind));
    if name == "" || family == "" || kind !in {"histogram", "sum"} then None
    else
      var raw := ObjectAt(m, Dimensions);
      Some(Summary(name, family, s.provider, s.tool, s.model, kind,
                   OrEmpty(TextAt(m, Unit)), OrEmpty(TextAt(m, Scope)),
                   if raw.Some? then raw.value - {Model} else map[],
                   Numbers(ContractInt(sc, HasKey(m, SampleCount)), ContractFloat(sc, HasKey(m, Sum)),
                           ContractInt(sc, HasKey(m, Value)), ContractFloat(sc, HasKey(m, Min)),
                           ContractFloat(sc, HasKey(m, Max)))))
  }

  /** mergeDeltaPerformance */
  function MergeNumbers(a: Numbers, b: Numbers): Numbers {
    Numbers(AddOptional(a.sampleCount, b.sampleCount), AddOptionalReal(a.total, b.total),
            AddOptional(a.value, b.value), MinOptional(a.min, b.min), MaxOptional(a.max, b.max))
  }

  datatype MetricKey = MetricKey(
    provider: string, tool: string, model: string, name: string, unit: string, kind: string,
    scope: string, temporality: int, dimensions: string)

  /** One accumulator: its summary and the latest sample's stamp. */
  datatype MetricRow = MetricRow(summary: Summary, temporality: int, latest: Stamp)

  datatype Sample = Sample(key: MetricKey, row: MetricRow)

  /** An event's sample, if it carries a reviewed metric. `dims` renders a dimension map. */
  function SampleRow(sc: Scanner, dims: Object -> string, s: MetricSignal): Option<Sample> {
    match SummaryOf(sc, s)
    case None => None
    case Some(m) =>
      var t := ContractInt(sc, HasKey(s.metric, AggregationTemporality));
      var temporality := if t.Some? then t.value else 0;
      Some(Sample(MetricKey(m.provider, m.tool, m.model, m.name, m.unit, m.kind, m.scope, temporality, dims(m.dimensions)),
                  MetricRow(m, temporality, Stamp(s.occurredAt, s.eventId))))
  }

  function LaterStamp(a: Stamp, b: Stamp): Stamp {
    if Before(a, b) then b else a
  }

  /** accumulatePerformanceMetric on an existing row: delta samples add up, any
      other sample replaces the row when it is later. */
  function MergeRow(row: MetricRow, next: MetricRow): MetricRow {
    if row.temporality == 1 then
      row.(summary := row.summary.(numbers := MergeNumbers(row.summary.numbers, next.summary.numbers)),
           latest := LaterStamp(row.latest, next.latest))
    else if Before(row.latest, next.latest) then next
    else row
  }

  function Accumulate(rows: map<MetricKey, MetricRow>, s: Sample): map<MetricKey, MetricRow> {
    AddAt(MergeRow, rows, s.key, s.row)
  }

  function MetricRows(samples: seq<Sample>): map<MetricKey, MetricRow> {
    if samples == [] then map[] else Accumulate(MetricRows(samples[..|samples| - 1]), samples[|samples| - 1])
  }

  /** The key repeats every label of the row but the family and the dimensions, which it
      only renders. */
  predicate KeyNames(k: MetricKey, row: MetricRow) {
    && row.temporality == k.temporality
    && row.summary.provider == k.provider && row.summary.tool == k.tool && row.summary.model == k.model
    && row.summary.name == k.name && row.summary.unit == k.unit && row.summary.kind == k.kind
    && row.summary.scope == k.scope
  }

  ghost predicate Keyed(samples: seq<Sample>) {
    forall s :: s in samples ==> KeyNames(s.key, s.row)
  }

  lemma {:induction false} RowsKeepTemporality(samples: seq<Sample>)
    requires Keyed(samples)
    ensures forall k :: k in MetricRows(samples) ==> MetricRows(samples)[k].temporality == k.temporality
  {
    if samples != [] {
      RowsKeepTemporality(samples[..|samples| - 1]);
    }
  }

  lemma {:induction false} MergeRowAssociative(a: MetricRow, b: MetricRow, c: MetricRow)
    requires a.temporality == b.temporality == c.temporality
    ensures MergeRow(MergeRow(a, b), c) == MergeRow(a, MergeRow(b, c))
  {
    BeforeStrictTotal();
  }

  /** Two batches of metrics can be accumulated apart and merged. */
  lemma {:induction false} MetricRowsMerge(xs: seq<Sample>, ys: seq<Sample>)
    requires Keyed(xs) && Keyed(ys)
    ensures MetricRows(xs + ys) == MergeMaps(MergeRow, MetricRows(xs), MetricRows(ys))
  {
    if ys == [] {
      assert xs + ys == xs;
    } else {
      var prefix, last := ys[..|ys| - 1], ys[|ys| - 1];
      assert (xs + ys)[..|xs + ys| - 1] == xs + prefix;
      MetricRowsMerge(xs, prefix);
      RowsKeepTemporality(xs);
      RowsKeepTemporality(prefix);
      var a, b := MetricRows(xs), MetricRows(prefix);
      if last.key in a && last.key in b {
        MergeRowAssociative(a[last.key], b[last.key], last.row);
      }
      AddAtMerges(MergeRow, a, b, last.key, last.row);
    }
  }

  /** A cumulative row is the latest sample of its key. */
  lemma {:induction false} CumulativeRowIsLatest(samples: seq<Sample>, k: MetricKey)
    requires Keyed(samples) && k.temporality != 1
    ensures k in MetricRows(samples) ==> Sample(k, MetricRows(samples)[k]) in samples
    ensures forall s :: s in samples && s.key == k ==>
              k in MetricRows(samples) && !Before(MetricRows(samples)[k].latest, s.row.latest)
  {
    BeforeStrictTotal();
    if samples != [] {
      var prefix, last := samples[..|samples| - 1], samples[|samples| - 1];
      assert samples == prefix + [last];
      CumulativeRowIsLatest(prefix, k);
      RowsKeepTemporality(prefix);
      forall s | s in samples && s.key == k
        ensures k in MetricRows(samples) && !Before(MetricRows(samples)[k].latest, s.row.latest)
      {
        assert s in prefix || s == last;
      }
    }
  }

  /** With distinct stamps the latest sample, hence the row, does not depend on order either. */
  lemma {:induction false} CumulativeForgetsOrder(xs: seq<Sample>, ys: seq<Sample>, k: MetricKey)
    requires Keyed(xs) && (forall s :: s in xs <==> s in ys) && k.temporality != 1
    requires forall a, b :: a in xs && b in xs && a.key == b.key && a.row.latest == b.row.latest ==> a == b
    ensures k in MetricRows(xs) <==> k in MetricRows(ys)
    ensures k in MetricRows(xs) ==> MetricRows(xs)[k] == MetricRows(ys)[k]
  {
    BeforeStrictTotal();
    CumulativeRowIsLatest(xs, k);
    CumulativeRowIsLatest(ys, k);
    if k in MetricRows(xs) {
      var a := Sample(k, MetricRows(xs)[k]);
      assert a in ys;
      var b := Sample(k, MetricRows(ys)[k]);
      assert b in xs;
      assert a.row.latest == b.row.latest;
    }
    if k in MetricRows(ys) {
      assert Sample(k, MetricRows(ys)[k]) in xs;
    }
  }

  function MetricReader(sc: Scanner, dims: Object -> string): Event -> Option<Sample> {
    (e: Event) => match MetricOf(e) case Some(s) => SampleRow(sc, dims, s) case None => None
  }

  /** The loop over the events. */
  method GatherMetrics(sc: Scanner, dims: Object -> string, events: seq<Event>)
    returns (rows: map<MetricKey, MetricRow>)
    ensures rows == MetricRows(FilterMap(MetricReader(sc, dims), events))
  {
    rows := map[];
    for n := 0 to |events|
      invariant rows == MetricRows(FilterMap(MetricReader(sc, dims), events[..n]))
    {
      MetricRowsStep(sc, dims, events, n);
      var sample := MetricReader(sc, dims)(events[n]);
      if sample.Some? {
        var s := sample.value;
        if s.key !in rows {
          rows := rows[s.key := s.row];
        } else {
          rows := rows[s.key := MergeRow(rows[s.key], s.row)];
        }
      }
    }
    assert events[..|events|] == events;
  }

  lemma {:induction false} MetricRowsStep(sc: Scanner, dims: Object -> string, events: seq<Event>, n: nat)
    requires n < |events|
    ensures var before := MetricRows(FilterMap(MetricReader(sc, dims), events[..n]));
            MetricRows(FilterMap(MetricReader(sc, dims), events[..n + 1]))
            == match MetricReader(sc, dims)(events[n]) case Some(s) => Accumulate(before, s) case None => before
  {
    var before := FilterMap(MetricReader(sc, dims), events[..n]);
    FilterMapStep(MetricReader(sc, dims), events, n);
    match MetricReader(sc, dims)(events[n])
    case Some(s) => assert (before + [s])[..|before|] == before;
    case None => assert before + [] == before;
  }

  /** Every sample an event yields carries the labels of its key. */
  lemma {:induction false} SamplesAreKeyed(sc: Scanner, dims: Object -> string, events: seq<Event>)
    ensures Keyed(FilterMap(MetricReader(sc, dims), events))
  {
    forall s | s in FilterMap(MetricReader(sc, dims), events) ensures KeyNames(s.key, s.row) {
      FilterMapMember(MetricReader(sc, dims), events, s);
    }
  }

  // ---- the summaries ----------------------------------------------------------

  datatype SummaryRow = SummaryRow(summary: Summary, average: Option<real>)

  /** The mean, where the samples carry a positive count and a sum. */
  function AverageOf(n: Numbers): Option<real> {
    if n.sampleCount.Some? && n.total.Some? && n.sampleCount.value > 0
    then Some(n.total.value / n.sampleCount.value as real)
    else None
  }

  function Summaries(rows: map<MetricKey, MetricRow>): map<MetricKey, SummaryRow> {
    map k | k in rows :: SummaryRow(rows[k].summary, AverageOf(rows[k].summary.numbers))
  }

  /** The text the summaries are sorted by: unlike the key, without unit, kind and scope. */
  function SummaryOrder(dims: Object -> string): SummaryRow -> string {
    (r: SummaryRow) =>
      r.summary.provider + "\0" + r.summary.tool + "\0" + r.summary.family + "\0" + r.summary.name + "\0" + r.summary.model
      + dims(r.summary.dimensions)
  }

  method PerformanceMetricsFromEvents(sc: Scanner, dims: Object -> string, events: seq<Event>)
    returns (summaries: seq<SummaryRow>)
    ensures RowsOf(StrLess, SummaryOrder(dims), Summaries(MetricRows(FilterMap(MetricReader(sc, dims), events))), summaries)
  {
    var rows := GatherMetrics(sc, dims, events);
    StrLessStrictTotal();
    summaries := Collect(StrLess, SummaryOrder(dims), Summaries(rows));
  }
}

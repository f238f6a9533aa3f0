/** What a model's scorecard counts, and how the scorecards are listed and ranked
    (internal/insights/model_performance.go). */
module Scorecards {
  import opened Prelude
  import opened Ordering
  import opened Canonical
  import opened Signals
  import opened SortedRows
  import opened ModelPerformance
  import Percentile

  // ---- what a card counts -----------------------------------------------------

  /** The contracts reported for a model, in order. */
  function ContractsOf(signals: seq<OutcomeSignal>, k: ModelKey): seq<Object> {
    FilterMap((s: OutcomeSignal) => if KeyOf(s) == Some(k) then Some(s.contract) else None, signals)
  }

  predicate Reviewed(c: Object) { !StatusOf(c).Unreviewed? }

  function InStatus(status: OutcomeStatus): Object -> bool {
    (c: Object) => StatusOf(c) == status
  }

  function Retried(sc: Scanner): Object -> bool {
    (c: Object) => Reviewed(c) && IsRetry(sc, c)
  }

  function Coded(code: string): Object -> bool {
    (c: Object) => Reviewed(c) && OrEmpty(TextAt(c, ErrorCode)) == code
  }

  function From(source: string): Object -> bool {
    (c: Object) => Reviewed(c) && OrEmpty(TextAt(c, Source)) == source
  }

  function TokensOf(sc: Scanner): Object -> Option<real> {
    (c: Object) => if StatusOf(c).Success? then ContractTokens(sc, c) else None
  }

  function LatencyOf(sc: Scanner): Object -> Option<real> {
    (c: Object) => if Reviewed(c) then ContractFloat(sc, HasKey(c, DurationMs)) else None
  }

  /** The outcomes of a card are those of its contracts. */
  ghost predicate CountsOutcomes(sc: Scanner, own: seq<Object>, card: Scorecard) {
    && card.success == CountOf(InStatus(Success), own)
    && card.failed == CountOf(InStatus(Failed), own)
    && card.abandoned == CountOf(InStatus(Abandoned), own)
    && card.retries == CountOf(Retried(sc), own)
  }

  /** ... its lists hold what the contracts measure, in order. */
  ghost predicate ListsMeasures(sc: Scanner, own: seq<Object>, card: Scorecard) {
    card.completedTokens == FilterMap(TokensOf(sc), own) && card.latencies == FilterMap(LatencyOf(sc), own)
  }

  /** ... and its codes and sources are theirs, each code as often as reported. */
  ghost predicate CountsCodes(own: seq<Object>, card: Scorecard) {
    && (forall code :: (if code in card.errorCodes then card.errorCodes[code] else 0)
                       == if code == "" then 0 else CountOf(Coded(code), own))
    && (forall code :: code in card.errorCodes ==> card.errorCodes[code] > 0)
    && forall source :: source in card.sources <==> source != "" && CountOf(From(source), own) > 0
  }

  lemma {:induction false} CountStep<R>(p: R -> bool, rows: seq<R>, r: R)
    ensures CountOf(p, rows + [r]) == CountOf(p, rows) + if p(r) then 1 else 0
  {
    assert (rows + [r])[..|rows|] == rows;
  }

  lemma {:induction false} OutcomesStep(sc: Scanner, own: seq<Object>, card: Scorecard, c: Object)
    requires CountsOutcomes(sc, own, card)
    ensures CountsOutcomes(sc, own + [c], MergeCards(card, SampleOf(sc, c)))
  {
    CountStep(InStatus(Success), own, c);
    CountStep(InStatus(Failed), own, c);
    CountStep(InStatus(Abandoned), own, c);
    CountStep(Retried(sc), own, c);
  }

  lemma {:induction false} MeasuresStep(sc: Scanner, own: seq<Object>, card: Scorecard, c: Object)
    requires ListsMeasures(sc, own, card)
    ensures ListsMeasures(sc, own + [c], MergeCards(card, SampleOf(sc, c)))
  {
    FilterMapSnoc(TokensOf(sc), own, c);
    FilterMapSnoc(LatencyOf(sc), own, c);
  }

  lemma {:induction false} CodesStep(sc: Scanner, own: seq<Object>, card: Scorecard, c: Object)
    requires CountsCodes(own, card)
    ensures CountsCodes(own + [c], MergeCards(card, SampleOf(sc, c)))
  {
    var after := MergeCards(card, SampleOf(sc, c));
    forall code
      ensures (if code in after.errorCodes then after.errorCodes[code] else 0)
              == if code == "" then 0 else CountOf(Coded(code), own + [c])
      ensures code in after.errorCodes ==> after.errorCodes[code] > 0
    {
      CountStep(Coded(code), own, c);
    }
    forall source ensures source in after.sources <==> source != "" && CountOf(From(source), own + [c]) > 0 {
      CountStep(From(source), own, c);
    }
  }

  /** A model has a card exactly if a contract names it, and the card counts its contracts. */
  lemma {:induction false} CardIsCounted(sc: Scanner, signals: seq<OutcomeSignal>, k: ModelKey)
    ensures k in Cards(sc, signals) <==> ContractsOf(signals, k) != []
    ensures CountsOutcomes(sc, ContractsOf(signals, k), CardAt(Cards(sc, signals), k))
    ensures ListsMeasures(sc, ContractsOf(signals, k), CardAt(Cards(sc, signals), k))
    ensures CountsCodes(ContractsOf(signals, k), CardAt(Cards(sc, signals), k))
  {
    if signals != [] {
      var front, last := signals[..|signals| - 1], signals[|signals| - 1];
      var own, card := ContractsOf(front, k), CardAt(Cards(sc, front), k);
      CardIsCounted(sc, front, k);
      if KeyOf(last) == Some(k) {
        assert ContractsOf(signals, k) == own + [last.contract];
        MergeCardsUnit(SampleOf(sc, last.contract));
        assert CardAt(Cards(sc, signals), k) == MergeCards(card, SampleOf(sc, last.contract));
        OutcomesStep(sc, own, card, last.contract);
        MeasuresStep(sc, own, card, last.contract);
        CodesStep(sc, own, card, last.contract);
      } else {
        assert ContractsOf(signals, k) == own;
      }
    }
  }

  // ---- the rates --------------------------------------------------------------

  function SampleSize(c: Scorecard): nat {
    c.success + c.failed + c.abandoned
  }

  /** A retry is of a contract that was counted. */
  predicate Sound(c: Scorecard) { c.retries <= SampleSize(c) }

  lemma {:induction false} ReviewedAreCounted(sc: Scanner, own: seq<Object>)
    ensures CountOf(InStatus(Success), own) + CountOf(InStatus(Failed), own) + CountOf(InStatus(Abandoned), own)
            == CountOf(Reviewed, own)
    ensures CountOf(Retried(sc), own) <= CountOf(Reviewed, own)
  {
    if own != [] {
      ReviewedAreCounted(sc, own[..|own| - 1]);
      var status := StatusOf(own[|own| - 1]);
      assert status == Success || status == Failed || status == Abandoned || status == Unreviewed;
    }
  }

  lemma {:induction false} CardsAreSound(sc: Scanner, signals: seq<OutcomeSignal>, k: ModelKey)
    requires k in Cards(sc, signals)
    ensures Sound(Cards(sc, signals)[k])
    ensures SampleSize(Cards(sc, signals)[k]) == CountOf(Reviewed, ContractsOf(signals, k))
  {
    CardIsCounted(sc, signals, k);
    ReviewedAreCounted(sc, ContractsOf(signals, k));
  }

  function RetryRate(c: Scorecard): Option<real>
    requires Sound(c)
  {
    if c.retries == 0 then None else Some(c.retries as real / SampleSize(c) as real)
  }

  function Sum(values: seq<real>): real {
    if values == [] then 0.0 else Sum(values[..|values| - 1]) + values[|values| - 1]
  }

  function Mean(values: seq<real>): Option<real> {
    if values == [] then None else Some(Sum(values) / |values| as real)
  }

  /** A rate is shown exactly if a counted contract was a retry, and is a fraction. */
  lemma {:induction false} RateIsFraction(sc: Scanner, signals: seq<OutcomeSignal>, k: ModelKey)
    requires k in Cards(sc, signals)
    ensures Sound(Cards(sc, signals)[k])
    ensures RetryRate(Cards(sc, signals)[k]).Some? <==> CountOf(Retried(sc), ContractsOf(signals, k)) > 0
    ensures RetryRate(Cards(sc, signals)[k]).Some? ==> 0.0 < RetryRate(Cards(sc, signals)[k]).value <= 1.0
  {
    CardIsCounted(sc, signals, k);
    CardsAreSound(sc, signals, k);
    var card := Cards(sc, signals)[k];
    if card.retries > 0 {
      Fraction(card.retries as real, SampleSize(card) as real);
    }
  }

  lemma {:induction false} Fraction(a: real, b: real)
    requires 0.0 < a <= b
    ensures 0.0 < a / b <= 1.0
  {}

  // ---- the report -------------------------------------------------------------

  datatype ModelScorecard = ModelScorecard(
    key: ModelKey, sampleSize: nat, success: nat, failed: nat, abandoned: nat, retryRate: Option<real>,
    errorCodes: map<string, nat>, tokensPerCompletedTask: Option<real>,
    latencyP50: Option<real>, latencyP95: Option<real>, sources: set<string>)

  function PercentileOf(values: seq<real>, p: real): Option<real>
    requires 0.0 <= p <= 1.0
  {
    if values == [] then None
    else
      Percentile.RankInSpan(|values|, p);
      Some(Percentile.At(Percentile.Sorted(values), Percentile.Rank(|values|, p)))
  }

  function Rendered(k: ModelKey, c: Scorecard): ModelScorecard
    requires Sound(c)
  {
    ModelScorecard(k, SampleSize(c), c.success, c.failed, c.abandoned, RetryRate(c), c.errorCodes,
                   Mean(c.completedTokens), PercentileOf(c.latencies, 0.50), PercentileOf(c.latencies, 0.95), c.sources)
  }

  ghost predicate AllSound(cards: map<ModelKey, Scorecard>) {
    forall k :: k in cards ==> Sound(cards[k])
  }

  ghost function Renderings(cards: map<ModelKey, Scorecard>): map<ModelKey, ModelScorecard>
    requires AllSound(cards)
  {
    map k | k in cards :: Rendered(k, cards[k])
  }

  function Joined(k: ModelKey): string {
    k.provider + "\0" + k.tool + "\0" + k.model
  }

  function CardOrder(card: ModelScorecard): string { Joined(card.key) }

  method MeanOf(values: seq<real>) returns (mean: Option<real>)
    ensures mean == Mean(values)
  {
    if values == [] { return None; }
    var sum := 0.0;
    for n := 0 to |values|
      invariant sum == Sum(values[..n])
    {
      assert values[..n + 1][..n] == values[..n];
      sum := sum + values[n];
    }
    assert values[..|values|] == values;
    mean := Some(sum / |values| as real);
  }

  method Render(k: ModelKey, c: Scorecard) returns (card: ModelScorecard)
    requires Sound(c)
    ensures card == Rendered(k, c)
  {
    var sample := c.success + c.failed + c.abandoned;
    var rate := None;
    if c.retries > 0 {
      rate := Some(c.retries as real / sample as real);
    }
    var mean := MeanOf(c.completedTokens);
    var p50 := Percentile.Percentile(c.latencies, 0.50);
    var p95 := Percentile.Percentile(c.latencies, 0.95);
    card := ModelScorecard(k, sample, c.success, c.failed, c.abandoned, rate, c.errorCodes, mean, p50, p95, c.sources);
  }

  method RenderAll(cards: map<ModelKey, Scorecard>) returns (rows: map<ModelKey, ModelScorecard>)
    requires AllSound(cards)
    ensures rows == Renderings(cards)
  {
    rows := map[];
    var pending := cards.Keys;
    while pending != {}
      invariant pending <= cards.Keys && rows.Keys == cards.Keys - pending
      invariant forall k :: k in rows ==> rows[k] == Rendered(k, cards[k])
      decreases |pending|
    {
      var k := Pick(pending);
      var card := Render(k, cards[k]);
      rows := rows[k := card];
      pending := pending - {k};
    }
  }

  /** scorecardsFromAccumulators */
  method ScorecardsFromAccumulators(cards: map<ModelKey, Scorecard>) returns (models: seq<ModelScorecard>)
    requires AllSound(cards)
    ensures RowsOf(StrLess, CardOrder, Renderings(cards), models)
  {
    var rows := RenderAll(cards);
    StrLessStrictTotal();
    models := Collect(StrLess, CardOrder, rows);
  }

  /** Two contracts that name models of one joined text. */
  predicate JoinAlike(a: OutcomeSignal, b: OutcomeSignal) {
    KeyOf(a).Some? && KeyOf(b).Some? && Joined(KeyOf(a).value) == Joined(KeyOf(b).value)
  }

  /** The list of scorecards is the same every time exactly when no two contracts name
      models of which provider, tool and model join to one text. */
  lemma {:induction false} ScorecardsAreDetermined(sc: Scanner, signals: seq<OutcomeSignal>)
    ensures AllSound(Cards(sc, signals))
    ensures Determined(StrLess, CardOrder, Renderings(Cards(sc, signals)))
            <==> forall a, b :: a in signals && b in signals && JoinAlike(a, b) ==> KeyOf(a) == KeyOf(b)
  {
    forall k | k in Cards(sc, signals) ensures Sound(Cards(sc, signals)[k]) {
      CardsAreSound(sc, signals, k);
    }
    StrLessStrictTotal();
    RowsAreDetermined(StrLess, CardOrder, Renderings(Cards(sc, signals)));
    if NoTies(CardOrder, Renderings(Cards(sc, signals))) {
      forall a, b | a in signals && b in signals && JoinAlike(a, b) ensures KeyOf(a) == KeyOf(b) {
        AlikeIsTied(sc, signals, a, b);
      }
    }
    if forall a, b :: a in signals && b in signals && JoinAlike(a, b) ==> KeyOf(a) == KeyOf(b) {
      UnlikeIsUntied(sc, signals);
    }
  }

  lemma {:induction false} AlikeIsTied(sc: Scanner, signals: seq<OutcomeSignal>, a: OutcomeSignal, b: OutcomeSignal)
    requires AllSound(Cards(sc, signals)) && NoTies(CardOrder, Renderings(Cards(sc, signals)))
    requires a in signals && b in signals && JoinAlike(a, b)
    ensures KeyOf(a) == KeyOf(b)
  {
    NamedHasCard(sc, signals, a);
    NamedHasCard(sc, signals, b);
    var rows := Renderings(Cards(sc, signals));
    assert rows[KeyOf(a).value].key == KeyOf(a).value && rows[KeyOf(b).value].key == KeyOf(b).value;
  }

  lemma {:induction false} UnlikeIsUntied(sc: Scanner, signals: seq<OutcomeSignal>)
    requires AllSound(Cards(sc, signals))
    requires forall a, b :: a in signals && b in signals && JoinAlike(a, b) ==> KeyOf(a) == KeyOf(b)
    ensures NoTies(CardOrder, Renderings(Cards(sc, signals)))
  {
    var rows := Renderings(Cards(sc, signals));
    forall k, l | k in rows && l in rows && CardOrder(rows[k]) == CardOrder(rows[l]) ensures rows[k] == rows[l] {
      CardIsNamed(sc, signals, k);
      CardIsNamed(sc, signals, l);
      var a :| a in signals && KeyOf(a) == Some(k);
      var b :| b in signals && KeyOf(b) == Some(l);
      assert JoinAlike(a, b);
    }
  }

  lemma {:induction false} NamedHasCard(sc: Scanner, signals: seq<OutcomeSignal>, s: OutcomeSignal)
    requires s in signals && KeyOf(s).Some?
    ensures KeyOf(s).value in Cards(sc, signals)
  {
    var k := KeyOf(s).value;
    CardIsCounted(sc, signals, k);
    FilterMapMember((s: OutcomeSignal) => if KeyOf(s) == Some(k) then Some(s.contract) else None, signals, s.contract);
  }

  lemma {:induction false} CardIsNamed(sc: Scanner, signals: seq<OutcomeSignal>, k: ModelKey)
    requires k in Cards(sc, signals)
    ensures exists s :: s in signals && KeyOf(s) == Some(k)
  {
    CardIsCounted(sc, signals, k);
    var c := ContractsOf(signals, k)[0];
    FilterMapMember((s: OutcomeSignal) => if KeyOf(s) == Some(k) then Some(s.contract) else None, signals, c);
  }

  // ---- the ranking ------------------------------------------------------------

  const MIN_RANKING_SAMPLE_SIZE := 10

  function SuccessRate(card: ModelScorecard): real {
    if card.sampleSize == 0 then 0.0 else card.success as real / card.sampleSize as real
  }

  predicate Higher(a: real, b: real) { a > b }

  function ModelsOf(cards: seq<ModelScorecard>): seq<string> {
    seq(|cards|, i requires 0 <= i < |cards| => cards[i].key.model)
  }

  /** rankingFor */
  method RankingFor(models: seq<ModelScorecard>) returns (available: bool, ranked: seq<string>)
    ensures available <==> |models| >= 2 && forall m :: m in models ==> m.sampleSize >= MIN_RANKING_SAMPLE_SIZE
    ensures ranked == if available then ModelsOf(SortBy(Higher, SuccessRate, models)) else []
  {
    if |models| < 2 { return false, []; }
    for n := 0 to |models|
      invariant forall m :: m in models[..n] ==> m.sampleSize >= MIN_RANKING_SAMPLE_SIZE
    {
      assert models[..n + 1] == models[..n] + [models[n]];
      if models[n].sampleSize < MIN_RANKING_SAMPLE_SIZE { return false, []; }
    }
    assert models[..|models|] == models;
    var ordered := SortBy(Higher, SuccessRate, models);
    ranked := [];
    for n := 0 to |ordered|
      invariant ranked == ModelsOf(ordered[..n])
    {
      ranked := ranked + [ordered[n].key.model];
    }
    assert ordered[..|ordered|] == ordered;
    available := true;
  }

  /** The ranking lists every scorecard, by falling success rate, and scorecards of one
      rate in the order of the report. */
  lemma {:induction false} RankingIsByRate(models: seq<ModelScorecard>, rate: real)
    ensures var ordered := SortBy(Higher, SuccessRate, models);
            && multiset(ordered) == multiset(models)
            && (forall i, j :: 0 <= i < j < |ordered| ==> SuccessRate(ordered[i]) >= SuccessRate(ordered[j]))
            && FilterMap(WithKey(SuccessRate, rate), ordered) == FilterMap(WithKey(SuccessRate, rate), models)
  {
    assert StrictTotal(Higher);
    SortBySorted(Higher, SuccessRate, models);
    SortIsStable(Higher, SuccessRate, models, rate);
    var ordered := SortBy(Higher, SuccessRate, models);
    forall i, j | 0 <= i < j < |ordered| ensures SuccessRate(ordered[i]) >= SuccessRate(ordered[j]) {
      assert !Higher(SuccessRate(ordered[j]), SuccessRate(ordered[i]));
    }
  }

  // ---- what a scorecard shows -------------------------------------------------

  /** A mean lies between bounds of its values, and times their number is their sum. */
  lemma {:induction false} MeanIsBetween(values: seq<real>, low: real, high: real)
    requires values != [] && forall v :: v in values ==> low <= v <= high
    ensures Mean(values).Some? && low <= Mean(values).value <= high
    ensures Mean(values).value * |values| as real == Sum(values)
  {
    SumIsBetween(values, low, high);
    Divided(Sum(values), |values| as real, low, high);
  }

  lemma {:induction false} SumIsBetween(values: seq<real>, low: real, high: real)
    requires forall v :: v in values ==> low <= v <= high
    ensures low * |values| as real <= Sum(values) <= high * |values| as real
  {
    if values != [] {
      var n := |values| - 1;
      forall v | v in values[..n] ensures low <= v <= high {
        assert v in values;
      }
      SumIsBetween(values[..n], low, high);
      assert values[n] in values;
      OneMore(low, n);
      OneMore(high, n);
    }
  }

  lemma {:induction false} Divided(sum: real, n: real, low: real, high: real)
    requires n > 0.0 && low * n <= sum <= high * n
    ensures low <= sum / n <= high && sum / n * n == sum
  {
    Cancels(low, sum / n, n);
    Cancels(sum / n, high, n);
  }

  lemma {:induction false} OneMore(a: real, n: nat)
    ensures a * (n + 1) as real == a * n as real + a
  {}

  lemma {:induction false} Cancels(x: real, y: real, n: real)
    requires n > 0.0 && x * n <= y * n
    ensures x <= y
  {
    if x > y {
      Grows(x - y, n);
      assert false;
    }
  }

  lemma {:induction false} Grows(a: real, b: real)
    requires a > 0.0 && b > 0.0
    ensures a * b > 0.0
  {}

  /** A scorecard's columns are those of its card: counts and codes as they are, the mean of
      the completed tokens, and the middle and near-highest latency. */
  lemma {:induction false} ColumnsAreStated(k: ModelKey, c: Scorecard)
    requires Sound(c)
    ensures var card := Rendered(k, c);
            && card.key == k && card.success == c.success && card.failed == c.failed && card.abandoned == c.abandoned
            && card.sampleSize == c.success + c.failed + c.abandoned
            && card.errorCodes == c.errorCodes && card.sources == c.sources
            && (card.retryRate.Some? <==> c.retries > 0)
            && (card.tokensPerCompletedTask.Some? <==> c.completedTokens != [])
            && card.tokensPerCompletedTask == Mean(c.completedTokens)
            && card.latencyP50 == PercentileOf(c.latencies, 0.5) && card.latencyP95 == PercentileOf(c.latencies, 0.95)
  {}

  /** A ranking names the model of every scorecard, place by place. */
  lemma {:induction false} RankingNamesModels(models: seq<ModelScorecard>)
    ensures var ordered := SortBy(Higher, SuccessRate, models);
            && |ModelsOf(ordered)| == |models|
            && forall i :: 0 <= i < |models| ==> ModelsOf(ordered)[i] == ordered[i].key.model
  {
    assert StrictTotal(Higher);
    SortBySorted(Higher, SuccessRate, models);
    assert |multiset(SortBy(Higher, SuccessRate, models))| == |multiset(models)|;
  }

  /** A card's success rate, times the contracts it counts, is the number that succeeded. */
  lemma {:induction false} SuccessIsShare(card: ModelScorecard)
    ensures card.sampleSize > 0 ==> SuccessRate(card) * card.sampleSize as real == card.success as real
    ensures card.sampleSize == 0 ==> SuccessRate(card) == 0.0
  {
    if card.sampleSize > 0 {
      Divided(card.success as real, card.sampleSize as real, SuccessRate(card), SuccessRate(card));
    }
  }
}

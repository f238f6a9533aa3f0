/** What an outcome contract and a performance metric say, by the names of their keys
    (internal/insights/model_performance.go). */
module MetricReadings {
  import opened Prelude
  import opened Canonical
  import opened Signals
  import opened EventReadings
  import opened ModelPerformance

  // ---- numbers ----------------------------------------------------------------

  /** A float is cut off toward zero. */
  lemma {:induction false} FloatIsCut(r: real)
    ensures r >= 0.0 ==> 0 <= Truncate(r) && Truncate(r) as real <= r < Truncate(r) as real + 1.0
    ensures r < 0.0 ==> Truncate(r) <= 0 && Truncate(r) as real - 1.0 < r <= Truncate(r) as real
  {}

  lemma {:induction false} NumbersAreRead(sc: Scanner, v: Option<Json>)
    ensures forall n :: v == Some(JInt(n)) ==> ContractInt(sc, v) == Some(n) && ContractFloat(sc, v) == Some(n as real)
    ensures forall r :: v == Some(JFloat(r)) ==> ContractInt(sc, v) == Some(Truncate(r)) && ContractFloat(sc, v) == Some(r)
    ensures forall s :: v == Some(JStr(s)) ==> ContractInt(sc, v) == sc.parseInt(s) && ContractFloat(sc, v) == sc.parseFloat(s)
    ensures v.None? || v.value.JNull? || v.value.JBool? || v.value.JArr? || v.value.JObj? ==>
              ContractInt(sc, v) == None && ContractFloat(sc, v) == None
  {}

  /** A text column: the text under the key, empty without one. */
  ghost predicate TextColumn(m: Object, k: Key, column: string) {
    Shows(m, k, column) || (column == "" && forall s :: !Shows(m, k, s))
  }

  lemma {:induction false} TextIsRead(m: Object, k: Key, column: string)
    ensures OrEmpty(TextAt(m, k)) == column <==> TextColumn(m, k, column)
  {
    if k in m && m[k].JStr? {
      assert Shows(m, k, m[k].s);
    }
  }

  // ---- contracts --------------------------------------------------------------

  /** The model a contract is filed under, unless it names none or "unknown". */
  lemma {:induction false} ModelIsRead(s: OutcomeSignal, k: ModelKey)
    ensures KeyOf(s) == Some(k)
            <==> && Shows(s.contract, Model, k.model) && k.model != "" && k.model != "unknown"
                 && k.provider == s.provider && k.tool == s.tool
  {}

  lemma {:induction false} StatusIsRead(contract: Object)
    ensures StatusOf(contract) == Success <==> Shows(contract, Status, "success")
    ensures StatusOf(contract) == Failed <==> Shows(contract, Status, "failed")
    ensures StatusOf(contract) == Abandoned <==> Shows(contract, Status, "abandoned")
  {}

  /** The tokens of a contract: what there is of input and output. */
  lemma {:induction false} TokensAreRead(sc: Scanner, contract: Object)
    ensures var input, output := ContractFloat(sc, HasKey(contract, InputTokens)), ContractFloat(sc, HasKey(contract, OutputTokens));
            && (input.None? && output.None? <==> ContractTokens(sc, contract) == None)
            && (input.Some? && output.None? ==> ContractTokens(sc, contract) == input)
            && (input.None? && output.Some? ==> ContractTokens(sc, contract) == output)
            && (input.Some? && output.Some? ==> ContractTokens(sc, contract) == Some(input.value + output.value))
  {}

  lemma {:induction false} RetryIsRead(sc: Scanner, contract: Object)
    ensures IsRetry(sc, contract) <==> exists n :: n >= 1 && ContractInt(sc, HasKey(contract, RetryAttempt)) == Some(n)
  {}

  // ---- metrics ----------------------------------------------------------------

  /** A metric is reviewed if it has a name, a family and one of two kinds; its columns are
      those of the block, and the model dimension is left out. */
  lemma {:induction false} MetricIsRead(sc: Scanner, s: MetricSignal, m: Summary)
    ensures SummaryOf(sc, s) == Some(m)
            <==> && Shows(s.metric, Name, m.name) && m.name != "" && Shows(s.metric, Family, m.family) && m.family != ""
                 && Shows(s.metric, Kind, m.kind) && (m.kind == "histogram" || m.kind == "sum")
                 && m.provider == s.provider && m.tool == s.tool && m.model == s.model
                 && TextColumn(s.metric, Unit, m.unit) && TextColumn(s.metric, Scope, m.scope)
                 && m.dimensions == DimensionsOf(s.metric)
                 && m.numbers.sampleCount == ContractInt(sc, HasKey(s.metric, SampleCount))
                 && m.numbers.total == ContractFloat(sc, HasKey(s.metric, Sum))
                 && m.numbers.value == ContractInt(sc, HasKey(s.metric, Value))
                 && m.numbers.min == ContractFloat(sc, HasKey(s.metric, Min))
                 && m.numbers.max == ContractFloat(sc, HasKey(s.metric, Max))
  {
    TextIsRead(s.metric, Unit, m.unit);
    TextIsRead(s.metric, Scope, m.scope);
    TextIsRead(s.metric, Name, m.name);
    TextIsRead(s.metric, Family, m.family);
    TextIsRead(s.metric, Kind, m.kind);
    DimensionsAreRead(s.metric);
  }

  lemma {:induction false} DimensionsAreRead(metric: Object)
    ensures var raw := ObjectAt(metric, Dimensions);
            DimensionsOf(metric) == if raw.Some? then raw.value - {Model} else map[]
  {}

  /** Every dimension but the model. */
  function DimensionsOf(metric: Object): Object {
    if Dimensions in metric && metric[Dimensions].JObj?
    then map k | k in metric[Dimensions].fields && k != Model :: metric[Dimensions].fields[k]
    else map[]
  }

  /** A sample is filed under its labels, its temporality, zero if it has none, and its
      rendered dimensions, and stamped by its event. */
  lemma {:induction false} SampleIsRead(sc: Scanner, dims: Object -> string, s: MetricSignal)
    ensures SampleRow(sc, dims, s).Some? <==> SummaryOf(sc, s).Some?
    ensures SampleRow(sc, dims, s).Some? ==>
              var sample, t := SampleRow(sc, dims, s).value, ContractInt(sc, HasKey(s.metric, AggregationTemporality));
              && Some(sample.row.summary) == SummaryOf(sc, s) && KeyNames(sample.key, sample.row)
              && sample.key.dimensions == dims(sample.row.summary.dimensions)
              && (t.Some? ==> sample.key.temporality == t.value) && (t.None? ==> sample.key.temporality == 0)
              && sample.row.latest.at == s.occurredAt && sample.row.latest.id == s.eventId
  {}

  /** The average is there exactly with a sum and a positive count, and times the count is
      the sum. */
  lemma {:induction false} AverageIsRead(n: Numbers)
    ensures AverageOf(n).Some? <==> n.total.Some? && n.sampleCount.Some? && n.sampleCount.value >= 1
    ensures AverageOf(n).Some? ==> AverageOf(n).value * n.sampleCount.value as real == n.total.value
  {
    if AverageOf(n).Some? {
      Quotient(n.total.value, n.sampleCount.value as real);
    }
  }

  lemma {:induction false} Quotient(a: real, b: real)
    requires b > 0.0
    ensures a / b * b == a
  {}

  function JoinNul(texts: seq<string>): string {
    if |texts| == 0 then ""
    else if |texts| == 1 then texts[0]
    else JoinNul(texts[..|texts| - 1]) + "\0" + texts[|texts| - 1]
  }

  /** The sort text of a summary: five labels joined, then the dimensions. */
  lemma {:induction false} SummaryTextIsJoined(dims: Object -> string, r: SummaryRow)
    ensures SummaryOrder(dims)(r)
            == JoinNul([r.summary.provider, r.summary.tool, r.summary.family, r.summary.name, r.summary.model])
               + dims(r.summary.dimensions)
  {
    var s := r.summary;
    JoinLast([s.provider], s.tool);
    JoinLast([s.provider, s.tool], s.family);
    JoinLast([s.provider, s.tool, s.family], s.name);
    JoinLast([s.provider, s.tool, s.family, s.name], s.model);
    assert [s.provider] + [s.tool] == [s.provider, s.tool];
    assert [s.provider, s.tool] + [s.family] == [s.provider, s.tool, s.family];
    assert [s.provider, s.tool, s.family] + [s.name] == [s.provider, s.tool, s.family, s.name];
    assert [s.provider, s.tool, s.family, s.name] + [s.model] == [s.provider, s.tool, s.family, s.name, s.model];
  }

  lemma {:induction false} JoinLast(front: seq<string>, last: string)
    requires front != []
    ensures JoinNul(front + [last]) == JoinNul(front) + "\0" + last
  {
    assert (front + [last])[..|front|] == front;
  }
}

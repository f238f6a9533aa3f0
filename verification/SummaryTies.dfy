/** When the summaries of the efficiency metrics are listed in the same order every time,
    read off the samples of the events (internal/insights/model_performance.go). */
module SummaryTies {
  import opened Prelude
  import opened Ordering
  import opened Canonical
  import opened Signals
  import opened SortedRows
  import opened ModelPerformance
  import opened DeltaRows

  // ---- the sample that names a row, and the numbers beside it -----------------

  function OfKey(samples: seq<Sample>, k: MetricKey): seq<Sample> {
    FilterMap((s: Sample) => if s.key == k then Some(s) else None, samples)
  }

  /** The latest of the samples, the first of those at one stamp. */
  function LatestOf(samples: seq<Sample>): Sample
    requires samples != []
  {
    var last := samples[|samples| - 1];
    if |samples| == 1 then last
    else
      var before := LatestOf(samples[..|samples| - 1]);
      if Before(before.row.latest, last.row.latest) then last else before
  }

  /** A delta row is labelled by its key's first sample, any other row by its latest. */
  function Labelling(samples: seq<Sample>, k: MetricKey): Sample
    requires OfKey(samples, k) != []
  {
    if k.temporality == 1 then OfKey(samples, k)[0] else LatestOf(OfKey(samples, k))
  }

  function Labels(s: Sample): Summary {
    s.row.summary.(numbers := NO_NUMBERS)
  }

  /** The numbers the key's samples come to: totals of a delta row, else the latest's. */
  ghost predicate ComesTo(samples: seq<Sample>, k: MetricKey, n: Numbers)
    requires OfKey(samples, k) != []
  {
    if k.temporality == 1 then Totals(NumbersAt(samples, k), n)
    else n == LatestOf(OfKey(samples, k)).row.summary.numbers
  }

  lemma {:induction false} OfKeyStep(prefix: seq<Sample>, last: Sample, k: MetricKey)
    ensures OfKey(prefix + [last], k) == OfKey(prefix, k) + (if last.key == k then [last] else [])
  {
    assert (prefix + [last])[..|prefix|] == prefix;
  }

  lemma {:induction false} LatestStep(samples: seq<Sample>, last: Sample)
    ensures LatestOf(samples + [last])
            == if samples == [] || Before(LatestOf(samples).row.latest, last.row.latest) then last else LatestOf(samples)
  {
    assert (samples + [last])[..|samples|] == samples;
  }

  lemma {:induction false} RowIsLabelled(samples: seq<Sample>, k: MetricKey)
    requires Keyed(samples)
    ensures k in MetricRows(samples) <==> OfKey(samples, k) != []
    ensures k in MetricRows(samples) && k.temporality == 1 ==>
              MetricRows(samples)[k].summary.(numbers := NO_NUMBERS) == Labels(OfKey(samples, k)[0])
    ensures k in MetricRows(samples) && k.temporality != 1 ==> MetricRows(samples)[k] == LatestOf(OfKey(samples, k)).row
  {
    if samples != [] {
      var prefix, last := samples[..|samples| - 1], samples[|samples| - 1];
      RowIsLabelled(prefix, k);
      RowsKeepTemporality(prefix);
      assert samples == prefix + [last] && last in samples;
      OfKeyStep(prefix, last, k);
      LatestStep(OfKey(prefix, k), last);
    }
  }

  /** A row has the labels of its labelling sample, and the numbers its samples come to. */
  lemma {:induction false} RowIsRead(samples: seq<Sample>, k: MetricKey)
    requires Keyed(samples) && OfKey(samples, k) != []
    ensures k in MetricRows(samples)
    ensures MetricRows(samples)[k].summary
            == Labels(Labelling(samples, k)).(numbers := MetricRows(samples)[k].summary.numbers)
    ensures forall n :: ComesTo(samples, k, n) <==> n == MetricRows(samples)[k].summary.numbers
  {
    RowIsLabelled(samples, k);
    if k.temporality == 1 {
      DeltaRowIsTotal(samples, k);
      forall n | Totals(NumbersAt(samples, k), n) ensures n == MetricRows(samples)[k].summary.numbers {
        TotalsAreUnique(NumbersAt(samples, k), n, MetricRows(samples)[k].summary.numbers);
      }
    }
  }

  lemma {:induction false} TotalsAreUnique(ns: seq<Numbers>, a: Numbers, b: Numbers)
    requires Totals(ns, a) && Totals(ns, b)
    ensures a == b
  {
    LeastIsUnique(a.min, b.min, FilterMap(MinOf, ns));
    GreatestIsUnique(a.max, b.max, FilterMap(MaxOf, ns));
  }

  lemma {:induction false} LeastIsUnique(a: Option<real>, b: Option<real>, values: seq<real>)
    requires IsLeast(a, values) && IsLeast(b, values)
    ensures a == b
  {
    if values != [] {
      assert a.value <= b.value && b.value <= a.value;
    }
  }

  lemma {:induction false} GreatestIsUnique(a: Option<real>, b: Option<real>, values: seq<real>)
    requires IsGreatest(a, values) && IsGreatest(b, values)
    ensures a == b
  {
    if values != [] {
      assert a.value <= b.value && b.value <= a.value;
    }
  }

  // ---- ties -------------------------------------------------------------------

  function OrderText(dims: Object -> string, samples: seq<Sample>, k: MetricKey): string
    requires OfKey(samples, k) != []
  {
    SummaryOrder(dims)(SummaryRow(Labels(Labelling(samples, k)), None))
  }

  /** Two keys whose rows sort alike but are labelled differently. */
  ghost predicate LabelTie(dims: Object -> string, samples: seq<Sample>, k: MetricKey, l: MetricKey) {
    && OfKey(samples, k) != [] && OfKey(samples, l) != []
    && OrderText(dims, samples, k) == OrderText(dims, samples, l)
    && Labels(Labelling(samples, k)) != Labels(Labelling(samples, l))
  }

  /** Two keys labelled alike whose samples come to different numbers. */
  ghost predicate NumberTie(samples: seq<Sample>, k: MetricKey, l: MetricKey) {
    && OfKey(samples, k) != [] && OfKey(samples, l) != []
    && Labels(Labelling(samples, k)) == Labels(Labelling(samples, l))
    && forall n :: ComesTo(samples, k, n) ==> !ComesTo(samples, l, n)
  }

  lemma {:induction false} SummariesTie(dims: Object -> string, samples: seq<Sample>, k: MetricKey, l: MetricKey)
    requires Keyed(samples) && OfKey(samples, k) != [] && OfKey(samples, l) != []
    ensures var summaries := Summaries(MetricRows(samples));
            && k in summaries && l in summaries
            && (SummaryOrder(dims)(summaries[k]) == SummaryOrder(dims)(summaries[l]) && summaries[k] != summaries[l]
                <==> LabelTie(dims, samples, k, l) || NumberTie(samples, k, l))
  {
    RowIsRead(samples, k);
    RowIsRead(samples, l);
    var rows := MetricRows(samples);
    assert ComesTo(samples, k, rows[k].summary.numbers) && ComesTo(samples, l, rows[l].summary.numbers);
    assert rows[k].summary == rows[l].summary
      <==> Labels(Labelling(samples, k)) == Labels(Labelling(samples, l)) && rows[k].summary.numbers == rows[l].summary.numbers;
  }

  /** The list of summaries is the same every time exactly when no two keys of the events'
      samples sort alike and differ in labels, or have one label and differ in numbers. */
  lemma {:induction false} SummariesAreDetermined(sc: Scanner, dims: Object -> string, events: seq<Event>)
    ensures var samples := SamplesOf(sc, dims, events);
            Determined(StrLess, SummaryOrder(dims), Summaries(MetricRows(samples)))
            <==> forall k, l :: !LabelTie(dims, samples, k, l) && !NumberTie(samples, k, l)
  {
    var samples := SamplesOf(sc, dims, events);
    SamplesAreKeyed(sc, dims, events);
    StrLessStrictTotal();
    RowsAreDetermined(StrLess, SummaryOrder(dims), Summaries(MetricRows(samples)));
    TiesOfSamples(dims, samples);
  }

  lemma {:induction false} TiesOfSamples(dims: Object -> string, samples: seq<Sample>)
    requires Keyed(samples)
    ensures NoTies(SummaryOrder(dims), Summaries(MetricRows(samples)))
            <==> forall k, l :: !LabelTie(dims, samples, k, l) && !NumberTie(samples, k, l)
  {
    if NoTies(SummaryOrder(dims), Summaries(MetricRows(samples))) {
      forall k, l ensures !LabelTie(dims, samples, k, l) && !NumberTie(samples, k, l) {
        if OfKey(samples, k) != [] && OfKey(samples, l) != [] {
          SummariesTie(dims, samples, k, l);
        }
      }
    }
    if forall k, l :: !LabelTie(dims, samples, k, l) && !NumberTie(samples, k, l) {
      UntiedSummaries(dims, samples);
    }
  }

  lemma {:induction false} UntiedSummaries(dims: Object -> string, samples: seq<Sample>)
    requires Keyed(samples)
    requires forall k, l :: !LabelTie(dims, samples, k, l) && !NumberTie(samples, k, l)
    ensures NoTies(SummaryOrder(dims), Summaries(MetricRows(samples)))
  {
    var summaries := Summaries(MetricRows(samples));
    forall k, l | k in summaries && l in summaries && SummaryOrder(dims)(summaries[k]) == SummaryOrder(dims)(summaries[l])
      ensures summaries[k] == summaries[l]
    {
      RowIsLabelled(samples, k);
      RowIsLabelled(samples, l);
      SummariesTie(dims, samples, k, l);
    }
  }

  /** Keys labelled alike differ at most in their temporality. */
  lemma {:induction false} OneLabelOneKey(sc: Scanner, dims: Object -> string, events: seq<Event>, k: MetricKey, l: MetricKey)
    requires OfKey(SamplesOf(sc, dims, events), k) != [] && OfKey(SamplesOf(sc, dims, events), l) != []
    requires Labels(Labelling(SamplesOf(sc, dims, events), k)) == Labels(Labelling(SamplesOf(sc, dims, events), l))
    ensures k.(temporality := l.temporality) == l
  {
    LabellingIsSample(sc, dims, events, k);
    LabellingIsSample(sc, dims, events, l);
  }

  lemma {:induction false} LabellingIsSample(sc: Scanner, dims: Object -> string, events: seq<Event>, k: MetricKey)
    requires OfKey(SamplesOf(sc, dims, events), k) != []
    ensures var s := Labelling(SamplesOf(sc, dims, events), k);
            s.key == k && KeyNames(k, s.row) && k.dimensions == dims(s.row.summary.dimensions)
  {
    var own := OfKey(SamplesOf(sc, dims, events), k);
    LatestIsMember(own);
    var s := Labelling(SamplesOf(sc, dims, events), k);
    assert s in own;
    FilterMapMember((s: Sample) => if s.key == k then Some(s) else None, SamplesOf(sc, dims, events), s);
    FilterMapMember(MetricReader(sc, dims), events, s);
  }

  lemma {:induction false} LatestIsMember(samples: seq<Sample>)
    requires samples != []
    ensures LatestOf(samples) in samples
  {
    if |samples| > 1 {
      LatestIsMember(samples[..|samples| - 1]);
    }
  }

  // ---- events whose order is left open ----------------------------------------

  /** A sum named "m" that reports nothing but its unit. */
  function UnitEvent(env: Envelope, unit: string): Event {
    Event(env, map[], map[PerformanceMetric := JObj(map[
      Name := JStr("m"), Family := JStr("f"), Kind := JStr("sum"), Unit := JStr(unit)])])
  }

  lemma {:induction false} UnitSample(sc: Scanner, dims: Object -> string, env: Envelope, unit: string) returns (s: Sample)
    ensures MetricReader(sc, dims)(UnitEvent(env, unit)) == Some(s) && s.key.unit == unit && s.key.temporality == 0
    ensures s.row.summary == Summary("m", "f", env.provider, env.tool, "", "sum", unit, "", map[], NO_NUMBERS)
  {
    s := MetricReader(sc, dims)(UnitEvent(env, unit)).value;
  }

  /** One metric in two units: two summaries that tie, so their order is not determined. */
  lemma {:induction false} UnitsTie(sc: Scanner, dims: Object -> string, env: Envelope)
    ensures var samples := SamplesOf(sc, dims, [UnitEvent(env, "ms"), UnitEvent(env, "s")]);
            !Determined(StrLess, SummaryOrder(dims), Summaries(MetricRows(samples)))
  {
    var events := [UnitEvent(env, "ms"), UnitEvent(env, "s")];
    var x := UnitSample(sc, dims, env, "ms");
    var y := UnitSample(sc, dims, env, "s");
    FilterMapTwo(MetricReader(sc, dims), events[0], events[1]);
    assert SamplesOf(sc, dims, events) == [x, y];
    OneOfTwo(x, y);
    LabelsTie(dims, x, y);
    SummariesAreDetermined(sc, dims, events);
  }

  lemma {:induction false} LabelsTie(dims: Object -> string, x: Sample, y: Sample)
    requires OfKey([x, y], x.key) == [x] && OfKey([x, y], y.key) == [y]
    requires Labelling([x, y], x.key) == x && Labelling([x, y], y.key) == y
    requires x.row.summary.unit != y.row.summary.unit && x.row.summary == y.row.summary.(unit := x.row.summary.unit)
    ensures LabelTie(dims, [x, y], x.key, y.key)
  {}

  lemma {:induction false} OneOfTwo(x: Sample, y: Sample)
    requires x.key != y.key && x.key.temporality != 1 && y.key.temporality != 1
    ensures OfKey([x, y], x.key) == [x] && OfKey([x, y], y.key) == [y]
    ensures Labelling([x, y], x.key) == x && Labelling([x, y], y.key) == y
  {
    assert [] + [x] == [x] && [x] + [y] == [x, y];
    OfKeyStep([], x, x.key);
    OfKeyStep([x], y, x.key);
    OfKeyStep([], x, y.key);
    OfKeyStep([x], y, y.key);
  }
}

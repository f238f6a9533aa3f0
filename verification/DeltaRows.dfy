/** What a delta row of the efficiency metrics adds up to, and when it depends on the
    order its samples arrive in (internal/insights/model_performance.go). */
module DeltaRows {
  import opened Prelude
  import opened Ordering
  import opened Folds
  import opened Canonical
  import opened Signals
  import opened ModelPerformance

  // ---- the numbers ------------------------------------------------------------

  function CountOf(n: Numbers): Option<int> { n.sampleCount }
  function TotalOf(n: Numbers): Option<real> { n.total }
  function ValueOf(n: Numbers): Option<int> { n.value }
  function MinOf(n: Numbers): Option<real> { n.min }
  function MaxOf(n: Numbers): Option<real> { n.max }

  function SumInts(xs: seq<int>): int {
    if xs == [] then 0 else SumInts(xs[..|xs| - 1]) + xs[|xs| - 1]
  }

  function SumReals(xs: seq<real>): real {
    if xs == [] then 0.0 else SumReals(xs[..|xs| - 1]) + xs[|xs| - 1]
  }

  /** The sum of the values present, absent when there is none. */
  ghost predicate IsSumInts(total: Option<int>, values: seq<int>) {
    total == if values == [] then None else Some(SumInts(values))
  }

  ghost predicate IsSumReals(total: Option<real>, values: seq<real>) {
    total == if values == [] then None else Some(SumReals(values))
  }

  /** The least of the values present, absent when there is none. */
  ghost predicate IsLeast(m: Option<real>, values: seq<real>) {
    if values == [] then m == None
    else m.Some? && m.value in values && forall v :: v in values ==> m.value <= v
  }

  ghost predicate IsGreatest(m: Option<real>, values: seq<real>) {
    if values == [] then m == None
    else m.Some? && m.value in values && forall v :: v in values ==> v <= m.value
  }

  /** Each field of `t` sums, or bounds, the values present; it is absent when none is. */
  ghost predicate Totals(ns: seq<Numbers>, t: Numbers) {
    && IsSumInts(t.sampleCount, FilterMap(CountOf, ns))
    && IsSumReals(t.total, FilterMap(TotalOf, ns))
    && IsSumInts(t.value, FilterMap(ValueOf, ns))
    && IsLeast(t.min, FilterMap(MinOf, ns))
    && IsGreatest(t.max, FilterMap(MaxOf, ns))
  }

  lemma {:induction false} PresentStep<T>(field: Numbers -> Option<T>, ns: seq<Numbers>, n: Numbers)
    ensures FilterMap(field, ns + [n]) == FilterMap(field, ns) + ListOf(field(n))
  {
    assert (ns + [n])[..|ns|] == ns;
  }

  lemma {:induction false} SumIntsStep(total: Option<int>, xs: seq<int>, x: Option<int>)
    requires IsSumInts(total, xs)
    ensures IsSumInts(AddOptional(total, x), xs + ListOf(x))
  {
    assert xs + [] == xs;
    if x.Some? {
      assert (xs + [x.value])[..|xs|] == xs;
    }
  }

  lemma {:induction false} SumRealsStep(total: Option<real>, xs: seq<real>, x: Option<real>)
    requires IsSumReals(total, xs)
    ensures IsSumReals(AddOptionalReal(total, x), xs + ListOf(x))
  {
    assert xs + [] == xs;
    if x.Some? {
      assert (xs + [x.value])[..|xs|] == xs;
    }
  }

  lemma {:induction false} LeastStep(m: Option<real>, xs: seq<real>, x: Option<real>)
    requires IsLeast(m, xs)
    ensures IsLeast(MinOptional(m, x), xs + ListOf(x))
  {
    assert forall v :: v in xs + ListOf(x) <==> v in xs || Some(v) == x;
  }

  lemma {:induction false} GreatestStep(m: Option<real>, xs: seq<real>, x: Option<real>)
    requires IsGreatest(m, xs)
    ensures IsGreatest(MaxOptional(m, x), xs + ListOf(x))
  {
    assert forall v :: v in xs + ListOf(x) <==> v in xs || Some(v) == x;
  }

  /** One more sample's numbers. */
  lemma {:induction false} TotalsStep(ns: seq<Numbers>, n: Numbers, t: Numbers)
    requires Totals(ns, t)
    ensures Totals(ns + [n], MergeNumbers(t, n))
  {
    PresentStep(CountOf, ns, n);
    SumIntsStep(t.sampleCount, FilterMap(CountOf, ns), n.sampleCount);
    PresentStep(TotalOf, ns, n);
    SumRealsStep(t.total, FilterMap(TotalOf, ns), n.total);
    PresentStep(ValueOf, ns, n);
    SumIntsStep(t.value, FilterMap(ValueOf, ns), n.value);
    PresentStep(MinOf, ns, n);
    LeastStep(t.min, FilterMap(MinOf, ns), n.min);
    PresentStep(MaxOf, ns, n);
    GreatestStep(t.max, FilterMap(MaxOf, ns), n.max);
  }

  lemma {:induction false} NumbersMonoid()
    ensures CommutativeMonoid(MergeNumbers, NO_NUMBERS)
  {}

  function Itself(n: Numbers): Numbers { n }

  /** The accumulator's fold is those totals. */
  lemma {:induction false} FoldTotals(ns: seq<Numbers>)
    ensures Totals(ns, Fold(MergeNumbers, NO_NUMBERS, Itself, ns))
  {
    if ns == [] {
      assert Fold(MergeNumbers, NO_NUMBERS, Itself, ns) == NO_NUMBERS;
    } else {
      var n := |ns| - 1;
      FoldTotals(ns[..n]);
      TotalsStep(ns[..n], ns[n], Fold(MergeNumbers, NO_NUMBERS, Itself, ns[..n]));
      assert ns == ns[..n] + [ns[n]];
    }
  }

  // ---- one delta row ----------------------------------------------------------

  function NumbersUnder(k: MetricKey, s: Sample): Option<Numbers> {
    if s.key == k then Some(s.row.summary.numbers) else None
  }

  /** The numbers of the samples under one key, in order. */
  function NumbersAt(samples: seq<Sample>, k: MetricKey): seq<Numbers> {
    FilterMap((s: Sample) => NumbersUnder(k, s), samples)
  }

  lemma {:induction false} RowIsFold(samples: seq<Sample>, k: MetricKey)
    requires Keyed(samples) && k.temporality == 1
    ensures k in MetricRows(samples) <==> NumbersAt(samples, k) != []
    ensures k in MetricRows(samples) ==>
              MetricRows(samples)[k].summary.numbers == Fold(MergeNumbers, NO_NUMBERS, Itself, NumbersAt(samples, k))
  {
    if samples != [] {
      var n := |samples| - 1;
      var prefix, last := samples[..n], samples[n];
      RowIsFold(prefix, k);
      RowsKeepTemporality(prefix);
      assert last in samples;
      if last.key == k {
        var before := NumbersAt(prefix, k);
        assert NumbersAt(samples, k) == before + [last.row.summary.numbers];
        assert (before + [last.row.summary.numbers])[..|before|] == before;
      } else {
        assert NumbersAt(samples, k) == NumbersAt(prefix, k);
      }
    }
  }

  /** A delta row is present exactly when a sample has its key; its counts and sums are
      those of the values present, its extremes are attained and bound the rest. */
  lemma {:induction false} DeltaRowIsTotal(samples: seq<Sample>, k: MetricKey)
    requires Keyed(samples) && k.temporality == 1
    ensures k in MetricRows(samples) <==> NumbersAt(samples, k) != []
    ensures k in MetricRows(samples) ==> Totals(NumbersAt(samples, k), MetricRows(samples)[k].summary.numbers)
  {
    RowIsFold(samples, k);
    FoldTotals(NumbersAt(samples, k));
  }

  // ---- the order of the samples -----------------------------------------------

  function RowAt(samples: seq<Sample>, k: MetricKey): Option<MetricRow> {
    HasKey(MetricRows(samples), k)
  }

  /** The two labels a key does not fix. */
  predicate SameLabels(a: Summary, b: Summary) {
    a.family == b.family && a.dimensions == b.dimensions
  }

  ghost predicate OneLabel(samples: seq<Sample>, k: MetricKey) {
    forall a, b :: a in samples && b in samples && a.key == b.key == k ==> SameLabels(a.row.summary, b.row.summary)
  }

  /** Sample `i` is the first with its key. */
  ghost predicate FirstWith(samples: seq<Sample>, k: MetricKey, i: nat) {
    i < |samples| && samples[i].key == k && forall j :: 0 <= j < i ==> samples[j].key != k
  }

  /** A sample's stamp that none of its key is later than. */
  ghost predicate IsLatest(samples: seq<Sample>, k: MetricKey, stamp: Stamp) {
    && (exists s :: s in samples && s.key == k && s.row.latest == stamp)
    && forall s :: s in samples && s.key == k ==> !Before(stamp, s.row.latest)
  }

  /** A delta row is named by its first sample and dated by its latest. */
  lemma {:induction false} FirstSampleNamesRow(samples: seq<Sample>, k: MetricKey)
    requires Keyed(samples) && k.temporality == 1 && k in MetricRows(samples)
    ensures KeyNames(k, MetricRows(samples)[k])
    ensures exists i: nat :: FirstWith(samples, k, i) && SameLabels(samples[i].row.summary, MetricRows(samples)[k].summary)
    ensures IsLatest(samples, k, MetricRows(samples)[k].latest)
  {
    var n := |samples| - 1;
    var prefix, last := samples[..n], samples[n];
    assert samples == prefix + [last] && last in samples;
    assert forall s :: s in samples <==> s in prefix || s == last;
    BeforeStrictTotal();
    if k in MetricRows(prefix) {
      FirstSampleNamesRow(prefix, k);
      var i: nat :| FirstWith(prefix, k, i) && SameLabels(prefix[i].row.summary, MetricRows(prefix)[k].summary);
      assert FirstWith(samples, k, i);
      LatestStep(prefix, last, k, MetricRows(prefix)[k], MetricRows(samples)[k]);
    } else {
      KeyPresent(prefix, k);
      assert FirstWith(samples, k, n);
    }
  }

  lemma {:induction false} KeyPresent(samples: seq<Sample>, k: MetricKey)
    ensures k in MetricRows(samples) <==> exists s :: s in samples && s.key == k
  {
    if samples != [] {
      var n := |samples| - 1;
      KeyPresent(samples[..n], k);
      assert samples == samples[..n] + [samples[n]];
    }
  }

  lemma {:induction false} LatestStep(prefix: seq<Sample>, last: Sample, k: MetricKey, before: MetricRow, after: MetricRow)
    requires IsLatest(prefix, k, before.latest) && before.temporality == 1
    requires after == if last.key == k then MergeRow(before, last.row) else before
    ensures IsLatest(prefix + [last], k, after.latest)
  {
    BeforeStrictTotal();
    assert forall s :: s in prefix + [last] <==> s in prefix || s == last;
    assert last in prefix + [last];
  }

  /** Where the samples of a key agree on their labels, its row does not depend on their order. */
  lemma {:induction false} OneLabelForgetsOrder(xs: seq<Sample>, ys: seq<Sample>, k: MetricKey)
    requires Keyed(xs) && multiset(xs) == multiset(ys) && k.temporality == 1 && OneLabel(xs, k)
    ensures RowAt(xs, k) == RowAt(ys, k)
  {
    SameSamples(xs, ys);
    KeyPresent(xs, k);
    KeyPresent(ys, k);
    if k in MetricRows(xs) {
      FirstSampleNamesRow(xs, k);
      FirstSampleNamesRow(ys, k);
      SameNumbers(xs, ys, k);
      BeforeStrictTotal();
    }
  }

  lemma {:induction false} SameSamples(xs: seq<Sample>, ys: seq<Sample>)
    requires multiset(xs) == multiset(ys)
    ensures forall s :: s in xs <==> s in ys
  {
    forall s ensures s in xs <==> s in ys {
      assert s in xs <==> s in multiset(xs);
      assert s in ys <==> s in multiset(ys);
    }
  }

  /** The numbers alone never depend on the order. */
  lemma {:induction false} SameNumbers(xs: seq<Sample>, ys: seq<Sample>, k: MetricKey)
    requires Keyed(xs) && multiset(xs) == multiset(ys) && k.temporality == 1
    requires k in MetricRows(xs) && k in MetricRows(ys)
    ensures MetricRows(xs)[k].summary.numbers == MetricRows(ys)[k].summary.numbers
  {
    SameSamples(xs, ys);
    RowIsFold(xs, k);
    RowIsFold(ys, k);
    FilterMapMultiset((s: Sample) => NumbersUnder(k, s), xs, ys);
    NumbersMonoid();
    FoldForgetsOrder(MergeNumbers, NO_NUMBERS, Itself, NumbersAt(xs, k), NumbersAt(ys, k));
  }

  /** A list with one of its members moved to the front. */
  function Fronted<T>(xs: seq<T>, i: nat): (r: seq<T>)
    requires i < |xs|
    ensures multiset(r) == multiset(xs) && r[0] == xs[i]
  {
    assert xs == xs[..i] + [xs[i]] + xs[i + 1..];
    [xs[i]] + xs[..i] + xs[i + 1..]
  }

  /** The row of a list that starts with a sample of the key has that sample's labels. */
  lemma {:induction false} FrontNamesRow(samples: seq<Sample>, k: MetricKey)
    requires Keyed(samples) && k.temporality == 1 && samples != [] && samples[0].key == k
    ensures RowAt(samples, k).Some? && SameLabels(samples[0].row.summary, RowAt(samples, k).value.summary)
  {
    KeyPresent(samples, k);
    assert samples[0] in samples;
    FirstSampleNamesRow(samples, k);
    var i: nat :| FirstWith(samples, k, i) && SameLabels(samples[i].row.summary, MetricRows(samples)[k].summary);
    assert i == 0;
  }

  /** A delta row, numbers, labels and date, is independent of the order of the samples
      exactly when the samples of its key agree on family and dimensions. */
  lemma {:induction false} DeltaForgetsOrder(xs: seq<Sample>, k: MetricKey)
    requires Keyed(xs) && k.temporality == 1
    ensures (forall ys :: multiset(ys) == multiset(xs) ==> RowAt(ys, k) == RowAt(xs, k)) <==> OneLabel(xs, k)
  {
    if OneLabel(xs, k) {
      forall ys | multiset(ys) == multiset(xs) ensures RowAt(ys, k) == RowAt(xs, k) {
        OneLabelForgetsOrder(xs, ys, k);
      }
    }
    if forall ys :: multiset(ys) == multiset(xs) ==> RowAt(ys, k) == RowAt(xs, k) {
      forall a | a in xs && a.key == k
        ensures RowAt(xs, k).Some? && SameLabels(a.row.summary, RowAt(xs, k).value.summary)
      {
        var i :| 0 <= i < |xs| && xs[i] == a;
        SameSamples(Fronted(xs, i), xs);
        FrontNamesRow(Fronted(xs, i), k);
        assert multiset(Fronted(xs, i)) == multiset(xs);
      }
    }
  }

  // ---- the order of the events ------------------------------------------------

  function SamplesOf(sc: Scanner, dims: Object -> string, events: seq<Event>): seq<Sample> {
    FilterMap(MetricReader(sc, dims), events)
  }

  /** The same of the events: their order shows in a delta row exactly when two of its
      samples differ in family or dimensions. */
  lemma {:induction false} EventOrderShows(sc: Scanner, dims: Object -> string, events: seq<Event>, k: MetricKey)
    requires k.temporality == 1
    ensures (forall es :: multiset(es) == multiset(events) ==>
               RowAt(SamplesOf(sc, dims, es), k) == RowAt(SamplesOf(sc, dims, events), k))
            <==> OneLabel(SamplesOf(sc, dims, events), k)
  {
    SamplesAreKeyed(sc, dims, events);
    if OneLabel(SamplesOf(sc, dims, events), k) {
      forall es | multiset(es) == multiset(events)
        ensures RowAt(SamplesOf(sc, dims, es), k) == RowAt(SamplesOf(sc, dims, events), k)
      {
        FilterMapMultiset(MetricReader(sc, dims), events, es);
        OneLabelForgetsOrder(SamplesOf(sc, dims, events), SamplesOf(sc, dims, es), k);
      }
    }
    if forall es :: multiset(es) == multiset(events) ==>
         RowAt(SamplesOf(sc, dims, es), k) == RowAt(SamplesOf(sc, dims, events), k)
    {
      forall a | a in SamplesOf(sc, dims, events) && a.key == k
        ensures RowAt(SamplesOf(sc, dims, events), k).Some?
        ensures SameLabels(a.row.summary, RowAt(SamplesOf(sc, dims, events), k).value.summary)
      {
        EventFronted(sc, dims, events, k, a);
      }
    }
  }

  lemma {:induction false} EventFronted(sc: Scanner, dims: Object -> string, events: seq<Event>, k: MetricKey, a: Sample)
    requires k.temporality == 1 && a in SamplesOf(sc, dims, events) && a.key == k
    requires forall es :: multiset(es) == multiset(events) ==>
               RowAt(SamplesOf(sc, dims, es), k) == RowAt(SamplesOf(sc, dims, events), k)
    ensures RowAt(SamplesOf(sc, dims, events), k).Some?
    ensures SameLabels(a.row.summary, RowAt(SamplesOf(sc, dims, events), k).value.summary)
  {
    var es := FrontSample(sc, dims, events, a);
    SamplesAreKeyed(sc, dims, es);
    FrontNamesRow(SamplesOf(sc, dims, es), k);
    assert RowAt(SamplesOf(sc, dims, es), k) == RowAt(SamplesOf(sc, dims, events), k);
  }

  /** The events with the one that yields `a` moved to the front. */
  lemma {:induction false} FrontSample(sc: Scanner, dims: Object -> string, events: seq<Event>, a: Sample)
    returns (es: seq<Event>)
    requires a in SamplesOf(sc, dims, events)
    ensures multiset(es) == multiset(events)
    ensures SamplesOf(sc, dims, es) != [] && SamplesOf(sc, dims, es)[0] == a
  {
    var reader := MetricReader(sc, dims);
    FilterMapMember(reader, events, a);
    var i :| 0 <= i < |events| && reader(events[i]) == Some(a);
    es := Fronted(events, i);
    FirstFiltered(reader, es, a);
  }

  lemma {:induction false} FirstFiltered<A, B>(f: A -> Option<B>, xs: seq<A>, y: B)
    requires xs != [] && f(xs[0]) == Some(y)
    ensures FilterMap(f, xs) != [] && FilterMap(f, xs)[0] == y
  {
    if |xs| == 1 {
      assert xs[..0] == [];
    } else {
      FirstFiltered(f, xs[..|xs| - 1], y);
    }
  }

  // ---- a family that depends on the order -------------------------------------

  /** A delta sum named "m" that reports nothing but its family. */
  function FamilyEvent(env: Envelope, family: string): Event {
    Event(env, map[], map[PerformanceMetric := JObj(map[
      Name := JStr("m"), Family := JStr(family), Kind := JStr("sum"), AggregationTemporality := JInt(1)])])
  }

  /** The row of two such events carries the family of whichever came first. */
  lemma {:induction false} FirstFamilyStays(sc: Scanner, dims: Object -> string, env: Envelope)
    ensures var a, b := FamilyEvent(env, "f1"), FamilyEvent(env, "f2");
            exists k ::
              && RowAt(SamplesOf(sc, dims, [a, b]), k).Some? && RowAt(SamplesOf(sc, dims, [b, a]), k).Some?
              && RowAt(SamplesOf(sc, dims, [a, b]), k).value.summary.family == "f1"
              && RowAt(SamplesOf(sc, dims, [b, a]), k).value.summary.family == "f2"
  {
    var a, b := FamilyEvent(env, "f1"), FamilyEvent(env, "f2");
    var x := FamilySample(sc, dims, env, "f1");
    var y := FamilySample(sc, dims, env, "f2");
    FilterMapTwo(MetricReader(sc, dims), a, b);
    FilterMapTwo(MetricReader(sc, dims), b, a);
    assert SamplesOf(sc, dims, [a, b]) == [x, y] && SamplesOf(sc, dims, [b, a]) == [y, x];
    SamplesAreKeyed(sc, dims, [a, b]);
    SamplesAreKeyed(sc, dims, [b, a]);
    FrontNamesRow([x, y], x.key);
    FrontNamesRow([y, x], x.key);
  }

  lemma {:induction false} FamilySample(sc: Scanner, dims: Object -> string, env: Envelope, family: string)
    returns (s: Sample)
    requires family != ""
    ensures MetricReader(sc, dims)(FamilyEvent(env, family)) == Some(s)
    ensures s.key == MetricKey(env.provider, env.tool, "", "m", "", "sum", "", 1, dims(map[]))
    ensures s.row.summary.family == family
  {
    s := MetricReader(sc, dims)(FamilyEvent(env, family)).value;
  }
}

/** The latency percentiles of a scorecard (percentile, internal/insights/model_performance.go). */
module Percentile {
  import opened Prelude
  import opened Ordering

  predicate Less(a: real, b: real) { a < b }
  function Itself(a: real): real { a }

  ghost predicate Ascending(s: seq<real>) {
    forall i, j :: 0 <= i < j < |s| ==> s[i] <= s[j]
  }

  /** sort.Float64s */
  function Sorted(values: seq<real>): (sorted: seq<real>)
    ensures multiset(sorted) == multiset(values) && |sorted| == |values|
  {
    SortBy(Less, Itself, values)
  }

  lemma {:induction false} SortedAscends(values: seq<real>)
    ensures Ascending(Sorted(values))
  {
    SortBySorted(Less, Itself, values);
  }

  // ---- the arithmetic ---------------------------------------------------------

  /** The fraction `p` of the way from the first of `n` positions to the last. */
  function Rank(n: nat, p: real): real {
    p * (n - 1) as real
  }

  lemma {:induction false} RankInSpan(n: nat, p: real)
    requires n > 0 && 0.0 <= p <= 1.0
    ensures 0.0 <= Rank(n, p) <= (n - 1) as real
  {
    var top := (n - 1) as real;
    assert p * top + (1.0 - p) * top == top;
    assert (1.0 - p) * top >= 0.0;
  }

  lemma {:induction false} RankGrows(n: nat, p: real, q: real)
    requires n > 0 && p <= q
    ensures Rank(n, p) <= Rank(n, q)
  {
    var top := (n - 1) as real;
    assert (q - p) * top >= 0.0;
    assert q * top == p * top + (q - p) * top;
  }

  /** Linear interpolation. */
  function Mix(a: real, b: real, weight: real): real {
    a * (1.0 - weight) + b * weight
  }

  lemma {:induction false} MixBetween(a: real, b: real, weight: real)
    requires a <= b && 0.0 <= weight <= 1.0
    ensures a <= Mix(a, b, weight) <= b
  {
    var gap := b - a;
    assert gap * weight >= 0.0 && gap * (1.0 - weight) >= 0.0;
    assert gap * weight + gap * (1.0 - weight) == gap;
    assert Mix(a, b, weight) == a + gap * weight;
  }

  lemma {:induction false} MixGrows(a: real, b: real, v: real, w: real)
    requires a <= b && v <= w
    ensures Mix(a, b, v) <= Mix(a, b, w)
  {
    assert Mix(a, b, w) == Mix(a, b, v) + (b - a) * (w - v);
    assert (b - a) * (w - v) >= 0.0;
  }

  // ---- percentile -------------------------------------------------------------

  /** The value at a fractional position, between its two neighbours. */
  function At(sorted: seq<real>, rank: real): real
    requires 0.0 <= rank <= (|sorted| - 1) as real
  {
    var lower := rank.Floor;
    if rank == lower as real then sorted[lower] else Mix(sorted[lower], sorted[lower + 1], rank - lower as real)
  }

  /** percentile: None for no values; `p` is a fraction of one. */
  method Percentile(values: seq<real>, p: real) returns (v: Option<real>)
    requires 0.0 <= p <= 1.0
    ensures v.None? <==> values == []
    ensures v.Some? ==> 0.0 <= Rank(|values|, p) <= (|values| - 1) as real
    ensures v.Some? ==> v.value == At(Sorted(values), Rank(|values|, p))
  {
    if values == [] { return None; }
    RankInSpan(|values|, p);
    var sorted := Sorted(values);
    var rank := Rank(|values|, p);
    if |sorted| == 1 {
      return Some(sorted[0]);
    }
    var lower := rank.Floor;
    var upper := if rank == lower as real then lower else lower + 1;
    if lower == upper { return Some(sorted[lower]); }
    v := Some(Mix(sorted[lower], sorted[upper], rank - lower as real));
  }

  /** A value at a position lies between the neighbours of that position. */
  lemma {:induction false} AtIsBetween(sorted: seq<real>, rank: real)
    requires Ascending(sorted) && 0.0 <= rank <= (|sorted| - 1) as real
    ensures sorted[rank.Floor] <= At(sorted, rank)
    ensures rank.Floor + 1 < |sorted| ==> At(sorted, rank) <= sorted[rank.Floor + 1]
  {
    var lower := rank.Floor;
    if rank != lower as real {
      MixBetween(sorted[lower], sorted[lower + 1], rank - lower as real);
    }
  }

  /** Further positions hold no smaller values. */
  lemma {:induction false} AtGrows(sorted: seq<real>, a: real, b: real)
    requires Ascending(sorted) && 0.0 <= a <= b <= (|sorted| - 1) as real
    ensures At(sorted, a) <= At(sorted, b)
  {
    AtIsBetween(sorted, a);
    AtIsBetween(sorted, b);
    var i, j := a.Floor, b.Floor;
    if i == j && a != i as real {
      MixGrows(sorted[i], sorted[i + 1], a - i as real, b - i as real);
    }
  }

  /** A higher percentile is never below a lower one, and all lie within the values. */
  lemma {:induction false} PercentilesAreOrdered(values: seq<real>, p: real, q: real)
    requires values != [] && 0.0 <= p <= q <= 1.0
    ensures 0.0 <= Rank(|values|, p) <= Rank(|values|, q) <= (|values| - 1) as real
    ensures var sorted := Sorted(values);
            sorted[0] <= At(sorted, Rank(|values|, p)) <= At(sorted, Rank(|values|, q)) <= sorted[|values| - 1]
  {
    RankInSpan(|values|, p);
    RankInSpan(|values|, q);
    RankGrows(|values|, p, q);
    SortedAscends(values);
    WithinEnds(Sorted(values), Rank(|values|, p), Rank(|values|, q));
  }

  lemma {:induction false} WithinEnds(sorted: seq<real>, a: real, b: real)
    requires Ascending(sorted) && 0.0 <= a <= b <= (|sorted| - 1) as real
    ensures sorted[0] <= At(sorted, a) <= At(sorted, b) <= sorted[|sorted| - 1]
  {
    AtGrows(sorted, 0.0, a);
    AtGrows(sorted, a, b);
    AtGrows(sorted, b, (|sorted| - 1) as real);
  }

  // ---- the order of the samples -----------------------------------------------

  lemma {:induction false} LastIsGreatest(a: seq<real>, x: real)
    requires Ascending(a) && x in a
    ensures x <= a[|a| - 1]
  {
    var i :| 0 <= i < |a| && a[i] == x;
  }

  lemma {:induction false} WithoutLast(a: seq<real>)
    requires a != []
    ensures a == a[..|a| - 1] + [a[|a| - 1]]
    ensures multiset(a[..|a| - 1]) == multiset(a) - multiset{a[|a| - 1]}
  {
    assert a == a[..|a| - 1] + [a[|a| - 1]];
  }

  /** Two ascending lists of the same values are the same list. */
  lemma {:induction false} AscendingUnique(a: seq<real>, b: seq<real>)
    requires Ascending(a) && Ascending(b) && multiset(a) == multiset(b)
    ensures a == b
  {
    assert |a| == |multiset(a)| == |multiset(b)| == |b|;
    if a != [] {
      var n := |a| - 1;
      SameLast(a, b);
      WithoutLast(a);
      WithoutLast(b);
      AscendingUnique(a[..n], b[..n]);
    }
  }

  lemma {:induction false} SameLast(a: seq<real>, b: seq<real>)
    requires Ascending(a) && Ascending(b) && multiset(a) == multiset(b) && a != [] && b != []
    ensures a[|a| - 1] == b[|b| - 1]
  {
    var x, y := a[|a| - 1], b[|b| - 1];
    assert x in multiset(b) && y in multiset(a);
    LastIsGreatest(b, x);
    LastIsGreatest(a, y);
  }

  /** The order in which the latencies were retained does not matter. */
  lemma {:induction false} PercentileForgetsOrder(a: seq<real>, b: seq<real>)
    requires multiset(a) == multiset(b)
    ensures Sorted(a) == Sorted(b)
  {
    SortedAscends(a);
    SortedAscends(b);
    AscendingUnique(Sorted(a), Sorted(b));
  }
}

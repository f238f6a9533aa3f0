/** Accumulators whose result does not depend on the order of the samples. */
module Folds {
  import opened Prelude

  function Fold<A, B>(op: (B, B) -> B, unit: B, f: A -> B, xs: seq<A>): B {
    if xs == [] then unit else op(Fold(op, unit, f, xs[..|xs| - 1]), f(xs[|xs| - 1]))
  }

  ghost predicate CommutativeMonoid<B(!new)>(op: (B, B) -> B, unit: B) {
    && (forall a: B :: op(unit, a) == a)
    && (forall a: B, b: B :: op(a, b) == op(b, a))
    && (forall a: B, b: B, c: B :: op(op(a, b), c) == op(a, op(b, c)))
  }

  lemma {:induction false} FoldConcat<A, B(!new)>(op: (B, B) -> B, unit: B, f: A -> B, xs: seq<A>, ys: seq<A>)
    requires CommutativeMonoid(op, unit)
    ensures Fold(op, unit, f, xs + ys) == op(Fold(op, unit, f, xs), Fold(op, unit, f, ys))
  {
    if ys == [] {
      assert xs + ys == xs;
      assert op(unit, Fold(op, unit, f, xs)) == Fold(op, unit, f, xs);
    } else {
      var prefix, last := ys[..|ys| - 1], f(ys[|ys| - 1]);
      assert (xs + ys)[..|xs + ys| - 1] == xs + prefix;
      FoldConcat(op, unit, f, xs, prefix);
      var a, b := Fold(op, unit, f, xs), Fold(op, unit, f, prefix);
      assert op(op(a, b), last) == op(a, op(b, last));
    }
  }

  lemma {:induction false} TakeOut<A>(prefix: seq<A>, left: seq<A>, x: A, right: seq<A>)
    requires multiset(prefix + [x]) == multiset(left + [x] + right)
    ensures multiset(prefix) == multiset(left + right)
  {
    assert multiset(prefix + [x]) == multiset(prefix) + multiset{x};
    assert multiset(left + [x] + right) == multiset(left + right) + multiset{x};
    assert multiset(prefix) == multiset(prefix + [x]) - multiset{x};
    assert multiset(left + right) == multiset(left + [x] + right) - multiset{x};
  }

  lemma {:induction false} FoldForgetsOrder<A, B(!new)>(op: (B, B) -> B, unit: B, f: A -> B, xs: seq<A>, ys: seq<A>)
    requires CommutativeMonoid(op, unit)
    requires multiset(xs) == multiset(ys)
    ensures Fold(op, unit, f, xs) == Fold(op, unit, f, ys)
  {
    if xs == [] {
      assert |ys| == |multiset(ys)| == |multiset(xs)|;
    } else {
      var prefix, x := xs[..|xs| - 1], xs[|xs| - 1];
      assert xs == prefix + [x];
      assert x in multiset(ys);
      var i :| 0 <= i < |ys| && ys[i] == x;
      var left, right := ys[..i], ys[i + 1..];
      assert ys == left + [x] + right;
      TakeOut(prefix, left, x, right);
      FoldForgetsOrder(op, unit, f, prefix, left + right);
      FoldConcat(op, unit, f, left, right);
      FoldConcat(op, unit, f, left + [x], right);
      assert (left + [x])[..i] == left;
      var a, b, c := Fold(op, unit, f, left), f(x), Fold(op, unit, f, right);
      assert op(op(a, b), c) == op(a, op(b, c));
      assert op(b, c) == op(c, b);
      assert op(a, op(c, b)) == op(op(a, c), b);
    }
  }

  lemma {:induction false} FilterMapMultiset<A, B>(f: A -> Option<B>, xs: seq<A>, ys: seq<A>)
    requires multiset(xs) == multiset(ys)
    ensures multiset(FilterMap(f, xs)) == multiset(FilterMap(f, ys))
  {
    if xs == [] {
      assert |ys| == |multiset(ys)| == |multiset(xs)|;
    } else {
      var prefix, x := xs[..|xs| - 1], xs[|xs| - 1];
      assert xs == prefix + [x];
      assert x in multiset(ys);
      var i :| 0 <= i < |ys| && ys[i] == x;
      var left, right := ys[..i], ys[i + 1..];
      assert ys == left + [x] + right;
      TakeOut(prefix, left, x, right);
      FilterMapMultiset(f, prefix, left + right);
      FilterMapConcat(f, left, right);
      FilterMapConcat(f, left + [x], right);
      assert (left + [x])[..i] == left;
    }
  }

  // ---- accumulators kept per key ----------------------------------------------

  function AddAt<K, V>(op: (V, V) -> V, m: map<K, V>, k: K, v: V): map<K, V> {
    m[k := if k in m then op(m[k], v) else v]
  }

  function MergeMaps<K, V>(op: (V, V) -> V, a: map<K, V>, b: map<K, V>): map<K, V> {
    map k | k in a.Keys + b.Keys :: if k !in a then b[k] else if k !in b then a[k] else op(a[k], b[k])
  }

  /** Adding a sample commutes with merging, where the accumulator is associative. */
  lemma {:induction false} AddAtMerges<K, V>(op: (V, V) -> V, a: map<K, V>, b: map<K, V>, k: K, v: V)
    requires k in a && k in b ==> op(op(a[k], b[k]), v) == op(a[k], op(b[k], v))
    ensures AddAt(op, MergeMaps(op, a, b), k, v) == MergeMaps(op, a, AddAt(op, b, k, v))
  {}

  function AddOptional(a: Option<int>, b: Option<int>): Option<int> {
    if a.None? then b else if b.None? then a else Some(a.value + b.value)
  }

  function AddOptionalReal(a: Option<real>, b: Option<real>): Option<real> {
    if a.None? then b else if b.None? then a else Some(a.value + b.value)
  }

  /** minimumFloatPointer */
  function MinOptional(a: Option<real>, b: Option<real>): Option<real> {
    if a.None? || (b.Some? && b.value < a.value) then b else a
  }

  /** maximumFloatPointer */
  function MaxOptional(a: Option<real>, b: Option<real>): Option<real> {
    if a.None? || (b.Some? && b.value > a.value) then b else a
  }
}

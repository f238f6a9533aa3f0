/** The (time, identifier) orders the code sorts by, and sorting itself. */
module Ordering {

  /** Go's `<` on strings: lexicographic, a proper prefix first. */
  predicate StrLess(a: string, b: string)
    decreases |a|
  {
    if b == "" then false
    else if a == "" then true
    else if a[0] != b[0] then a[0] < b[0]
    else StrLess(a[1..], b[1..])
  }

  lemma {:induction false} StrLessIrreflexive(a: string)
    ensures !StrLess(a, a)
  {
    if a != "" {
      StrLessIrreflexive(a[1..]);
    }
  }

  lemma {:induction false} StrLessTotal(a: string, b: string)
    ensures a == b || StrLess(a, b) || StrLess(b, a)
  {
    if a != "" && b != "" && a[0] == b[0] {
      StrLessTotal(a[1..], b[1..]);
      assert a == [a[0]] + a[1..] && b == [b[0]] + b[1..];
    }
  }

  lemma {:induction false} StrLessTransitive(a: string, b: string, c: string)
    requires StrLess(a, b) && StrLess(b, c)
    ensures StrLess(a, c)
  {
    if a != "" && a[0] == b[0] && b[0] == c[0] {
      StrLessTransitive(a[1..], b[1..], c[1..]);
    }
  }

  /** When an observation happened, and which event carried it. */
  datatype Stamp = Stamp(at: int, id: string)

  predicate Before(a: Stamp, b: Stamp) {
    a.at < b.at || (a.at == b.at && StrLess(a.id, b.id))
  }

  /** A strict total order, the shape every comparator below has on the keys it is given. */
  ghost predicate StrictTotal<T(!new)>(less: (T, T) -> bool) {
    && (forall a: T :: !less(a, a))
    && (forall a: T, b: T :: a == b || less(a, b) || less(b, a))
    && (forall a: T, b: T, c: T :: less(a, b) && less(b, c) ==> less(a, c))
  }

  lemma {:induction false} StrLessStrictTotal()
    ensures StrictTotal(StrLess)
  {
    forall a: string ensures !StrLess(a, a) { StrLessIrreflexive(a); }
    forall a: string, b: string ensures a == b || StrLess(a, b) || StrLess(b, a) { StrLessTotal(a, b); }
    forall a: string, b: string, c: string | StrLess(a, b) && StrLess(b, c) ensures StrLess(a, c) {
      StrLessTransitive(a, b, c);
    }
  }

  lemma {:induction false} BeforeStrictTotal()
    ensures StrictTotal(Before)
  {
    StrLessStrictTotal();
    forall a: Stamp ensures !Before(a, a) { assert !StrLess(a.id, a.id); }
    forall a: Stamp, b: Stamp ensures a == b || Before(a, b) || Before(b, a) {
      assert a.id == b.id || StrLess(a.id, b.id) || StrLess(b.id, a.id);
    }
    forall a: Stamp, b: Stamp, c: Stamp | Before(a, b) && Before(b, c) ensures Before(a, c) {
      if a.at == b.at == c.at {
        assert StrLess(a.id, b.id) && StrLess(b.id, c.id);
      }
    }
  }

  // ---- sorting by a key -------------------------------------------------------

  /** sort.SliceStable by `key`: `x` goes after every element whose key is not larger. */
  function Insert<T, K>(less: (K, K) -> bool, key: T -> K, x: T, sorted: seq<T>): (r: seq<T>)
    ensures multiset(r) == multiset(sorted) + multiset{x}
  {
    if sorted == [] then [x]
    else
      var last := |sorted| - 1;
      assert sorted == sorted[..last] + [sorted[last]];
      if less(key(x), key(sorted[last])) then
        Insert(less, key, x, sorted[..last]) + [sorted[last]]
      else
        sorted + [x]
  }

  function SortBy<T, K>(less: (K, K) -> bool, key: T -> K, xs: seq<T>): (r: seq<T>)
    ensures multiset(r) == multiset(xs)
    ensures |r| == |xs|
  {
    if xs == [] then []
    else
      var last := |xs| - 1;
      assert xs == xs[..last] + [xs[last]];
      var r := Insert(less, key, xs[last], SortBy(less, key, xs[..last]));
      assert |r| == |multiset(r)| == |multiset(xs)| == |xs|;
      r
  }

  ghost predicate SortedBy<T, K>(less: (K, K) -> bool, key: T -> K, s: seq<T>) {
    forall i, j :: 0 <= i < j < |s| ==> !less(key(s[j]), key(s[i]))
  }

  ghost predicate StrictlySortedBy<T, K>(less: (K, K) -> bool, key: T -> K, s: seq<T>) {
    forall i, j :: 0 <= i < j < |s| ==> less(key(s[i]), key(s[j]))
  }

  lemma {:induction false} MembersOfInsert<T, K>(less: (K, K) -> bool, key: T -> K, x: T, sorted: seq<T>, y: T)
    ensures y in Insert(less, key, x, sorted) <==> y == x || y in sorted
  {
    assert y in Insert(less, key, x, sorted) <==> y in multiset(Insert(less, key, x, sorted));
  }

  lemma {:induction false} MembersOfSort<T, K>(less: (K, K) -> bool, key: T -> K, xs: seq<T>, y: T)
    ensures y in SortBy(less, key, xs) <==> y in xs
  {
    assert y in SortBy(less, key, xs) <==> y in multiset(SortBy(less, key, xs));
  }

  lemma {:induction false} InsertSorted<T, K(!new)>(less: (K, K) -> bool, key: T -> K, x: T, sorted: seq<T>)
    requires StrictTotal(less) && SortedBy(less, key, sorted)
    ensures SortedBy(less, key, Insert(less, key, x, sorted))
  {
    if sorted != [] {
      var last := |sorted| - 1;
      if less(key(x), key(sorted[last])) {
        InsertSorted(less, key, x, sorted[..last]);
        var front := Insert(less, key, x, sorted[..last]);
        forall i | 0 <= i < |front| ensures !less(key(sorted[last]), key(front[i])) {
          MembersOfInsert(less, key, x, sorted[..last], front[i]);
        }
      } else {
        assert forall i :: 0 <= i < last ==> !less(key(sorted[last]), key(sorted[i]));
      }
    }
  }

  lemma {:induction false} SortBySorted<T, K(!new)>(less: (K, K) -> bool, key: T -> K, xs: seq<T>)
    requires StrictTotal(less)
    ensures SortedBy(less, key, SortBy(less, key, xs))
  {
    if xs != [] {
      var last := |xs| - 1;
      SortBySorted(less, key, xs[..last]);
      InsertSorted(less, key, xs[last], SortBy(less, key, xs[..last]));
    }
  }

  /** No two positions of `s` share a key. */
  ghost predicate DistinctKeys<T, K>(key: T -> K, s: seq<T>) {
    forall i, j :: 0 <= i < j < |s| ==> key(s[i]) != key(s[j])
  }

  /** Two strictly sorted sequences with the same members are the same sequence. */
  lemma {:induction false} SortedUnique<T, K(!new)>(less: (K, K) -> bool, key: T -> K, a: seq<T>, b: seq<T>)
    requires StrictTotal(less)
    requires StrictlySortedBy(less, key, a) && StrictlySortedBy(less, key, b)
    requires forall x :: x in a <==> x in b
    ensures a == b
  {
    assert a != [] ==> a[0] in b;
    assert b != [] ==> b[0] in a;
    if a != [] && b != [] {
      var x, y := a[|a| - 1], b[|b| - 1];
      assert x in b && y in a;
      assert x == y || (less(key(x), key(y)) && less(key(y), key(x)));
      var fa, fb := a[..|a| - 1], b[..|b| - 1];
      forall z ensures z in fa <==> z in fb {
        if z in fa {
          assert less(key(z), key(x)) && z in b;
        }
        if z in fb {
          assert less(key(z), key(y)) && z in a;
        }
      }
      SortedUnique(less, key, fa, fb);
      assert a == fa + [x] && b == fb + [y];
    }
  }

  /** Sorting forgets the order it was given: with distinct keys any permutation sorts alike. */
  lemma {:induction false} SortForgetsOrder<T, K(!new)>(less: (K, K) -> bool, key: T -> K, xs: seq<T>, ys: seq<T>)
    requires StrictTotal(less)
    requires multiset(xs) == multiset(ys)
    requires DistinctKeys(key, xs)
    ensures SortBy(less, key, xs) == SortBy(less, key, ys)
    ensures StrictlySortedBy(less, key, SortBy(less, key, xs))
  {
    SortStrict(less, key, xs, SortBy(less, key, xs));
    SortStrict(less, key, xs, SortBy(less, key, ys));
    forall x ensures x in SortBy(less, key, xs) <==> x in SortBy(less, key, ys) {
      MembersOfSort(less, key, xs, x);
      MembersOfSort(less, key, ys, x);
      assert x in xs <==> x in multiset(xs);
      assert x in ys <==> x in multiset(ys);
    }
    SortedUnique(less, key, SortBy(less, key, xs), SortBy(less, key, ys));
  }

  lemma {:induction false} SortStrict<T, K(!new)>(less: (K, K) -> bool, key: T -> K, xs: seq<T>, r: seq<T>)
    requires StrictTotal(less)
    requires DistinctKeys(key, xs)
    requires exists ys :: multiset(ys) == multiset(xs) && r == SortBy(less, key, ys)
    ensures StrictlySortedBy(less, key, r)
  {
    var ys :| multiset(ys) == multiset(xs) && r == SortBy(less, key, ys);
    SortBySorted(less, key, ys);
    forall i, j | 0 <= i < j < |r| ensures less(key(r[i]), key(r[j])) {
      assert !less(key(r[j]), key(r[i]));
      if key(r[i]) == key(r[j]) {
        DistinctInPermutation(key, xs, r, i, j);
      }
    }
  }

  lemma {:induction false} DistinctInPermutation<T, K>(key: T -> K, xs: seq<T>, r: seq<T>, i: nat, j: nat)
    requires multiset(xs) == multiset(r) && DistinctKeys(key, xs)
    requires i < j < |r|
    ensures key(r[i]) != key(r[j])
  {
    if key(r[i]) == key(r[j]) {
      assert r[i] in multiset(xs) && r[j] in multiset(xs);
      assert r[i] in xs && r[j] in xs;
      assert r[i] == r[j];
      var x := r[i];
      assert r == r[..i] + [x] + r[i + 1..j] + [x] + r[j + 1..];
      assert multiset(r)[x] >= 2;
      OccursOnce(key, xs, x);
    }
  }

  lemma {:induction false} OccursOnce<T, K>(key: T -> K, xs: seq<T>, x: T)
    requires DistinctKeys(key, xs)
    ensures multiset(xs)[x] <= 1
  {
    if xs != [] {
      var last := |xs| - 1;
      assert xs == xs[..last] + [xs[last]];
      OccursOnce(key, xs[..last], x);
      if xs[last] == x {
        assert x !in xs[..last];
        assert multiset(xs[..last])[x] == 0;
      }
    }
  }

  /** Two lists with the same members, each once, are permutations of one another. */
  lemma {:induction false} SameMembersOnce<T, K>(key: T -> K, xs: seq<T>, ys: seq<T>)
    requires DistinctKeys(key, xs) && DistinctKeys(key, ys)
    requires forall x :: x in xs <==> x in ys
    ensures multiset(xs) == multiset(ys)
  {
    forall x ensures multiset(xs)[x] == multiset(ys)[x] {
      OccursOnce(key, xs, x);
      OccursOnce(key, ys, x);
      assert x in xs <==> x in multiset(xs);
      assert x in ys <==> x in multiset(ys);
    }
  }

  // ---- what the orders mean ---------------------------------------------------

  /** The texts agree before `n`, and there `a` ends or has the smaller character. */
  predicate DiffersAt(a: string, b: string, n: nat) {
    && n <= |a| && n < |b| && a[..n] == b[..n] && (n == |a| || a[n] < b[n])
  }

  lemma {:induction false} StrLessIsLexicographic(a: string, b: string)
    ensures StrLess(a, b) <==> exists n: nat :: DiffersAt(a, b, n)
  {
    if b != "" && a != "" && a[0] == b[0] {
      StrLessIsLexicographic(a[1..], b[1..]);
      forall n: nat ensures DiffersAt(a, b, n + 1) <==> DiffersAt(a[1..], b[1..], n) {
        if n <= |a[1..]| && n < |b[1..]| {
          assert a[..n + 1] == [a[0]] + a[1..][..n] && b[..n + 1] == [b[0]] + b[1..][..n];
          assert a[1..][..n] == a[..n + 1][1..] && b[1..][..n] == b[..n + 1][1..];
        }
      }
      assert !DiffersAt(a, b, 0);
      if n: nat :| DiffersAt(a, b, n) {
        assert DiffersAt(a[1..], b[1..], n - 1);
      }
      if n: nat :| DiffersAt(a[1..], b[1..], n) {
        assert DiffersAt(a, b, n + 1);
      }
    } else if a == "" && b != "" {
      assert DiffersAt(a, b, 0);
    } else if b != "" {
      forall n: nat ensures DiffersAt(a, b, n) <==> n == 0 && a[0] < b[0] {
        assert a[..0] == b[..0];
        if 0 < n <= |a| && n < |b| {
          assert a[..n][0] == a[0] && b[..n][0] == b[0];
          assert a[..n] != b[..n];
        }
      }
      assert DiffersAt(a, b, 0) <==> a[0] < b[0];
    }
  }

  /** Time first, and the id decides between observations of one time. */
  lemma {:induction false} BeforeIsEarlier(a: Stamp, b: Stamp)
    ensures a.at < b.at ==> Before(a, b)
    ensures a.at > b.at ==> !Before(a, b)
    ensures a.at == b.at ==> (Before(a, b) <==> exists n: nat :: DiffersAt(a.id, b.id, n))
  {
    StrLessIsLexicographic(a.id, b.id);
  }
}

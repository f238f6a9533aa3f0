/** Report rows: the values of a Go map, visited in any order, then put in order by a sort
    that is free to place ties either way (sort.Slice). */
module SortedRows {
  import opened Prelude
  import opened Ordering
  import opened Folds

  ghost function KeysWith<K, R>(m: map<K, R>, r: R): set<K> {
    set k | k in m && m[k] == r
  }

  /** `rows` holds each key's value, as often as keys have it. */
  ghost predicate Holds<K, R(!new)>(m: map<K, R>, rows: seq<R>) {
    forall r: R :: multiset(rows)[r] == |KeysWith(m, r)|
  }

  /** `rows` is a list the report may show. */
  ghost predicate RowsOf<K, R(!new), S>(less: (S, S) -> bool, key: R -> S, m: map<K, R>, rows: seq<R>) {
    Holds(m, rows) && SortedBy(less, key, rows)
  }

  lemma {:induction false} HoldsNone<K, R(!new)>(m: map<K, R>)
    requires m == map[]
    ensures Holds(m, [])
  {
    forall r: R ensures KeysWith(m, r) == {} {}
  }

  lemma {:induction false} HoldsAdded<K, R(!new)>(m: map<K, R>, rows: seq<R>, k: K, v: R)
    requires Holds(m, rows) && k !in m
    ensures Holds(m[k := v], rows + [v])
  {
    forall r: R ensures multiset(rows + [v])[r] == |KeysWith(m[k := v], r)| {
      OneMoreKey(m, k, v, r);
      assert multiset(rows + [v])[r] == multiset(rows)[r] + if r == v then 1 else 0;
    }
  }

  lemma {:induction false} OneMoreKey<K, R>(m: map<K, R>, k: K, v: R, r: R)
    requires k !in m
    ensures |KeysWith(m[k := v], r)| == |KeysWith(m, r)| + if r == v then 1 else 0
  {
    assert k !in KeysWith(m, r);
    assert KeysWith(m[k := v], r) == KeysWith(m, r) + if r == v then {k} else {};
  }

  lemma {:induction false} HoldsWithout<K, R(!new)>(m: map<K, R>, rows: seq<R>, k: K, i: nat)
    requires Holds(m, rows) && k in m && i < |rows| && rows[i] == m[k]
    ensures Holds(m - {k}, rows[..i] + rows[i + 1..])
  {
    WithoutOne(rows, i);
    forall r: R ensures multiset(rows[..i] + rows[i + 1..])[r] == |KeysWith(m - {k}, r)| {
      OneMoreKey(m - {k}, k, m[k], r);
      assert (m - {k})[k := m[k]] == m;
    }
  }

  lemma {:induction false} WithoutOne<R>(rows: seq<R>, i: nat)
    requires i < |rows|
    ensures multiset(rows) == multiset(rows[..i] + rows[i + 1..]) + multiset{rows[i]}
  {
    assert rows == rows[..i] + [rows[i]] + rows[i + 1..];
  }

  lemma {:induction false} HeldValue<K, R(!new)>(m: map<K, R>, rows: seq<R>, r: R)
    requires Holds(m, rows)
    ensures r in rows <==> exists k :: k in m && m[k] == r
  {
    if k :| k in m && m[k] == r {
      assert k in KeysWith(m, r);
    }
    if r in rows {
      assert multiset(rows)[r] > 0;
      var k :| k in KeysWith(m, r);
    }
  }

  /** Two lists that hold the same map hold the same rows. */
  lemma {:induction false} HoldSameRows<K, R(!new)>(m: map<K, R>, a: seq<R>, b: seq<R>)
    requires Holds(m, a) && Holds(m, b)
    ensures multiset(a) == multiset(b)
  {
    forall r: R ensures multiset(a)[r] == multiset(b)[r] {}
  }

  lemma {:induction false} SomeRows<K, R(!new)>(m: map<K, R>) returns (rows: seq<R>)
    ensures Holds(m, rows)
    decreases |m|
  {
    if m == map[] {
      rows := [];
      HoldsNone(m);
    } else {
      var k :| k in m;
      var rest := SomeRows(m - {k});
      rows := rest + [m[k]];
      HoldsAdded(m - {k}, rest, k, m[k]);
      assert (m - {k})[k := m[k]] == m;
    }
  }

  /** The rows of a map in some order, then sort.Slice. */
  method Collect<K(==), R(!new), S(!new)>(less: (S, S) -> bool, key: R -> S, m: map<K, R>) returns (rows: seq<R>)
    requires StrictTotal(less)
    ensures RowsOf(less, key, m, rows)
  {
    var listed: seq<R> := [];
    var pending := m.Keys;
    ghost var seen: map<K, R> := map[];
    HoldsNone(seen);
    while pending != {}
      invariant pending <= m.Keys && seen == m - pending && Holds(seen, listed)
      decreases |pending|
    {
      var k := Pick(pending);
      HoldsAdded(seen, listed, k, m[k]);
      listed := listed + [m[k]];
      seen := seen[k := m[k]];
      pending := pending - {k};
    }
    assert seen == m;
    rows := SortBy(less, key, listed);
    SortBySorted(less, key, listed);
  }

  // ---- when the list is determined --------------------------------------------

  /** Rows that sort alike are the same row. */
  ghost predicate NoTies<K, R, S>(key: R -> S, m: map<K, R>) {
    forall k, l :: k in m && l in m && key(m[k]) == key(m[l]) ==> m[k] == m[l]
  }

  /** The report shows one list, whatever the map order and wherever ties are placed. */
  ghost predicate Determined<K, R(!new), S>(less: (S, S) -> bool, key: R -> S, m: map<K, R>) {
    forall a, b :: RowsOf(less, key, m, a) && RowsOf(less, key, m, b) ==> a == b
  }

  lemma {:induction false} SortedAlike<R(!new), S(!new)>(less: (S, S) -> bool, key: R -> S, a: seq<R>, b: seq<R>)
    requires StrictTotal(less) && SortedBy(less, key, a) && SortedBy(less, key, b)
    requires multiset(a) == multiset(b)
    requires forall x, y :: x in a && y in a && key(x) == key(y) ==> x == y
    ensures a == b
  {
    assert |a| == |multiset(a)| == |multiset(b)| == |b|;
    if a != [] {
      var n := |a| - 1;
      var x, y := a[n], b[n];
      assert y in multiset(b) && x in multiset(a);
      assert y in a && x in b;
      LastIsGreatest(less, key, a, y);
      LastIsGreatest(less, key, b, x);
      assert x == y;
      FrontsAlike(a, b);
      forall z | z in a[..n] ensures z in a {}
      SortedAlike(less, key, a[..n], b[..n]);
    }
  }

  lemma {:induction false} FrontsAlike<R>(a: seq<R>, b: seq<R>)
    requires a != [] && |a| == |b| && multiset(a) == multiset(b) && a[|a| - 1] == b[|b| - 1]
    ensures multiset(a[..|a| - 1]) == multiset(b[..|b| - 1])
    ensures a[..|a| - 1] == b[..|b| - 1] ==> a == b
  {
    FrontRows(a);
    FrontRows(b);
    FrontAndLast(a);
    FrontAndLast(b);
  }

  lemma {:induction false} FrontAndLast<R>(a: seq<R>)
    requires a != []
    ensures a == a[..|a| - 1] + [a[|a| - 1]]
  {}

  lemma {:induction false} FrontRows<R>(rows: seq<R>)
    requires rows != []
    ensures multiset(rows[..|rows| - 1]) == multiset(rows) - multiset{rows[|rows| - 1]}
  {
    assert rows == rows[..|rows| - 1] + [rows[|rows| - 1]];
  }

  lemma {:induction false} LastIsGreatest<R(!new), S(!new)>(less: (S, S) -> bool, key: R -> S, a: seq<R>, y: R)
    requires StrictTotal(less) && SortedBy(less, key, a) && y in a
    ensures !less(key(a[|a| - 1]), key(y))
  {
    var i :| 0 <= i < |a| && a[i] == y;
  }

  lemma {:induction false} SwapKeepsRows<R>(rows: seq<R>, i: nat, j: nat)
    requires i < j < |rows|
    ensures multiset(rows[i := rows[j]][j := rows[i]]) == multiset(rows)
  {
    var one := rows[i := rows[j]];
    assert multiset(one) == multiset(rows) - multiset{rows[i]} + multiset{rows[j]};
    assert multiset(one[j := rows[i]]) == multiset(one) - multiset{one[j]} + multiset{rows[i]};
    assert rows[i] in multiset(rows) && one[j] in multiset(one);
  }

  lemma {:induction false} SwappedTies<K, R(!new), S(!new)>(
      less: (S, S) -> bool, key: R -> S, m: map<K, R>, rows: seq<R>, i: nat, j: nat)
    requires RowsOf(less, key, m, rows) && i < j < |rows| && key(rows[i]) == key(rows[j])
    ensures RowsOf(less, key, m, rows[i := rows[j]][j := rows[i]])
  {
    var swapped := rows[i := rows[j]][j := rows[i]];
    SwapKeepsRows(rows, i, j);
    assert forall k :: 0 <= k < |rows| ==> key(swapped[k]) == key(rows[k]);
  }

  /** A report is determined exactly when no two different rows tie. */
  lemma {:induction false} RowsAreDetermined<K, R(!new), S(!new)>(less: (S, S) -> bool, key: R -> S, m: map<K, R>)
    requires StrictTotal(less)
    ensures Determined(less, key, m) <==> NoTies(key, m)
  {
    if NoTies(key, m) {
      forall a, b | RowsOf(less, key, m, a) && RowsOf(less, key, m, b) ensures a == b {
        SameWithoutTies(less, key, m, a, b);
      }
    } else {
      var a := SomeSortedRows(less, key, m);
      var k, l :| k in m && l in m && key(m[k]) == key(m[l]) && m[k] != m[l];
      HeldValue(m, a, m[k]);
      HeldValue(m, a, m[l]);
      var i :| 0 <= i < |a| && a[i] == m[k];
      var j :| 0 <= j < |a| && a[j] == m[l];
      var p, q := if i < j then i else j, if i < j then j else i;
      SwappedTies(less, key, m, a, p, q);
      assert a[p := a[q]][q := a[p]][p] != a[p];
    }
  }

  lemma {:induction false} SameWithoutTies<K, R(!new), S(!new)>(
      less: (S, S) -> bool, key: R -> S, m: map<K, R>, a: seq<R>, b: seq<R>)
    requires StrictTotal(less) && NoTies(key, m)
    requires RowsOf(less, key, m, a) && RowsOf(less, key, m, b)
    ensures a == b
  {
    HoldSameRows(m, a, b);
    forall x, y | x in a && y in a && key(x) == key(y) ensures x == y {
      HeldValue(m, a, x);
      HeldValue(m, a, y);
    }
    SortedAlike(less, key, a, b);
  }

  lemma {:induction false} SomeSortedRows<K, R(!new), S(!new)>(less: (S, S) -> bool, key: R -> S, m: map<K, R>)
    returns (rows: seq<R>)
    requires StrictTotal(less)
    ensures RowsOf(less, key, m, rows)
  {
    var listed := SomeRows(m);
    rows := SortBy(less, key, listed);
    SortBySorted(less, key, listed);
  }

  // ---- maps that hold one of several rows per key -----------------------------

  /** The map has these keys, and for each a row that is right for it. */
  ghost predicate Each<K(!new), R>(m: map<K, R>, keys: K -> bool, right: (K, R) -> bool) {
    (forall k :: k in m <==> keys(k)) && forall k :: k in m ==> right(k, m[k])
  }

  lemma {:induction false} EachReplaced<K(!new), R>(m: map<K, R>, keys: K -> bool, right: (K, R) -> bool, k: K, r: R)
    requires Each(m, keys, right) && k in m && right(k, r)
    ensures Each(m[k := r], keys, right)
  {}

  /** Where one row is right for each key, so is one map. */
  lemma {:induction false} EachIsUnique<K(!new), R(!new)>(a: map<K, R>, b: map<K, R>, keys: K -> bool, right: (K, R) -> bool)
    requires Each(a, keys, right) && Each(b, keys, right)
    requires forall k, x, y :: keys(k) && right(k, x) && right(k, y) ==> x == y
    ensures a == b
  {
    assert forall k :: k in a <==> k in b;
  }

  // ---- totals -----------------------------------------------------------------

  /** How many rows have a property. */
  function CountOf<R>(p: R -> bool, rows: seq<R>): nat {
    if rows == [] then 0 else CountOf(p, rows[..|rows| - 1]) + if p(rows[|rows| - 1]) then 1 else 0
  }

  ghost function KeysWhere<K, R>(p: R -> bool, m: map<K, R>): set<K> {
    set k | k in m && p(m[k])
  }

  /** The count is of the keys whose row has the property, whatever the order. */
  lemma {:induction false} CountIsOfKeys<K, R(!new)>(p: R -> bool, m: map<K, R>, rows: seq<R>)
    requires Holds(m, rows)
    ensures CountOf(p, rows) == |KeysWhere(p, m)|
    decreases |rows|
  {
    if rows == [] {
      forall k | k in m ensures false {
        HeldValue(m, rows, m[k]);
      }
    } else {
      var n := |rows| - 1;
      HeldValue(m, rows, rows[n]);
      var k :| k in m && m[k] == rows[n];
      HoldsWithout(m, rows, k, n);
      assert rows[..n] + rows[n + 1..] == rows[..n];
      CountIsOfKeys(p, m - {k}, rows[..n]);
      assert KeysWhere(p, m) == KeysWhere(p, m - {k}) + if p(m[k]) then {k} else {};
    }
  }

  /** A sum over the rows changes with one key's value as the value does. */
  lemma {:induction false} SumWithChange<K, R(!new)>(f: R -> int, m: map<K, R>, rows: seq<R>, k: K, v: R, after: seq<R>)
    requires Holds(m, rows) && Holds(m[k := v], after)
    ensures SumOf(f, after) == SumOf(f, rows) + f(v) - if k in m then f(m[k]) else 0
  {
    var rest := rows;
    if k in m {
      HeldValue(m, rows, m[k]);
      var i :| 0 <= i < |rows| && rows[i] == m[k];
      HoldsWithout(m, rows, k, i);
      rest := rows[..i] + rows[i + 1..];
      assert rows == rows[..i] + [rows[i]] + rows[i + 1..];
      SumConcat(f, rows[..i], rows[i + 1..]);
      SumConcat(f, rows[..i] + [rows[i]], rows[i + 1..]);
      SumConcat(f, rows[..i], [rows[i]]);
      assert [rows[i]][..0] == [];
      assert (m - {k})[k := v] == m[k := v];
      HoldsAdded(m - {k}, rest, k, v);
    } else {
      HoldsAdded(m, rest, k, v);
    }
    HoldSameRows(m[k := v], rest + [v], after);
    SumForgetsOrder(f, rest + [v], after);
    assert (rest + [v])[..|rest|] == rest;
  }

  function SumOf<R>(f: R -> int, rows: seq<R>): int {
    if rows == [] then 0 else SumOf(f, rows[..|rows| - 1]) + f(rows[|rows| - 1])
  }

  lemma {:induction false} SumIsFold<R>(f: R -> int, rows: seq<R>)
    ensures SumOf(f, rows) == Fold((a: int, b: int) => a + b, 0, f, rows)
  {
    if rows != [] {
      SumIsFold(f, rows[..|rows| - 1]);
    }
  }

  lemma {:induction false} SumConcat<R>(f: R -> int, a: seq<R>, b: seq<R>)
    ensures SumOf(f, a + b) == SumOf(f, a) + SumOf(f, b)
  {
    if b == [] {
      assert a + b == a;
    } else {
      assert (a + b)[..|a + b| - 1] == a + b[..|b| - 1];
      SumConcat(f, a, b[..|b| - 1]);
    }
  }

  lemma {:induction false} SumForgetsOrder<R>(f: R -> int, a: seq<R>, b: seq<R>)
    requires multiset(a) == multiset(b)
    ensures SumOf(f, a) == SumOf(f, b)
  {
    var plus := (x: int, y: int) => x + y;
    assert CommutativeMonoid(plus, 0);
    FoldForgetsOrder(plus, 0, f, a, b);
    SumIsFold(f, a);
    SumIsFold(f, b);
  }

  lemma {:induction false} HeldCount<K, R(!new)>(m: map<K, R>, rows: seq<R>)
    requires Holds(m, rows)
    ensures |rows| == |m|
  {
    var all := (r: R) => true;
    CountIsOfKeys(all, m, rows);
    CountOfAll(all, rows);
    assert KeysWhere(all, m) == m.Keys;
    assert |m.Keys| == |m|;
  }

  lemma {:induction false} CountOfAll<R(!new)>(p: R -> bool, rows: seq<R>)
    requires forall r: R :: p(r)
    ensures CountOf(p, rows) == |rows|
  {
    if rows != [] {
      CountOfAll(p, rows[..|rows| - 1]);
    }
  }

  // ---- stable sorts -----------------------------------------------------------

  function WithKey<R, S(==)>(key: R -> S, k: S): R -> Option<R> {
    (r: R) => if key(r) == k then Some(r) else None
  }

  /** sort.SliceStable leaves rows that tie in the order they came. */
  lemma {:induction false} SortIsStable<R, S(!new)>(less: (S, S) -> bool, key: R -> S, rows: seq<R>, k: S)
    requires StrictTotal(less)
    ensures FilterMap(WithKey(key, k), SortBy(less, key, rows)) == FilterMap(WithKey(key, k), rows)
  {
    if rows != [] {
      var front, last := rows[..|rows| - 1], rows[|rows| - 1];
      SortIsStable(less, key, front, k);
      InsertIsStable(less, key, last, SortBy(less, key, front), k);
    }
  }

  lemma {:induction false} InsertIsStable<R, S(!new)>(less: (S, S) -> bool, key: R -> S, x: R, sorted: seq<R>, k: S)
    requires StrictTotal(less)
    ensures FilterMap(WithKey(key, k), Insert(less, key, x, sorted))
            == FilterMap(WithKey(key, k), sorted) + if key(x) == k then [x] else []
  {
    if sorted == [] {
      assert [x][..0] == [];
    } else {
      var front, last := sorted[..|sorted| - 1], sorted[|sorted| - 1];
      if less(key(x), key(last)) {
        InsertIsStable(less, key, x, front, k);
        FilterMapSnoc(WithKey(key, k), Insert(less, key, x, front), last);
        assert !less(key(x), key(x));
        if key(x) == k {
          assert FilterMap(WithKey(key, k), sorted) == FilterMap(WithKey(key, k), front);
        } else {
          assert FilterMap(WithKey(key, k), Insert(less, key, x, front)) == FilterMap(WithKey(key, k), front);
        }
      } else {
        FilterMapSnoc(WithKey(key, k), sorted, x);
      }
    }
  }
}

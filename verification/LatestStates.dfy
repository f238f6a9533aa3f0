/** The latest-state fold (internal/insights/observed_states.go): per key, keep
    the observation with the greatest (time, event id). */
module LatestStates {
  import opened Ordering

  /** stateIsLater, applied to one key's slot: an equal stamp keeps what is there. */
  function Observe<K(==), S>(key: S -> K, stamp: S -> Stamp, latest: map<K, S>, s: S): map<K, S> {
    if key(s) !in latest || Before(stamp(latest[key(s)]), stamp(s)) then latest[key(s) := s] else latest
  }

  function Latest<K(==), S>(key: S -> K, stamp: S -> Stamp, states: seq<S>): map<K, S> {
    if states == [] then map[]
    else Observe(key, stamp, Latest(key, stamp, states[..|states| - 1]), states[|states| - 1])
  }

  /** `r` is an observation of `k` in `states` and none of them is later. */
  ghost predicate Greatest<K, S>(key: S -> K, stamp: S -> Stamp, states: seq<S>, k: K, r: S) {
    && r in states && key(r) == k
    && forall s :: s in states && key(s) == k ==> !Before(stamp(r), stamp(s))
  }

  lemma {:induction false} LatestIsGreatest<K, S>(key: S -> K, stamp: S -> Stamp, states: seq<S>)
    ensures forall k :: k in Latest(key, stamp, states) <==> exists s :: s in states && key(s) == k
    ensures forall k :: k in Latest(key, stamp, states) ==>
              Greatest(key, stamp, states, k, Latest(key, stamp, states)[k])
  {
    BeforeStrictTotal();
    if states != [] {
      var prefix, last := states[..|states| - 1], states[|states| - 1];
      LatestIsGreatest(key, stamp, prefix);
      var before, after := Latest(key, stamp, prefix), Latest(key, stamp, states);
      assert states == prefix + [last];
      forall k ensures k in after <==> exists s :: s in states && key(s) == k {
        if s :| s in states && key(s) == k {
          assert s in prefix || s == last;
        }
      }
      forall k | k in after ensures Greatest(key, stamp, states, k, after[k]) {
        forall s | s in states && key(s) == k ensures !Before(stamp(after[k]), stamp(s)) {
          assert s in prefix || s == last;
          if s in prefix {
            assert Greatest(key, stamp, prefix, k, before[k]);
            assert after[k] == before[k] || Before(stamp(before[k]), stamp(after[k]));
          }
        }
      }
    }
  }

  /** No two observations of one key carry the same stamp. */
  ghost predicate DistinctStamps<K, S>(key: S -> K, stamp: S -> Stamp, states: seq<S>) {
    forall a, b :: a in states && b in states && key(a) == key(b) && stamp(a) == stamp(b) ==> a == b
  }

  /** The fold forgets the order events arrive in. */
  lemma {:induction false} LatestForgetsOrder<K, S>(key: S -> K, stamp: S -> Stamp, xs: seq<S>, ys: seq<S>)
    requires forall s :: s in xs <==> s in ys
    requires DistinctStamps(key, stamp, xs)
    ensures Latest(key, stamp, xs) == Latest(key, stamp, ys)
  {
    BeforeStrictTotal();
    LatestIsGreatest(key, stamp, xs);
    LatestIsGreatest(key, stamp, ys);
    var a, b := Latest(key, stamp, xs), Latest(key, stamp, ys);
    forall k | k in a ensures k in b && a[k] == b[k] {
      assert Greatest(key, stamp, xs, k, a[k]);
      assert a[k] in ys;
      assert Greatest(key, stamp, ys, k, b[k]);
      assert stamp(a[k]) == stamp(b[k]);
    }
    forall k | k in b ensures k in a {
      assert Greatest(key, stamp, ys, k, b[k]);
      assert b[k] in xs;
    }
  }

  /** Merging two folds keeps the later slot of each key, the left one on a tie. */
  function MergeLatest<K(==), S>(stamp: S -> Stamp, left: map<K, S>, right: map<K, S>): map<K, S> {
    map k | k in left.Keys + right.Keys ::
      if k !in right then left[k]
      else if k !in left || Before(stamp(left[k]), stamp(right[k])) then right[k]
      else left[k]
  }

  /** What both sides hold under one key. */
  lemma {:induction false} MergesAt<K, S>(key: S -> K, stamp: S -> Stamp, xs: seq<S>, ys: seq<S>, k: K)
    ensures var whole, left, right := Latest(key, stamp, xs + ys), Latest(key, stamp, xs), Latest(key, stamp, ys);
            && (k in whole <==> k in left || k in right)
            && (k in whole ==> whole[k] == MergeLatest(stamp, left, right)[k])
  {
    if ys == [] {
      assert xs + ys == xs;
    } else {
      var prefix, last := ys[..|ys| - 1], ys[|ys| - 1];
      assert (xs + ys)[..|xs + ys| - 1] == xs + prefix;
      MergesAt(key, stamp, xs, prefix, k);
      BeforeStrictTotal();
      StepMergesAt(
        key, stamp, Latest(key, stamp, xs), Latest(key, stamp, prefix), Latest(key, stamp, xs + prefix), last, k);
    }
  }

  lemma {:induction false} StepMergesAt<K, S>(
      key: S -> K, stamp: S -> Stamp, left: map<K, S>, right: map<K, S>, whole: map<K, S>, last: S, k: K)
    requires StrictTotal(Before)
    requires k in whole <==> k in left || k in right
    requires k in whole ==> whole[k] == MergeLatest(stamp, left, right)[k]
    ensures var w, r := Observe(key, stamp, whole, last), Observe(key, stamp, right, last);
            && (k in w <==> k in left || k in r)
            && (k in w ==> w[k] == MergeLatest(stamp, left, r)[k])
  {
    if key(last) == k && k in left && k in right {
      var a, b, c := stamp(left[k]), stamp(right[k]), stamp(last);
      assert Before(a, b) && Before(b, c) ==> Before(a, c);
      assert !Before(a, b) && Before(a, c) ==> a == b || Before(b, a);
      assert Before(b, a) && Before(a, c) ==> Before(b, c);
    }
  }

  /** Folding two batches one after the other is merging their separate folds. */
  lemma {:induction false} LatestMerges<K, S>(key: S -> K, stamp: S -> Stamp, xs: seq<S>, ys: seq<S>)
    ensures Latest(key, stamp, xs + ys)
            == MergeLatest(stamp, Latest(key, stamp, xs), Latest(key, stamp, ys))
  {
    var whole := Latest(key, stamp, xs + ys);
    var merged := MergeLatest(stamp, Latest(key, stamp, xs), Latest(key, stamp, ys));
    forall k | k in whole ensures k in merged && whole[k] == merged[k] {
      MergesAt(key, stamp, xs, ys, k);
    }
    forall k | k in merged ensures k in whole {
      MergesAt(key, stamp, xs, ys, k);
    }
    assert whole == merged;
  }

  // ---- the rows, newest first -------------------------------------------------

  datatype RowKey = RowKey(at: int, key: string)

  /** The final sort: later first, then by key. */
  predicate NewerRow(a: RowKey, b: RowKey) {
    a.at > b.at || (a.at == b.at && StrLess(a.key, b.key))
  }

  lemma {:induction false} NewerRowStrictTotal()
    ensures StrictTotal(NewerRow)
  {
    StrLessStrictTotal();
    forall a: RowKey ensures !NewerRow(a, a) { assert !StrLess(a.key, a.key); }
    forall a: RowKey, b: RowKey ensures a == b || NewerRow(a, b) || NewerRow(b, a) {
      assert a.key == b.key || StrLess(a.key, b.key) || StrLess(b.key, a.key);
    }
    forall a: RowKey, b: RowKey, c: RowKey | NewerRow(a, b) && NewerRow(b, c) ensures NewerRow(a, c) {
      if a.at == b.at == c.at {
        assert StrLess(a.key, b.key) && StrLess(b.key, c.key);
      }
    }
  }

  /** `rows` lists the values of `latest`, each once, newest first. */
  ghost predicate RowsOf<S(!new)>(key: S -> string, at: S -> int, latest: map<string, S>, rows: seq<S>) {
    && StrictlySortedBy(NewerRow, (s: S) => RowKey(at(s), key(s)), rows)
    && forall s :: s in rows <==> key(s) in latest && latest[key(s)] == s
  }

  /** Go visits a map in any order; the rows it prints are the same every time. */
  lemma {:induction false} RowsAreDetermined<S(!new)>(key: S -> string, at: S -> int, latest: map<string, S>, a: seq<S>, b: seq<S>)
    requires RowsOf(key, at, latest, a) && RowsOf(key, at, latest, b)
    ensures a == b
  {
    NewerRowStrictTotal();
    var rowKey := (s: S) => RowKey(at(s), key(s));
    assert StrictlySortedBy(NewerRow, rowKey, a) && StrictlySortedBy(NewerRow, rowKey, b);
    SortedUnique(NewerRow, rowKey, a, b);
  }

  // ---- the rows of fewer states -----------------------------------------------

  /** `rows` are the latest of these states, one per key. */
  ghost predicate Reports<S(!new)>(key: S -> string, stamp: S -> Stamp, states: seq<S>, rows: seq<S>) {
    && (forall r :: r in rows ==> Greatest(key, stamp, states, key(r), r))
    && forall s :: s in states ==> RowFor(key, rows, key(s))
  }

  ghost predicate RowFor<S(!new)>(key: S -> string, rows: seq<S>, k: string) {
    exists r :: r in rows && key(r) == k
  }

  lemma {:induction false} RowsAreLatest<S(!new)>(key: S -> string, stamp: S -> Stamp, states: seq<S>, rows: seq<S>)
    requires RowsOf(key, (s: S) => stamp(s).at, Latest(key, stamp, states), rows)
    ensures Reports(key, stamp, states, rows)
  {
    LatestIsGreatest(key, stamp, states);
    var latest := Latest(key, stamp, states);
    forall s | s in states ensures RowFor(key, rows, key(s)) {
      assert key(s) in latest;
      assert Greatest(key, stamp, states, key(s), latest[key(s)]);
      assert latest[key(s)] in rows;
    }
  }

  /** Some of these states has the key of `s` and is no earlier. */
  ghost predicate Covers<S(!new)>(key: S -> string, stamp: S -> Stamp, states: seq<S>, s: S) {
    exists x :: x in states && key(x) == key(s) && !Before(stamp(x), stamp(s))
  }

  ghost predicate Shows<S(!new)>(key: S -> string, stamp: S -> Stamp, rows: seq<S>, a: S) {
    exists b :: b in rows && key(b) == key(a) && stamp(b) == stamp(a)
  }

  /** The rows show the same keys, each as of the same time and event. */
  ghost predicate SameLatest<S(!new)>(key: S -> string, stamp: S -> Stamp, full: seq<S>, thin: seq<S>) {
    && (forall a :: a in full ==> Shows(key, stamp, thin, a))
    && forall b :: b in thin ==> Shows(key, stamp, full, b)
  }

  /** With some states left out, the rows show the same exactly when every state is
      covered by one that is left. */
  lemma {:induction false} FewerStates<S(!new)>(
      key: S -> string, stamp: S -> Stamp, all: seq<S>, some: seq<S>, full: seq<S>, thin: seq<S>)
    requires forall s :: s in some ==> s in all
    requires Reports(key, stamp, all, full) && Reports(key, stamp, some, thin)
    ensures SameLatest(key, stamp, full, thin) <==> forall s :: s in all ==> Covers(key, stamp, some, s)
  {
    if forall s :: s in all ==> Covers(key, stamp, some, s) {
      CoveredShowSame(key, stamp, all, some, full, thin);
    }
    if SameLatest(key, stamp, full, thin) {
      forall s | s in all ensures Covers(key, stamp, some, s) {
        ShownIsCovered(key, stamp, all, some, full, thin, s);
      }
    }
  }

  lemma {:induction false} CoveredShowSame<S(!new)>(
      key: S -> string, stamp: S -> Stamp, all: seq<S>, some: seq<S>, full: seq<S>, thin: seq<S>)
    requires forall s :: s in some ==> s in all
    requires Reports(key, stamp, all, full) && Reports(key, stamp, some, thin)
    requires forall s :: s in all ==> Covers(key, stamp, some, s)
    ensures SameLatest(key, stamp, full, thin)
  {
    forall a | a in full ensures Shows(key, stamp, thin, a) {
      CoveredIsShown(key, stamp, all, some, thin, a);
    }
    forall b | b in thin ensures Shows(key, stamp, full, b) {
      ShownWasCovered(key, stamp, all, some, full, b);
    }
  }

  lemma {:induction false} ShownWasCovered<S(!new)>(
      key: S -> string, stamp: S -> Stamp, all: seq<S>, some: seq<S>, full: seq<S>, b: S)
    requires forall s :: s in some ==> s in all
    requires Reports(key, stamp, all, full) && Greatest(key, stamp, some, key(b), b)
    requires forall s :: s in all ==> Covers(key, stamp, some, s)
    ensures Shows(key, stamp, full, b)
  {
    assert RowFor(key, full, key(b));
    var a :| a in full && key(a) == key(b);
    CoveredAlike(key, stamp, all, some, a, b);
  }

  lemma {:induction false} CoveredIsShown<S(!new)>(
      key: S -> string, stamp: S -> Stamp, all: seq<S>, some: seq<S>, thin: seq<S>, a: S)
    requires forall s :: s in some ==> s in all
    requires Greatest(key, stamp, all, key(a), a) && Reports(key, stamp, some, thin)
    requires Covers(key, stamp, some, a)
    ensures Shows(key, stamp, thin, a)
  {
    var x :| x in some && key(x) == key(a);
    assert RowFor(key, thin, key(x));
    var b :| b in thin && key(b) == key(x);
    assert Greatest(key, stamp, some, key(b), b);
    CoveredAlike(key, stamp, all, some, a, b);
  }

  lemma {:induction false} ShownIsCovered<S(!new)>(
      key: S -> string, stamp: S -> Stamp, all: seq<S>, some: seq<S>, full: seq<S>, thin: seq<S>, s: S)
    requires Reports(key, stamp, all, full) && Reports(key, stamp, some, thin)
    requires SameLatest(key, stamp, full, thin) && s in all
    ensures Covers(key, stamp, some, s)
  {
    assert RowFor(key, full, key(s));
    var a :| a in full && key(a) == key(s);
    assert Greatest(key, stamp, all, key(a), a) && Shows(key, stamp, thin, a);
    var b :| b in thin && key(b) == key(a) && stamp(b) == stamp(a);
    assert Greatest(key, stamp, some, key(b), b);
  }

  lemma {:induction false} CoveredAlike<S(!new)>(key: S -> string, stamp: S -> Stamp, all: seq<S>, some: seq<S>, a: S, b: S)
    requires forall s :: s in some ==> s in all
    requires Greatest(key, stamp, all, key(a), a) && Greatest(key, stamp, some, key(b), b) && key(a) == key(b)
    requires Covers(key, stamp, some, a)
    ensures stamp(a) == stamp(b)
  {
    BeforeStrictTotal();
    var x :| x in some && key(x) == key(a) && !Before(stamp(x), stamp(a));
    assert !Before(stamp(b), stamp(x)) && !Before(stamp(a), stamp(b));
  }

  /** The reports of all states and of some show the same exactly when every state is
      covered; and then they are one list, where a key, a time and an event tell a state. */
  lemma {:induction false} ReportsAlike<S(!new)>(
      key: S -> string, stamp: S -> Stamp, all: seq<S>, some: seq<S>, full: seq<S>, thin: seq<S>)
    requires forall s :: s in some ==> s in all
    requires RowsOf(key, (s: S) => stamp(s).at, Latest(key, stamp, all), full)
    requires RowsOf(key, (s: S) => stamp(s).at, Latest(key, stamp, some), thin)
    ensures SameLatest(key, stamp, full, thin) <==> forall s :: s in all ==> Covers(key, stamp, some, s)
    ensures DistinctStamps(key, stamp, all) ==> (thin == full <==> SameLatest(key, stamp, full, thin))
  {
    RowsAreLatest(key, stamp, all, full);
    RowsAreLatest(key, stamp, some, thin);
    FewerStates(key, stamp, all, some, full, thin);
    if DistinctStamps(key, stamp, all) && SameLatest(key, stamp, full, thin) {
      SameRows(key, stamp, all, some, full, thin);
    }
    if thin == full {
      ShowsItself(key, stamp, full);
    }
  }

  lemma {:induction false} ShowsItself<S(!new)>(key: S -> string, stamp: S -> Stamp, rows: seq<S>)
    ensures SameLatest(key, stamp, rows, rows)
  {
    forall a | a in rows ensures Shows(key, stamp, rows, a) {}
  }

  /** Where a key, a time and an event tell a state, showing the same is being the same. */
  lemma {:induction false} SameRows<S(!new)>(
      key: S -> string, stamp: S -> Stamp, all: seq<S>, some: seq<S>, full: seq<S>, thin: seq<S>)
    requires forall s :: s in some ==> s in all
    requires RowsOf(key, (s: S) => stamp(s).at, Latest(key, stamp, all), full)
    requires RowsOf(key, (s: S) => stamp(s).at, Latest(key, stamp, some), thin)
    requires SameLatest(key, stamp, full, thin) && DistinctStamps(key, stamp, all)
    ensures thin == full
  {
    RowsAreLatest(key, stamp, all, full);
    RowsAreLatest(key, stamp, some, thin);
    SameShown(key, stamp, all, full, thin);
    SameShown(key, stamp, all, thin, full);
    NewerRowStrictTotal();
    var at := (s: S) => stamp(s).at;
    SortedUnique(NewerRow, (s: S) => RowKey(at(s), key(s)), full, thin);
  }

  lemma {:induction false} SameShown<S(!new)>(key: S -> string, stamp: S -> Stamp, all: seq<S>, xs: seq<S>, ys: seq<S>)
    requires forall x :: x in xs ==> x in all && Shows(key, stamp, ys, x)
    requires forall y :: y in ys ==> y in all
    requires DistinctStamps(key, stamp, all)
    ensures forall x :: x in xs ==> x in ys
  {}

  function Flatten<S>(groups: seq<seq<S>>): seq<S> {
    if groups == [] then [] else Flatten(groups[..|groups| - 1]) + groups[|groups| - 1]
  }

  lemma {:induction false} LatestAppend<K, S>(key: S -> K, stamp: S -> Stamp, xs: seq<S>, group: seq<S>, n: nat)
    requires n < |group|
    ensures Latest(key, stamp, xs + group[..n + 1])
            == Observe(key, stamp, Latest(key, stamp, xs + group[..n]), group[n])
  {
    assert (xs + group[..n + 1])[..|xs| + n] == xs + group[..n];
  }

  /** latestObservedStates, from the per-event state lists. */
  method LatestObservedStates<S(==,!new)>(groups: seq<seq<S>>, key: S -> string, stamp: S -> Stamp)
    returns (rows: seq<S>)
    ensures RowsOf(key, (s: S) => stamp(s).at, Latest(key, stamp, Flatten(groups)), rows)
  {
    var latest: map<string, S> := map[];
    for n := 0 to |groups|
      invariant latest == Latest(key, stamp, Flatten(groups[..n]))
    {
      ghost var before := Flatten(groups[..n]);
      assert groups[..n + 1][..n] == groups[..n];
      assert before + groups[n][..0] == before;
      for m := 0 to |groups[n]|
        invariant latest == Latest(key, stamp, before + groups[n][..m])
      {
        LatestAppend(key, stamp, before, groups[n], m);
        var state := groups[n][m];
        if key(state) !in latest || Before(stamp(latest[key(state)]), stamp(state)) {
          latest := latest[key(state) := state];
        }
      }
      assert groups[n][..|groups[n]|] == groups[n];
    }
    assert groups[..|groups|] == groups;
    rows := CollectRows(key, stamp, latest, Flatten(groups));
  }

  lemma {:induction false} DistinctOneMore<S>(key: S -> string, listed: seq<S>, s: S)
    requires DistinctKeys(key, listed) && forall x :: x in listed ==> key(x) != key(s)
    ensures DistinctKeys(key, listed + [s])
  {}

  /** The values of the map in some order, then sort.Slice. */
  method CollectRows<S(==,!new)>(key: S -> string, stamp: S -> Stamp, latest: map<string, S>, ghost states: seq<S>)
    returns (rows: seq<S>)
    requires latest == Latest(key, stamp, states)
    ensures RowsOf(key, (s: S) => stamp(s).at, latest, rows)
  {
    LatestIsGreatest(key, stamp, states);
    assert forall k :: k in latest ==> key(latest[k]) == k by {
      forall k | k in latest ensures key(latest[k]) == k {
        assert Greatest(key, stamp, states, k, latest[k]);
      }
    }
    var rowKey := (s: S) => RowKey(stamp(s).at, key(s));
    var listed: seq<S> := [];
    var pending := latest.Keys;
    while pending != {}
      invariant pending <= latest.Keys
      invariant forall s :: s in listed <==> key(s) in latest && key(s) !in pending && latest[key(s)] == s
      invariant DistinctKeys(key, listed)
      decreases |pending|
    {
      var k :| k in pending;
      DistinctOneMore(key, listed, latest[k]);
      listed := listed + [latest[k]];
      pending := pending - {k};
    }
    NewerRowStrictTotal();
    assert DistinctKeys(rowKey, listed) by {
      forall i, j | 0 <= i < j < |listed| ensures rowKey(listed[i]) != rowKey(listed[j]) {
        assert key(listed[i]) != key(listed[j]);
      }
    }
    rows := SortBy(NewerRow, rowKey, listed);
    SortForgetsOrder(NewerRow, rowKey, listed, listed);
    forall s ensures s in rows <==> s in listed {
      MembersOfSort(NewerRow, rowKey, listed, s);
    }
    assert StrictlySortedBy(NewerRow, (s: S) => RowKey(((t: S) => stamp(t).at)(s), key(s)), rows) by {
      forall i, j | 0 <= i < j < |rows| ensures NewerRow(RowKey(stamp(rows[i]).at, key(rows[i])), RowKey(stamp(rows[j]).at, key(rows[j]))) {
        assert NewerRow(rowKey(rows[i]), rowKey(rows[j]));
      }
    }
  }

  /** A report is newest first, and by key between rows of one time. */
  lemma {:induction false} RowsAreNewestFirst<S(!new)>(
      key: S -> string, at: S -> int, latest: map<string, S>, rows: seq<S>, i: nat, j: nat)
    requires RowsOf(key, at, latest, rows) && i < j < |rows|
    ensures at(rows[i]) > at(rows[j]) || (at(rows[i]) == at(rows[j]) && StrLess(key(rows[i]), key(rows[j])))
  {
    var rowKey := (s: S) => RowKey(at(s), key(s));
    assert NewerRow(rowKey(rows[i]), rowKey(rows[j]));
  }
}

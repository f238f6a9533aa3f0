/** Lists of event ids without repeats: appendUnique and the sorts after it
    (internal/breakdown/breakdown.go, internal/spans/projection.go). */
module IdLists {
  import opened Prelude
  import opened Ordering

  /** `values`, and after them each new non-empty addition. */
  function Appended(values: seq<string>, additions: seq<string>): seq<string> {
    if additions == [] then values
    else
      var front, last := Appended(values, additions[..|additions| - 1]), additions[|additions| - 1];
      if last == "" || last in front then front else front + [last]
  }

  /** In `xs`, `a` occurs before any `b`. */
  ghost predicate ComesFirst(xs: seq<string>, a: string, b: string) {
    exists p :: 0 <= p < |xs| && xs[p] == a && b !in xs[..p]
  }

  /** Appending adds exactly the non-empty additions, each once, where they first occur. */
  lemma {:induction false} AppendedLists(values: seq<string>, additions: seq<string>)
    ensures values <= Appended(values, additions)
    ensures forall id :: id in Appended(values, additions) <==> id in values || (id in additions && id != "")
    ensures NoRepeats(values) ==> NoRepeats(Appended(values, additions))
    ensures forall i, j :: |values| <= i < j < |Appended(values, additions)| ==>
              ComesFirst(additions, Appended(values, additions)[i], Appended(values, additions)[j])
  {
    if additions != [] {
      var front, last := additions[..|additions| - 1], additions[|additions| - 1];
      var before, after := Appended(values, front), Appended(values, additions);
      AppendedLists(values, front);
      assert additions == front + [last];
      forall i, j | |values| <= i < j < |after| ensures ComesFirst(additions, after[i], after[j]) {
        if j < |before| {
          assert before[i] == after[i] && before[j] == after[j];
          var p :| 0 <= p < |front| && front[p] == after[i] && after[j] !in front[..p];
          assert additions[p] == after[i] && additions[..p] == front[..p];
        } else {
          AppendedIsAddition(values, front, i);
          var p :| 0 <= p < |front| && front[p] == after[i];
          assert additions[p] == after[i] && additions[..p] == front[..p];
          assert last !in before;
        }
      }
    }
  }

  lemma {:induction false} AppendedIsAddition(values: seq<string>, additions: seq<string>, i: nat)
    requires |values| <= i < |Appended(values, additions)|
    ensures Appended(values, additions)[i] in additions
  {
    var front := additions[..|additions| - 1];
    if i < |Appended(values, front)| {
      AppendedIsAddition(values, front, i);
    }
  }

  /** appendUnique */
  method AppendUnique(values: seq<string>, additions: seq<string>) returns (r: seq<string>)
    ensures r == Appended(values, additions)
  {
    r := values;
    var seen := set v | v in values;
    for n := 0 to |additions|
      invariant r == Appended(values, additions[..n])
      invariant forall id :: id in seen <==> id in r
    {
      assert additions[..n + 1][..n] == additions[..n];
      var id := additions[n];
      if id != "" && id !in seen {
        r := r + [id];
        seen := seen + {id};
      }
    }
    assert additions[..|additions|] == additions;
  }

  /** `ids` are in order, each once. */
  ghost predicate Ascends(ids: seq<string>) {
    StrictlySortedBy(StrLess, (id: string) => id, ids)
  }

  /** sort.Strings, on a list without repeats. */
  method SortIds(ids: seq<string>) returns (r: seq<string>)
    requires NoRepeats(ids)
    ensures Ascends(r) && NoRepeats(r) && forall id :: id in r <==> id in ids
  {
    var key := (id: string) => id;
    StrLessStrictTotal();
    assert DistinctKeys(key, ids);
    SortForgetsOrder(StrLess, key, ids, ids);
    forall id ensures id in SortBy(StrLess, key, ids) <==> id in ids {
      MembersOfSort(StrLess, key, ids, id);
    }
    r := SortBy(StrLess, key, ids);
    assert forall i, j :: 0 <= i < j < |r| ==> StrLess(key(r[i]), key(r[j]));
  }

  /** Two ascending lists of the same ids are the same list. */
  lemma {:induction false} AscendingIsDetermined(a: seq<string>, b: seq<string>)
    requires Ascends(a) && Ascends(b) && forall id :: id in a <==> id in b
    ensures a == b
  {
    StrLessStrictTotal();
    SortedUnique(StrLess, (id: string) => id, a, b);
  }
}

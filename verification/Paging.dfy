/** Collecting a session's events page by page while the store changes
    (internal/api/insights_paging.go). */
module Paging {
  import opened Prelude
  import opened Ordering

  datatype Row = Row(stamp: Stamp, body: string)

  function StampOf(row: Row): Stamp { row.stamp }

  /** What a read of the store meets: an error, or the session's rows in (time, id) order. */
  datatype Snapshot = Unavailable | Stored(rows: seq<Row>)

  ghost predicate Ordered(rows: seq<Row>) {
    StrictlySortedBy(Before, StampOf, rows)
  }

  /** The store as each read meets it; it keeps its last state from then on. */
  type History = seq<Snapshot>

  ghost predicate Valid(history: History) {
    history != [] && forall k :: 0 <= k < |history| && history[k].Stored? ==> Ordered(history[k].rows)
  }

  function SnapshotAt(history: History, read: nat): Snapshot
    requires history != []
  {
    history[if read < |history| then read else |history| - 1]
  }

  function RowsAt(history: History, read: nat): seq<Row>
    requires history != []
  {
    var s := SnapshotAt(history, read);
    if s.Stored? then s.rows else []
  }

  type Cursor = Option<Stamp>

  predicate After(cursor: Cursor, row: Row) {
    cursor.None? || Before(cursor.value, row.stamp)
  }

  // ---- ListEvents -------------------------------------------------------------

  function Beyond(rows: seq<Row>, cursor: Cursor): seq<Row> {
    if rows == [] || After(cursor, rows[0]) then rows else Beyond(rows[1..], cursor)
  }

  /** The contract of the event reader: one row more than the limit, if there is one. */
  function ListEvents(rows: seq<Row>, cursor: Cursor, limit: nat): seq<Row> {
    var rest := Beyond(rows, cursor);
    if |rest| > limit + 1 then rest[..limit + 1] else rest
  }

  lemma {:induction false} BeyondIsTheRest(rows: seq<Row>, cursor: Cursor)
    requires Ordered(rows)
    ensures Ordered(Beyond(rows, cursor))
    ensures forall row :: row in Beyond(rows, cursor) <==> row in rows && After(cursor, row)
  {
    BeforeStrictTotal();
    if rows != [] {
      if After(cursor, rows[0]) {
        forall k | 0 <= k < |rows| ensures After(cursor, rows[k]) {
          assert k > 0 ==> Before(rows[0].stamp, rows[k].stamp);
        }
      } else {
        BeyondIsTheRest(rows[1..], cursor);
        assert rows == [rows[0]] + rows[1..];
      }
    }
  }

  /** Moving the cursor to a row beyond it leaves less to read. */
  lemma {:induction false} BeyondShrinks(rows: seq<Row>, cursor: Cursor, row: Row)
    requires Ordered(rows) && row in Beyond(rows, cursor)
    ensures |Beyond(rows, Some(row.stamp))| < |Beyond(rows, cursor)|
  {
    BeforeStrictTotal();
    if !After(cursor, rows[0]) {
      assert row in rows by { BeyondIsTheRest(rows, cursor); }
      BeyondShrinks(rows[1..], cursor, row);
      var k :| 0 <= k < |rows| && rows[k] == row;
      assert k > 0 ==> Before(rows[0].stamp, rows[k].stamp);
      assert !After(Some(row.stamp), rows[0]);
    } else {
      var k :| 0 <= k < |rows| && rows[k] == row;
      assert k > 0 ==> Before(rows[0].stamp, rows[k].stamp);
      assert !After(Some(row.stamp), rows[0]);
      BeyondNoLonger(rows[1..], Some(row.stamp));
    }
  }

  lemma {:induction false} PageShrinks(rows: seq<Row>, cursor: Cursor, page: seq<Row>)
    requires Ordered(rows) && page != [] && page <= Beyond(rows, cursor)
    ensures |Beyond(rows, Some(page[|page| - 1].stamp))| < |Beyond(rows, cursor)|
  {
    var last := |page| - 1;
    assert Beyond(rows, cursor)[last] == page[last];
    BeyondShrinks(rows, cursor, page[last]);
  }

  lemma {:induction false} BeyondNoLonger(rows: seq<Row>, cursor: Cursor)
    ensures |Beyond(rows, cursor)| <= |rows|
  {
    if rows != [] && !After(cursor, rows[0]) {
      BeyondNoLonger(rows[1..], cursor);
    }
  }

  // ---- the loop ---------------------------------------------------------------

  /** Read `i` is the one that covered this row's place: it lies beyond the cursor of
      that read and not beyond the next one. */
  ghost predicate ReadBy(history: History, cuts: seq<Cursor>, i: nat, row: Row)
    requires history != [] && i < |cuts|
  {
    row in RowsAt(history, i) && After(cuts[i], row) && (i + 1 < |cuts| ==> !After(cuts[i + 1], row))
  }

  /** `events` are exactly the rows met by the read that covered their place. */
  ghost predicate Collected(history: History, cuts: seq<Cursor>, done: nat, events: seq<Row>)
    requires history != []
  {
    && done <= |cuts|
    && forall row :: row in events <==> exists i :: 0 <= i < done && ReadBy(history, cuts, i, row)
  }

  /** The reads start at the beginning and only move on. */
  ghost predicate Advancing(cuts: seq<Cursor>) {
    && cuts != [] && cuts[0] == None
    && (forall i :: 1 <= i < |cuts| ==> cuts[i].Some?)
    && forall i, j :: 1 <= i < j < |cuts| ==> Before(cuts[i].value, cuts[j].value)
  }

  /** What holds before read `done`: everything collected lies at or before its cursor. */
  ghost predicate Progress(history: History, cuts: seq<Cursor>, done: nat, events: seq<Row>)
    requires history != []
  {
    && |cuts| == done + 1 && Advancing(cuts)
    && Collected(history, cuts, done, events) && Ordered(events)
    && forall row :: row in events ==> !After(cuts[done], row)
  }

  datatype Outcome = Failed | Complete(events: seq<Row>)

  /** A reader's answer, its reads starting at these cursors: an error exactly when the
      last read failed, else what the reads collected. */
  ghost predicate Answers(history: History, cuts: seq<Cursor>, r: Outcome)
    requires history != []
  {
    && Advancing(cuts)
    && (r.Failed? <==> SnapshotAt(history, |cuts| - 1).Unavailable?)
    && (r.Complete? ==> Ordered(r.events) && Collected(history, cuts, |cuts|, r.events))
  }

  /** insightSessionEvents. It ends on every history; one cursor per read. */
  method SessionEvents(history: History, limit: nat) returns (r: Outcome)
    requires Valid(history) && limit >= 1
    ensures exists cuts :: Answers(history, cuts, r)
  {
    ghost var cuts: seq<Cursor> := [None];
    var events: seq<Row>, cursor: Cursor, done: nat := [], None, 0;
    while true
      invariant |cuts| == done + 1 && cuts[done] == cursor
      invariant Progress(history, cuts, done, events)
      decreases if done < |history| then |history| - done else 0, |Beyond(RowsAt(history, |history| - 1), cursor)|
    {
      var snapshot := SnapshotAt(history, done);
      if snapshot.Unavailable? {
        assert Answers(history, cuts, Failed);
        return Failed;
      }
      var rows := ListEvents(snapshot.rows, cursor, limit);
      if |rows| <= limit {
        LastPage(history, cuts, done, events, rows);
        return Complete(events + rows);
      }
      var page := rows[..limit];
      PageRead(history, cuts, done, events, page);
      PageShrinks(snapshot.rows, cursor, page);
      cursor := Some(page[limit - 1].stamp);
      events, done, cuts := events + page, done + 1, cuts + [cursor];
    }
  }

  lemma {:induction false} Appended(events: seq<Row>, page: seq<Row>, cursor: Cursor)
    requires Ordered(events) && Ordered(page)
    requires forall row :: row in events ==> !After(cursor, row)
    requires forall row :: row in page ==> After(cursor, row)
    ensures Ordered(events + page)
  {
    BeforeStrictTotal();
    forall i, j | 0 <= i < |events| && 0 <= j < |page| ensures Before(events[i].stamp, page[j].stamp) {
      assert events[i] in events && page[j] in page;
      assert cursor.value == events[i].stamp || Before(events[i].stamp, cursor.value);
    }
  }

  /** A page cut off by the limit holds what lies between its cursor and its last row. */
  lemma {:induction false} PageRead(history: History, cuts: seq<Cursor>, done: nat, events: seq<Row>, page: seq<Row>)
    requires Valid(history) && Progress(history, cuts, done, events)
    requires page != [] && page <= Beyond(RowsAt(history, done), cuts[done])
    ensures var next := Some(page[|page| - 1].stamp);
            Progress(history, cuts + [next], done + 1, events + page)
  {
    BeforeStrictTotal();
    var rest, cursor, next := Beyond(RowsAt(history, done), cuts[done]), cuts[done], Some(page[|page| - 1].stamp);
    BeyondIsTheRest(RowsAt(history, done), cursor);
    assert forall k :: 0 <= k < |page| ==> page[k] == rest[k];
    assert forall row :: row in page ==> row in rest;
    Appended(events, page, cursor);
    assert page[|page| - 1] in page && After(cursor, page[|page| - 1]);
    forall row ensures row in page <==> ReadBy(history, cuts + [next], done, row) {
      InPage(rest, page, row);
    }
    CutsAdvance(cuts, next);
    NotAfterNext(events, page, rest, cursor);
    SlicesKept(history, cuts, next, done);
  }

  lemma {:induction false} CutsAdvance(cuts: seq<Cursor>, next: Cursor)
    requires Advancing(cuts) && next.Some?
    requires cuts[|cuts| - 1].Some? ==> Before(cuts[|cuts| - 1].value, next.value)
    ensures Advancing(cuts + [next])
  {
    BeforeStrictTotal();
    forall i | 1 <= i < |cuts| ensures Before(cuts[i].value, next.value) {
      assert i < |cuts| - 1 ==> Before(cuts[i].value, cuts[|cuts| - 1].value);
    }
  }

  lemma {:induction false} NotAfterNext(events: seq<Row>, page: seq<Row>, rest: seq<Row>, cursor: Cursor)
    requires Ordered(rest) && page != [] && page <= rest
    requires forall row :: row in events ==> !After(cursor, row)
    requires forall row :: row in page ==> After(cursor, row)
    ensures forall row :: row in events + page ==> !After(Some(page[|page| - 1].stamp), row)
  {
    BeforeStrictTotal();
    assert page[|page| - 1] in page;
    forall row | row in page ensures !After(Some(page[|page| - 1].stamp), row) {
      InPage(rest, page, row);
    }
  }

  lemma {:induction false} InPage(rest: seq<Row>, page: seq<Row>, row: Row)
    requires Ordered(rest) && page != [] && page <= rest
    ensures row in page <==> row in rest && !After(Some(page[|page| - 1].stamp), row)
  {
    BeforeStrictTotal();
    var last := |page| - 1;
    if row in rest {
      var k :| 0 <= k < |rest| && rest[k] == row;
      assert k < last ==> Before(rest[k].stamp, rest[last].stamp);
      assert k > last ==> Before(rest[last].stamp, rest[k].stamp);
      assert k <= last ==> page[k] == row;
    }
  }

  lemma {:induction false} SlicesKept(history: History, cuts: seq<Cursor>, next: Cursor, done: nat)
    requires history != [] && |cuts| == done + 1
    ensures forall i, row :: 0 <= i < done ==> (ReadBy(history, cuts + [next], i, row) <==> ReadBy(history, cuts, i, row))
  {}

  /** The page that is not cut off holds everything beyond its cursor. */
  lemma {:induction false} LastPage(history: History, cuts: seq<Cursor>, done: nat, events: seq<Row>, page: seq<Row>)
    requires Valid(history) && Progress(history, cuts, done, events)
    requires page == Beyond(RowsAt(history, done), cuts[done])
    ensures Collected(history, cuts, done + 1, events + page) && Ordered(events + page)
    ensures SnapshotAt(history, done).Stored? ==> Answers(history, cuts, Complete(events + page))
  {
    BeyondIsTheRest(RowsAt(history, done), cuts[done]);
    Appended(events, page, cuts[done]);
    assert forall row :: row in page <==> ReadBy(history, cuts, done, row);
  }

  // ---- what a reader may rely on ----------------------------------------------

  /** Some read covers the place of any row. */
  lemma {:induction false} SomeReadCovers(cuts: seq<Cursor>, n: nat, row: Row) returns (i: nat)
    requires Advancing(cuts) && n < |cuts|
    requires n + 1 < |cuts| ==> !After(cuts[n + 1], row)
    ensures i <= n && After(cuts[i], row) && (i + 1 < |cuts| ==> !After(cuts[i + 1], row))
  {
    if After(cuts[n], row) {
      i := n;
    } else {
      i := SomeReadCovers(cuts, n - 1, row);
    }
  }

  /** A row present at every read is returned, and nothing is returned that no read met. */
  lemma {:induction false} PresentRowsAreReturned(history: History, cuts: seq<Cursor>, events: seq<Row>, row: Row)
    requires Valid(history) && Answers(history, cuts, Complete(events))
    ensures (forall i: nat :: i < |cuts| ==> row in RowsAt(history, i)) ==> row in events
    ensures row in events ==> exists i: nat :: i < |cuts| && row in RowsAt(history, i)
  {
    var i := SomeReadCovers(cuts, |cuts| - 1, row);
    if forall i: nat :: i < |cuts| ==> row in RowsAt(history, i) {
      assert ReadBy(history, cuts, i, row);
    }
    if row in events {
      var j :| 0 <= j < |cuts| && ReadBy(history, cuts, j, row);
    }
  }

  /** On a store that does not change, the loop returns the whole ordered list. */
  lemma {:induction false} QuietStoreIsReadWhole(rows: seq<Row>, cuts: seq<Cursor>, events: seq<Row>)
    requires Ordered(rows) && Answers([Stored(rows)], cuts, Complete(events))
    ensures events == rows
  {
    var history := [Stored(rows)];
    forall row ensures row in events <==> row in rows {
      PresentRowsAreReturned(history, cuts, events, row);
      assert forall i: nat :: RowsAt(history, i) == rows;
    }
    BeforeStrictTotal();
    SortedUnique(Before, StampOf, events, rows);
  }

  /** A listing is the front of what lies beyond the cursor: all of it, or one row more than
      the limit. */
  lemma {:induction false} ListedIsFront(rows: seq<Row>, cursor: Cursor, limit: nat)
    ensures ListEvents(rows, cursor, limit) <= Beyond(rows, cursor)
    ensures |Beyond(rows, cursor)| <= limit ==> ListEvents(rows, cursor, limit) == Beyond(rows, cursor)
    ensures |Beyond(rows, cursor)| > limit ==> |ListEvents(rows, cursor, limit)| == limit + 1
  {}
}

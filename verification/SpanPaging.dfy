/** Paging the projected spans and labelling their parents
    (Page and setParentAvailability, internal/spans/projection.go; the cursor,
    internal/api/spans.go). */
module SpanPaging {
  import opened Prelude
  import opened SpanProjection

  ghost predicate Holds(records: seq<Record>, id: Id) {
    exists k :: 0 <= k < |records| && Identity(records[k]) == id
  }

  /** Some record is kept under this text. */
  ghost predicate HoldsText(records: seq<Record>, text: string) {
    exists k :: 0 <= k < |records| && KeyOf(records[k]) == text
  }

  /** How a record's parent is labelled on a page of `all`. */
  ghost function Label(r: Record, page: seq<Record>, all: seq<Record>): Availability {
    if r.parentSpanId.None? then Root
    else if HoldsText(page, SpanText((r.traceId, r.parentSpanId.value))) then Loaded
    else if HoldsText(all, SpanText((r.traceId, r.parentSpanId.value))) then NotLoaded
    else Absent
  }

  /** The part of `all` from `start` to `end`, each record labelled. */
  ghost predicate Labelled(page: seq<Record>, all: seq<Record>, start: nat, end: nat) {
    && start <= end <= |all| && |page| == end - start
    && forall k :: 0 <= k < |page| ==>
         page[k] == all[start + k].(availability := Label(all[start + k], all[start..end], all))
  }

  /** setParentAvailability, in place on the page's copy. */
  method SetParentAvailability(page: array<Record>, all: seq<Record>)
    modifies page
    ensures forall k :: 0 <= k < page.Length ==>
              page[k] == old(page[k]).(availability := Label(old(page[k]), old(page[..]), all))
  {
    ghost var before := page[..];
    var allTexts := set k | 0 <= k < |all| :: KeyOf(all[k]);
    var copied := page[..];
    var pageTexts := set k | 0 <= k < |copied| :: KeyOf(copied[k]);
    for n := 0 to page.Length
      invariant forall k :: 0 <= k < page.Length ==>
                  page[k] == if k < n then before[k].(availability := Label(before[k], before, all)) else before[k]
    {
      var r := page[n];
      if r.parentSpanId.None? {
        page[n] := r.(availability := Root);
      } else {
        var key := SpanText((r.traceId, r.parentSpanId.value));
        if key in pageTexts {
          page[n] := r.(availability := Loaded);
        } else if key in allTexts {
          page[n] := r.(availability := NotLoaded);
        } else {
          page[n] := r.(availability := Absent);
        }
      }
    }
  }

  /** Where the page after `cursor` starts: behind the record it names, else at the front. */
  ghost predicate StartsAt(records: seq<Record>, cursor: Id, start: nat) {
    if cursor != ("", "") && Holds(records, cursor) then
      && 1 <= start <= |records| && Identity(records[start - 1]) == cursor
      && forall k :: 0 <= k < start - 1 ==> Identity(records[k]) != cursor
    else start == 0
  }

  ghost predicate IsPage(records: seq<Record>, limit: nat, start: nat, page: seq<Record>, last: Option<Record>) {
    && start <= |records| && limit >= 1
    && Labelled(page, records, start, if start + limit < |records| then start + limit else |records|)
    && last == if start + limit < |records| then Some(records[start + limit - 1]) else None
  }

  method FindStart(records: seq<Record>, cursorTraceId: string, cursorSpanId: string) returns (start: nat)
    ensures start <= |records| && StartsAt(records, (cursorTraceId, cursorSpanId), start)
  {
    if cursorTraceId == "" && cursorSpanId == "" { return 0; }
    for index := 0 to |records|
      invariant forall k :: 0 <= k < index ==> Identity(records[k]) != (cursorTraceId, cursorSpanId)
    {
      if records[index].traceId == cursorTraceId && records[index].spanId == cursorSpanId { return index + 1; }
    }
    return 0;
  }

  method Page(records: seq<Record>, limit: nat, cursorTraceId: string, cursorSpanId: string)
    returns (page: seq<Record>, last: Option<Record>)
    requires limit >= 1
    ensures exists start :: StartsAt(records, (cursorTraceId, cursorSpanId), start) && IsPage(records, limit, start, page, last)
  {
    var start := FindStart(records, cursorTraceId, cursorSpanId);
    var end := start + limit;
    if end < |records| {
      last := Some(records[end - 1]);
    } else {
      end, last := |records|, None;
    }
    page := CopyPage(records, start, end);
    assert IsPage(records, limit, start, page, last);
  }

  /** The page's own copy, labelled. */
  method CopyPage(records: seq<Record>, start: nat, end: nat) returns (page: seq<Record>)
    requires start <= end <= |records|
    ensures Labelled(page, records, start, end)
  {
    var copied := new Record[end - start](k requires 0 <= k < end - start => records[start + k]);
    assert copied[..] == records[start..end];
    SetParentAvailability(copied, records);
    page := copied[..];
  }

  // ---- following the cursor ---------------------------------------------------

  ghost function Unlabelled(page: seq<Record>): seq<Record> {
    seq(|page|, k requires 0 <= k < |page| => page[k].(availability := Unset))
  }

  /** A reader's pages: each asked for with the identity of the one before's last record. */
  ghost predicate Follows(records: seq<Record>, limit: nat, cursor: Id, pages: seq<seq<Record>>, lasts: seq<Option<Record>>)
    decreases |pages|
  {
    && |pages| == |lasts| && pages != []
    && (exists start :: StartsAt(records, cursor, start) && IsPage(records, limit, start, pages[0], lasts[0]))
    && (|pages| > 1 ==> lasts[0].Some? && Follows(records, limit, Identity(lasts[0].value), pages[1..], lasts[1..]))
  }

  ghost function Concat(pages: seq<seq<Record>>): seq<Record> {
    if pages == [] then [] else pages[0] + Concat(pages[1..])
  }

  /** Records as the projection leaves them: unlabelled, each span named and once. */
  ghost predicate Pageable(records: seq<Record>) {
    && (forall i, j :: 0 <= i < j < |records| ==> Identity(records[i]) != Identity(records[j]))
    && forall k :: 0 <= k < |records| ==> Identity(records[k]) != ("", "") && records[k].availability == Unset
  }

  lemma {:induction false} StartIsUnique(records: seq<Record>, cursor: Id, a: nat, b: nat)
    requires StartsAt(records, cursor, a) && StartsAt(records, cursor, b)
    ensures a == b
  {}

  /** What one page holds, before the labels. */
  lemma {:induction false} PageContents(records: seq<Record>, limit: nat, start: nat, page: seq<Record>, last: Option<Record>)
    requires Pageable(records) && IsPage(records, limit, start, page, last)
    ensures Unlabelled(page) == records[start..start + |page|]
    ensures last.None? <==> start + |page| == |records|
    ensures last.Some? ==> page != [] && StartsAt(records, Identity(last.value), start + |page|)
  {
    if last.Some? {
      assert Identity(records[start + limit - 1]) == Identity(last.value);
    }
  }

  lemma {:induction false} UnlabelledConcat(a: seq<Record>, b: seq<Record>)
    ensures Unlabelled(a + b) == Unlabelled(a) + Unlabelled(b)
  {}

  lemma {:induction false} FirstPage(
      records: seq<Record>, limit: nat, cursor: Id, start: nat, pages: seq<seq<Record>>, lasts: seq<Option<Record>>)
    requires Pageable(records) && StartsAt(records, cursor, start) && Follows(records, limit, cursor, pages, lasts)
    ensures start + |pages[0]| <= |records| && Unlabelled(pages[0]) == records[start..start + |pages[0]|]
    ensures lasts[0].None? <==> start + |pages[0]| == |records|
    ensures lasts[0].Some? ==> pages[0] != [] && StartsAt(records, Identity(lasts[0].value), start + |pages[0]|)
  {
    var first :| StartsAt(records, cursor, first) && IsPage(records, limit, first, pages[0], lasts[0]);
    StartIsUnique(records, cursor, start, first);
    PageContents(records, limit, start, pages[0], lasts[0]);
  }

  lemma {:induction false} PagesJoin(records: seq<Record>, start: nat, page: seq<Record>, rest: seq<Record>)
    requires start + |page| + |rest| <= |records|
    requires Unlabelled(page) == records[start..start + |page|]
    requires Unlabelled(rest) == records[start + |page|..start + |page| + |rest|]
    ensures Unlabelled(page + rest) == records[start..start + |page + rest|]
  {
    UnlabelledConcat(page, rest);
  }

  /** The pages hold the records from `start` on, in order and once each; the last gives no
      cursor exactly if nothing follows it, and every other moves on. */
  ghost predicate Visits(records: seq<Record>, start: nat, pages: seq<seq<Record>>, lasts: seq<Option<Record>>) {
    && |pages| == |lasts| && pages != []
    && start + |Concat(pages)| <= |records|
    && Unlabelled(Concat(pages)) == records[start..start + |Concat(pages)|]
    && (lasts[|lasts| - 1].None? <==> start + |Concat(pages)| == |records|)
    && |pages| <= |Concat(pages)| + 1
  }

  lemma {:induction false} OnePage(
      records: seq<Record>, start: nat, pages: seq<seq<Record>>, lasts: seq<Option<Record>>)
    requires |pages| == |lasts| == 1 && start + |pages[0]| <= |records|
    requires Unlabelled(pages[0]) == records[start..start + |pages[0]|]
    requires lasts[0].None? <==> start + |pages[0]| == |records|
    ensures Visits(records, start, pages, lasts)
  {
    assert pages[1..] == [] && Concat([]) == [];
    assert Concat(pages) == pages[0];
  }

  lemma {:induction false} OneMorePage(
      records: seq<Record>, start: nat, pages: seq<seq<Record>>, lasts: seq<Option<Record>>)
    requires |pages| == |lasts| > 1 && pages[0] != [] && start + |pages[0]| <= |records|
    requires Unlabelled(pages[0]) == records[start..start + |pages[0]|]
    requires Visits(records, start + |pages[0]|, pages[1..], lasts[1..])
    ensures Visits(records, start, pages, lasts)
  {
    PagesJoin(records, start, pages[0], Concat(pages[1..]));
  }

  lemma {:induction false} RestFollows(
      records: seq<Record>, limit: nat, cursor: Id, pages: seq<seq<Record>>, lasts: seq<Option<Record>>)
    requires Follows(records, limit, cursor, pages, lasts)
    ensures |pages| == |lasts| && pages != []
    ensures |pages| > 1 ==> lasts[0].Some? && Follows(records, limit, Identity(lasts[0].value), pages[1..], lasts[1..])
  {}

  lemma {:induction false} PagesVisitOnce(
      records: seq<Record>, limit: nat, cursor: Id, start: nat, pages: seq<seq<Record>>, lasts: seq<Option<Record>>)
    requires Pageable(records) && StartsAt(records, cursor, start)
    requires Follows(records, limit, cursor, pages, lasts)
    ensures Visits(records, start, pages, lasts)
    decreases |pages|
  {
    RestFollows(records, limit, cursor, pages, lasts);
    FirstPage(records, limit, cursor, start, pages, lasts);
    if |pages| > 1 {
      PagesVisitOnce(records, limit, Identity(lasts[0].value), start + |pages[0]|, pages[1..], lasts[1..]);
      OneMorePage(records, start, pages, lasts);
    } else {
      OnePage(records, start, pages, lasts);
    }
  }

  /** From the empty cursor until no cursor is given, a reader meets each record once. */
  lemma {:induction false} ReadersMeetEveryRecordOnce(
      records: seq<Record>, limit: nat, pages: seq<seq<Record>>, lasts: seq<Option<Record>>)
    requires Pageable(records)
    requires Follows(records, limit, ("", ""), pages, lasts) && lasts[|lasts| - 1].None?
    ensures Unlabelled(Concat(pages)) == records
    ensures |pages| <= |records| + 1
  {
    PagesVisitOnce(records, limit, ("", ""), 0, pages, lasts);
  }

  /** A page's label tells where the parent is in the whole list: by the text its ids join
      to, and so by its ids where no trace id holds a NUL. */
  lemma {:induction false} LabelsAreRight(records: seq<Record>, start: nat, end: nat, page: seq<Record>, k: nat)
    requires Labelled(page, records, start, end) && k < |page|
    ensures page[k].availability == Root <==> page[k].parentSpanId.None?
    ensures page[k].parentSpanId.Some? ==>
              var text := SpanText((page[k].traceId, page[k].parentSpanId.value));
              && (page[k].availability == Loaded <==> HoldsText(page, text))
              && (page[k].availability == Absent <==> !HoldsText(records, text))
    ensures page[k].parentSpanId.Some? && NulFree(records) ==>
              var parent := (page[k].traceId, page[k].parentSpanId.value);
              && (page[k].availability == Loaded <==> Holds(page, parent))
              && (page[k].availability == Absent <==> !Holds(records, parent))
  {
    var part := records[start..end];
    assert forall i :: 0 <= i < |page| ==> Identity(page[i]) == Identity(part[i]);
    if page[k].parentSpanId.Some? {
      var parent := (page[k].traceId, page[k].parentSpanId.value);
      SameTexts(page, part, SpanText(parent));
      PartOfWhole(records, start, end, SpanText(parent));
      if NulFree(records) {
        assert records[start + k].traceId == page[k].traceId;
        assert forall i :: 0 <= i < |page| ==> page[i].traceId == records[start + i].traceId;
        TextsAreIds(page, parent);
        TextsAreIds(records, parent);
      }
    }
  }

  ghost predicate NulFree(records: seq<Record>) {
    forall k :: 0 <= k < |records| ==> '\0' !in records[k].traceId
  }

  lemma {:induction false} SameTexts(a: seq<Record>, b: seq<Record>, text: string)
    requires |a| == |b| && forall i :: 0 <= i < |a| ==> Identity(a[i]) == Identity(b[i])
    ensures HoldsText(a, text) <==> HoldsText(b, text)
  {
    assert forall i :: 0 <= i < |a| ==> KeyOf(a[i]) == KeyOf(b[i]);
  }

  lemma {:induction false} PartOfWhole(records: seq<Record>, start: nat, end: nat, text: string)
    requires start <= end <= |records|
    ensures HoldsText(records[start..end], text) ==> HoldsText(records, text)
  {
    var part := records[start..end];
    if i :| 0 <= i < |part| && KeyOf(part[i]) == text {
      assert KeyOf(records[start + i]) == text;
    }
  }

  lemma {:induction false} TextsAreIds(records: seq<Record>, id: Id)
    requires NulFree(records) && '\0' !in id.0
    ensures HoldsText(records, SpanText(id)) <==> Holds(records, id)
  {
    forall k | 0 <= k < |records| ensures KeyOf(records[k]) == SpanText(id) <==> Identity(records[k]) == id {
      NulFreeTexts(Identity(records[k]), id);
    }
  }

  /** Records read from events, which name their span, project to a list readers can page. */
  lemma {:induction false} ProjectionsArePageable(ordered: seq<SpanEvent>, result: seq<Record>)
    requires Projects(ordered, result)
    requires forall e :: e in ordered && e.record.Some? ==>
               Identity(e.record.value) != ("", "") && e.record.value.availability == Unset
    ensures Pageable(result)
  {
    forall i, j | 0 <= i < j < |result| ensures Identity(result[i]) != Identity(result[j]) {
      OneRecordPerKey(ordered, result, i, j);
    }
    forall k | 0 <= k < |result| ensures Identity(result[k]) != ("", "") && result[k].availability == Unset {
      assert result[k] in result;
      var key := KeyOf(result[k]);
      FilterMapMember((e: SpanEvent) => OfSpan(key, e), ordered, Replays(key, ordered)[0]);
    }
  }

  // ---- the cursor's text ------------------------------------------------------

  function BeforeNul(s: string): string {
    if s == "" || s[0] == '\0' then "" else [s[0]] + BeforeNul(s[1..])
  }

  /** spanCursor: split at the first NUL; ("", "") for anything but two non-empty parts. */
  function SpanCursor(text: string): Id {
    var trace := BeforeNul(text);
    if |trace| >= |text| || trace == "" || |trace| + 1 == |text| then ("", "")
    else (trace, text[|trace| + 1..])
  }

  lemma {:induction false} BeforeNulSplits(trace: string, rest: string)
    ensures |BeforeNul(trace + ['\0'] + rest)| <= |trace|
    ensures BeforeNul(trace + ['\0'] + rest) == trace <==> '\0' !in trace
  {
    var text := trace + ['\0'] + rest;
    if trace == "" {
      assert text[0] == '\0';
    } else {
      assert text[1..] == trace[1..] + ['\0'] + rest;
      BeforeNulSplits(trace[1..], rest);
      assert trace == [trace[0]] + trace[1..];
    }
  }

  /** A record's cursor leads back to it exactly when its trace id holds no NUL. */
  lemma {:induction false} CursorRoundTrip(id: Id)
    requires id.0 != "" && id.1 != ""
    ensures SpanCursor(SpanText(id)) == id <==> '\0' !in id.0
  {
    BeforeNulSplits(id.0, id.1);
    var text := SpanText(id);
    if '\0' !in id.0 {
      assert text[|id.0| + 1..] == id.1;
    }
  }
}

/** One record per span, whatever the order and replays of its events
    (Project, internal/spans/projection.go). */
module SpanProjection {
  import opened Prelude
  import opened Ordering
  import opened IdLists

  type Id = (string, string)

  datatype Availability = Unset | Root | Loaded | NotLoaded | Absent

  /** The envelope fields the projection copies without reading them. */
  datatype Details = Details(
    name: Option<string>, endAt: Option<string>, durationMs: Option<int>, statusCode: Option<int>,
    provider: string, tool: string, sourceVersion: string)

  datatype Record = Record(
    traceId: string, spanId: string, parentSpanId: Option<string>, availability: Availability,
    startAt: Option<string>, details: Details, sourceIds: seq<string>, operationIds: seq<string>)

  /** An event and the record read from its span envelope, if it has one. */
  datatype SpanEvent = SpanEvent(stamp: Stamp, record: Option<Record>)

  function StampOf(e: SpanEvent): Stamp { e.stamp }
  function Identity(r: Record): Id { (r.traceId, r.spanId) }

  /** `trace + "\x00" + span` */
  function SpanText(id: Id): string { id.0 + ['\0'] + id.1 }

  /** The key records are gathered under. */
  function KeyOf(r: Record): string { SpanText(Identity(r)) }

  function SourceIds(r: Record): seq<string> { r.sourceIds }
  function OperationIds(r: Record): seq<string> { r.operationIds }

  // ---- recordLess -------------------------------------------------------------

  type Position = (Option<string>, Id)

  function PositionOf(r: Record): Position { (r.startAt, Identity(r)) }

  /** recordLess: by the start's text, records without a start last, then by identity. */
  predicate RecordLess(a: Position, b: Position) {
    if a.0.Some? && b.0.Some? && a.0.value != b.0.value then StrLess(a.0.value, b.0.value)
    else if a.0.Some? && b.0.None? then true
    else if a.0.None? && b.0.Some? then false
    else if a.1.0 != b.1.0 then StrLess(a.1.0, b.1.0)
    else StrLess(a.1.1, b.1.1)
  }

  lemma {:induction false} RecordLessStrictTotal()
    ensures StrictTotal(RecordLess)
  {
    StrLessStrictTotal();
    forall a: Position, b: Position ensures a == b || RecordLess(a, b) || RecordLess(b, a) {
      assert a == (a.0, (a.1.0, a.1.1)) && b == (b.0, (b.1.0, b.1.1));
    }
    forall a: Position, b: Position, c: Position | RecordLess(a, b) && RecordLess(b, c) ensures RecordLess(a, c) {
      PositionTransitive(a, b, c);
    }
  }

  lemma {:induction false} PositionTransitive(a: Position, b: Position, c: Position)
    requires RecordLess(a, b) && RecordLess(b, c)
    ensures RecordLess(a, c)
  {
    StrLessStrictTotal();
    assert forall x: string, y: string, z: string :: StrLess(x, y) && StrLess(y, z) ==> StrLess(x, z);
    assert forall x: string :: !StrLess(x, x);
  }

  // ---- id lists ---------------------------------------------------------------

  ghost function Named(ids: seq<string>): set<string> {
    set id | id in ids && id != ""
  }

  lemma {:induction false} AppendedNamed(values: seq<string>, additions: seq<string>)
    ensures Named(Appended(values, additions)) == Named(values) + Named(additions)
  {
    AppendedLists(values, additions);
  }

  /** `ids` lists exactly `members`, in order, each once. */
  ghost predicate Lists(ids: seq<string>, members: set<string>) {
    Ascends(ids) && (forall id :: id in ids <==> id in members)
  }

  method SortedUnique(values: seq<string>) returns (r: seq<string>)
    ensures Lists(r, Named(values))
  {
    AppendedLists([], values);
    var unique := AppendUnique([], values);
    r := SortIds(unique);
  }

  // ---- Project ----------------------------------------------------------------

  function OfSpan(key: string, e: SpanEvent): Option<Record> {
    if e.record.Some? && KeyOf(e.record.value) == key then e.record else None
  }

  /** The records one span's events carry, in the order given. */
  function Replays(key: string, events: seq<SpanEvent>): seq<Record> {
    FilterMap((e: SpanEvent) => OfSpan(key, e), events)
  }

  ghost function IdsOf(field: Record -> seq<string>, records: seq<Record>): set<string> {
    if records == [] then {} else IdsOf(field, records[..|records| - 1]) + Named(field(records[|records| - 1]))
  }

  /** `r` is the earliest of the replays, with the ids of all of them. */
  ghost predicate Merges(replays: seq<Record>, r: Record) {
    && replays != []
    && r == replays[0].(sourceIds := r.sourceIds, operationIds := r.operationIds)
    && Lists(r.sourceIds, IdsOf(SourceIds, replays))
    && Lists(r.operationIds, IdsOf(OperationIds, replays))
  }

  ghost predicate Projects(ordered: seq<SpanEvent>, result: seq<Record>) {
    && StrictlySortedBy(RecordLess, PositionOf, result)
    && (forall r :: r in result ==> Merges(Replays(KeyOf(r), ordered), r))
    && forall key :: Replays(key, ordered) != [] ==> exists r :: r in result && KeyOf(r) == key
  }

  /** What the map holds for a span before the final sort. */
  ghost predicate Gathers(replays: seq<Record>, r: Record) {
    && replays != []
    && r == replays[0].(sourceIds := r.sourceIds, operationIds := r.operationIds)
    && Named(r.sourceIds) == IdsOf(SourceIds, replays)
    && Named(r.operationIds) == IdsOf(OperationIds, replays)
  }

  ghost predicate Grouped(ordered: seq<SpanEvent>, byKey: map<string, Record>) {
    && (forall key :: key in byKey <==> Replays(key, ordered) != [])
    && forall key :: key in byKey ==> Gathers(Replays(key, ordered), byKey[key])
  }

  method GroupByKey(ordered: seq<SpanEvent>) returns (byKey: map<string, Record>)
    ensures Grouped(ordered, byKey)
  {
    byKey := map[];
    for n := 0 to |ordered|
      invariant Grouped(ordered[..n], byKey)
    {
      ghost var before := byKey;
      if ordered[n].record.Some? {
        var record := ordered[n].record.value;
        var key := KeyOf(record);
        if key !in byKey {
          byKey := byKey[key := record];
        } else {
          var existing := byKey[key];
          var sources := AppendUnique(existing.sourceIds, record.sourceIds);
          var operations := AppendUnique(existing.operationIds, record.operationIds);
          AppendedNamed(existing.sourceIds, record.sourceIds);
          AppendedNamed(existing.operationIds, record.operationIds);
          byKey := byKey[key := existing.(sourceIds := sources, operationIds := operations)];
        }
      }
      GroupedGrows(ordered, n, before, byKey);
    }
    assert ordered[..|ordered|] == ordered;
  }

  /** One event's change to the map. */
  ghost predicate Takes(e: SpanEvent, before: map<string, Record>, after: map<string, Record>) {
    if e.record.None? then after == before
    else
      var r, key := e.record.value, KeyOf(e.record.value);
      && key in after && after == before[key := after[key]]
      && (key !in before ==> after[key] == r)
      && (key in before ==>
            && after[key] == before[key].(sourceIds := after[key].sourceIds, operationIds := after[key].operationIds)
            && Named(after[key].sourceIds) == Named(before[key].sourceIds) + Named(r.sourceIds)
            && Named(after[key].operationIds) == Named(before[key].operationIds) + Named(r.operationIds))
  }

  lemma {:induction false} GroupedGrows(ordered: seq<SpanEvent>, n: nat, before: map<string, Record>, after: map<string, Record>)
    requires n < |ordered| && Grouped(ordered[..n], before) && Takes(ordered[n], before, after)
    ensures Grouped(ordered[..n + 1], after)
  {
    var e := ordered[n];
    forall key ensures key in after <==> Replays(key, ordered[..n + 1]) != [] {
      ReplaysStep(key, ordered, n);
    }
    forall key | key in after ensures Gathers(Replays(key, ordered[..n + 1]), after[key]) {
      ReplaysStep(key, ordered, n);
      GathersStep(key, Replays(key, ordered[..n]), e, before, after);
    }
  }

  lemma {:induction false} GathersStep(
      key: string, replays: seq<Record>, e: SpanEvent, before: map<string, Record>, after: map<string, Record>)
    requires Takes(e, before, after) && key in after
    requires if key in before then Gathers(replays, before[key]) else replays == []
    ensures Gathers(replays + (if OfSpan(key, e).Some? then [e.record.value] else []), after[key])
  {
    if OfSpan(key, e).None? {
      assert replays + [] == replays;
    } else if key in before {
      OneMoreReplay(replays, e.record.value);
    } else {
      OneReplay(e.record.value);
      assert replays + [e.record.value] == [e.record.value];
    }
  }

  lemma {:induction false} ReplaysStep(key: string, ordered: seq<SpanEvent>, n: nat)
    requires n < |ordered|
    ensures Replays(key, ordered[..n + 1])
            == Replays(key, ordered[..n]) + (if OfSpan(key, ordered[n]).Some? then [ordered[n].record.value] else [])
  {
    FilterMapStep((e: SpanEvent) => OfSpan(key, e), ordered, n);
  }

  lemma {:induction false} OneReplay(r: Record)
    ensures Gathers([r], r)
  {
    assert [r][..0] == [];
    assert IdsOf(SourceIds, [r]) == {} + Named(r.sourceIds);
    assert IdsOf(OperationIds, [r]) == {} + Named(r.operationIds);
  }

  lemma {:induction false} OneMoreReplay(replays: seq<Record>, r: Record)
    ensures IdsOf(SourceIds, replays + [r]) == IdsOf(SourceIds, replays) + Named(r.sourceIds)
    ensures IdsOf(OperationIds, replays + [r]) == IdsOf(OperationIds, replays) + Named(r.operationIds)
  {
    assert (replays + [r])[..|replays|] == replays;
  }

  method Project(events: seq<SpanEvent>) returns (result: seq<Record>)
    ensures Projects(SortBy(Before, StampOf, events), result)
  {
    var ordered := SortBy(Before, StampOf, events);
    var byKey := GroupByKey(ordered);
    var unsorted := Finish(ordered, byKey);
    result := SortBy(RecordLess, PositionOf, unsorted);
    ResultSorted(ordered, unsorted, result);
  }

  /** The map is left in any order; each record's ids are sorted as it goes. */
  method Finish(ordered: seq<SpanEvent>, byKey: map<string, Record>) returns (unsorted: seq<Record>)
    requires Grouped(ordered, byKey)
    ensures Finished(ordered, byKey.Keys, unsorted)
  {
    unsorted := [];
    var pending := byKey.Keys;
    while pending != {}
      invariant pending <= byKey.Keys
      invariant Finished(ordered, byKey.Keys - pending, unsorted)
      decreases pending
    {
      var key := Pick(pending);
      var record := byKey[key];
      var sources := SortedUnique(record.sourceIds);
      var operations := SortedUnique(record.operationIds);
      var finished := record.(sourceIds := sources, operationIds := operations);
      ReplaysCarryKey(key, ordered);
      FinishedGrows(ordered, byKey.Keys - pending, unsorted, key, finished);
      unsorted := unsorted + [finished];
      assert byKey.Keys - (pending - {key}) == byKey.Keys - pending + {key};
      pending := pending - {key};
    }
    assert byKey.Keys - pending == byKey.Keys;
  }

  /** One finished record for each of `keys`. */
  ghost predicate Finished(ordered: seq<SpanEvent>, keys: set<string>, records: seq<Record>) {
    && (forall k :: 0 <= k < |records| ==>
          KeyOf(records[k]) in keys && Merges(Replays(KeyOf(records[k]), ordered), records[k]))
    && DistinctKeys(KeyOf, records)
    && forall key :: key in keys ==> exists k :: 0 <= k < |records| && KeyOf(records[k]) == key
  }

  lemma {:induction false} FinishedGrows(ordered: seq<SpanEvent>, keys: set<string>, records: seq<Record>, key: string, r: Record)
    requires Finished(ordered, keys, records) && key !in keys
    requires KeyOf(r) == key && Merges(Replays(key, ordered), r)
    ensures Finished(ordered, keys + {key}, records + [r])
  {
    var all := records + [r];
    assert all[|records|] == r;
    forall k | k in keys ensures exists i :: 0 <= i < |all| && KeyOf(all[i]) == k {
      var i :| 0 <= i < |records| && KeyOf(records[i]) == k;
      assert all[i] == records[i];
    }
  }

  lemma {:induction false} ReplaysCarryKey(key: string, ordered: seq<SpanEvent>)
    requires Replays(key, ordered) != []
    ensures KeyOf(Replays(key, ordered)[0]) == key
  {
    var f := (e: SpanEvent) => OfSpan(key, e);
    FilterMapMember(f, ordered, Replays(key, ordered)[0]);
  }

  lemma {:induction false} ResultSorted(ordered: seq<SpanEvent>, unsorted: seq<Record>, result: seq<Record>)
    requires exists keys :: Finished(ordered, keys, unsorted) && forall key :: key in keys <==> Replays(key, ordered) != []
    requires result == SortBy(RecordLess, PositionOf, unsorted)
    ensures Projects(ordered, result)
  {
    RecordLessStrictTotal();
    assert forall i, j :: 0 <= i < j < |unsorted| ==> KeyOf(unsorted[i]) != KeyOf(unsorted[j]);
    assert DistinctKeys(PositionOf, unsorted);
    SortForgetsOrder(RecordLess, PositionOf, unsorted, unsorted);
    forall r ensures r in result <==> r in unsorted {
      MembersOfSort(RecordLess, PositionOf, unsorted, r);
    }
    forall key | Replays(key, ordered) != [] ensures exists r :: r in result && KeyOf(r) == key {
      var k :| 0 <= k < |unsorted| && KeyOf(unsorted[k]) == key;
      assert unsorted[k] in result;
    }
  }

  // ---- the projection is determined -------------------------------------------

  lemma {:induction false} MergesUnique(replays: seq<Record>, a: Record, b: Record)
    requires Merges(replays, a) && Merges(replays, b)
    ensures a == b
  {
    StrLessStrictTotal();
    SortedUniqueIds(a.sourceIds, b.sourceIds, IdsOf(SourceIds, replays));
    SortedUniqueIds(a.operationIds, b.operationIds, IdsOf(OperationIds, replays));
  }

  lemma {:induction false} SortedUniqueIds(a: seq<string>, b: seq<string>, members: set<string>)
    requires Lists(a, members) && Lists(b, members)
    ensures a == b
  {
    AscendingIsDetermined(a, b);
  }

  lemma {:induction false} ProjectionIncluded(ordered: seq<SpanEvent>, a: seq<Record>, b: seq<Record>)
    requires Projects(ordered, a) && Projects(ordered, b)
    ensures forall r :: r in a ==> r in b
  {
    forall r | r in a ensures r in b {
      assert Replays(KeyOf(r), ordered) != [];
      var other :| other in b && KeyOf(other) == KeyOf(r);
      MergesUnique(Replays(KeyOf(r), ordered), r, other);
    }
  }

  /** Events with distinct (time, id) project alike in any order. */
  lemma {:induction false} ProjectionForgetsOrder(
      xs: seq<SpanEvent>, ys: seq<SpanEvent>, a: seq<Record>, b: seq<Record>)
    requires multiset(xs) == multiset(ys) && DistinctKeys(StampOf, xs)
    requires Projects(SortBy(Before, StampOf, xs), a) && Projects(SortBy(Before, StampOf, ys), b)
    ensures a == b
  {
    BeforeStrictTotal();
    SortForgetsOrder(Before, StampOf, xs, ys);
    ProjectionIncluded(SortBy(Before, StampOf, xs), a, b);
    ProjectionIncluded(SortBy(Before, StampOf, xs), b, a);
    RecordLessStrictTotal();
    Ordering.SortedUnique(RecordLess, PositionOf, a, b);
  }

  /** No two records share a key, so none share a span. */
  lemma {:induction false} OneRecordPerKey(ordered: seq<SpanEvent>, result: seq<Record>, i: nat, j: nat)
    requires Projects(ordered, result) && i < j < |result|
    ensures KeyOf(result[i]) != KeyOf(result[j])
  {
    assert result[i] in result && result[j] in result;
    assert RecordLess(PositionOf(result[i]), PositionOf(result[j]));
    if KeyOf(result[i]) == KeyOf(result[j]) {
      MergesUnique(Replays(KeyOf(result[i]), ordered), result[i], result[j]);
      RecordLessStrictTotal();
    }
  }

  /** The span has a record of its own. */
  ghost predicate HasRecord(result: seq<Record>, id: Id) {
    exists r :: r in result && Identity(r) == id
  }

  /** Two spans of the events are kept under one text. */
  ghost predicate ShareText(ordered: seq<SpanEvent>, a: SpanEvent, b: SpanEvent) {
    && a in ordered && b in ordered && a.record.Some? && b.record.Some?
    && KeyOf(a.record.value) == KeyOf(b.record.value) && Identity(a.record.value) != Identity(b.record.value)
  }

  /** Every span of the events has a record of its own exactly when no two spans' ids join
      to one text. */
  lemma {:induction false} OneRecordPerSpan(ordered: seq<SpanEvent>, result: seq<Record>)
    requires Projects(ordered, result)
    ensures (forall e :: e in ordered && e.record.Some? ==> HasRecord(result, Identity(e.record.value)))
            <==> forall a, b :: !ShareText(ordered, a, b)
  {
    if forall a, b :: !ShareText(ordered, a, b) {
      forall e | e in ordered && e.record.Some? ensures HasRecord(result, Identity(e.record.value)) {
        var r, x := RecordUnder(ordered, result, e);
        assert !ShareText(ordered, e, x);
      }
    }
    if forall e :: e in ordered && e.record.Some? ==> HasRecord(result, Identity(e.record.value)) {
      forall a, b ensures !ShareText(ordered, a, b) {
        if ShareText(ordered, a, b) {
          OwnRecordsDiffer(ordered, result, a, b);
        }
      }
    }
  }

  /** The record an event is gathered in, and the event that gave it its span. */
  lemma {:induction false} RecordUnder(ordered: seq<SpanEvent>, result: seq<Record>, e: SpanEvent) returns (r: Record, x: SpanEvent)
    requires Projects(ordered, result) && e in ordered && e.record.Some?
    ensures r in result && KeyOf(r) == KeyOf(e.record.value)
    ensures x in ordered && x.record.Some? && Identity(x.record.value) == Identity(r)
  {
    var key := KeyOf(e.record.value);
    var f := (x: SpanEvent) => OfSpan(key, x);
    FilterMapMember(f, ordered, e.record.value);
    assert f(e) == Some(e.record.value);
    var replays := Replays(key, ordered);
    assert e.record.value in replays;
    r :| r in result && KeyOf(r) == key;
    assert replays[0] in replays;
    FilterMapMember(f, ordered, replays[0]);
    x :| x in ordered && f(x) == Some(replays[0]);
  }

  lemma {:induction false} OwnRecordsDiffer(ordered: seq<SpanEvent>, result: seq<Record>, a: SpanEvent, b: SpanEvent)
    requires Projects(ordered, result) && a.record.Some? && b.record.Some?
    requires HasRecord(result, Identity(a.record.value)) && HasRecord(result, Identity(b.record.value))
    requires KeyOf(a.record.value) == KeyOf(b.record.value)
    ensures Identity(a.record.value) == Identity(b.record.value)
  {
    var r :| r in result && Identity(r) == Identity(a.record.value);
    var q :| q in result && Identity(q) == Identity(b.record.value);
    MergesUnique(Replays(KeyOf(r), ordered), r, q);
  }

  /** So it is where no trace id holds a NUL. */
  lemma {:induction false} NulFreeSpansAreApart(ordered: seq<SpanEvent>, result: seq<Record>)
    requires Projects(ordered, result)
    requires forall e :: e in ordered && e.record.Some? ==> '\0' !in e.record.value.traceId
    ensures forall e :: e in ordered && e.record.Some? ==> HasRecord(result, Identity(e.record.value))
  {
    forall a, b ensures !ShareText(ordered, a, b) {
      if a in ordered && b in ordered && a.record.Some? && b.record.Some? {
        NulFreeTexts(Identity(a.record.value), Identity(b.record.value));
      }
    }
    OneRecordPerSpan(ordered, result);
  }

  lemma {:induction false} NulFreeTexts(a: Id, b: Id)
    requires '\0' !in a.0 && '\0' !in b.0
    ensures SpanText(a) == SpanText(b) <==> a == b
  {
    if SpanText(a) == SpanText(b) {
      JoinSplits('\0', a.0, a.1, b.0, b.1);
      assert a == (a.0, a.1) && b == (b.0, b.1);
    }
  }

  /** Span "x" NUL "y" of trace "t", and span "y" of trace "t" NUL "x": one of them has no
      record of its own. */
  lemma {:induction false} SeparatorsMergeSpans(a: SpanEvent, b: SpanEvent, result: seq<Record>)
    requires a.record.Some? && Identity(a.record.value) == ("t", "x\0y")
    requires b.record.Some? && Identity(b.record.value) == ("t\0x", "y")
    requires Projects([a, b], result)
    ensures !HasRecord(result, ("t", "x\0y")) || !HasRecord(result, ("t\0x", "y"))
  {
    assert SpanText(("t", "x\0y")) == "t\0x\0y" == SpanText(("t\0x", "y"));
    assert |"t"| == 1 && |"t\0x"| == 3;
    if HasRecord(result, ("t", "x\0y")) && HasRecord(result, ("t\0x", "y")) {
      OwnRecordsDiffer([a, b], result, a, b);
    }
  }

  lemma {:induction false} IdsOfMember(field: Record -> seq<string>, records: seq<Record>, id: string)
    ensures id in IdsOf(field, records) <==> id != "" && exists k :: 0 <= k < |records| && id in field(records[k])
  {
    if records != [] {
      var front, last := records[..|records| - 1], records[|records| - 1];
      IdsOfMember(field, front, id);
      assert id in Named(field(last)) <==> id in field(last) && id != "";
      assert forall k :: 0 <= k < |front| ==> front[k] == records[k];
    }
  }

  /** Each span event's record names it, and no record of another span does: `e` is an
      event carrying its own id alone, as records are read. */
  ghost predicate Genuine(events: seq<SpanEvent>) {
    forall e :: e in events && e.record.Some? ==> e.stamp.id != "" && e.record.value.sourceIds == [e.stamp.id]
  }

  lemma {:induction false} EveryEventIsCited(ordered: seq<SpanEvent>, result: seq<Record>, e: SpanEvent, r: Record)
    requires Projects(ordered, result) && Genuine(ordered)
    requires forall x, y :: x in ordered && y in ordered && x.stamp.id == y.stamp.id ==> x == y
    requires e in ordered && e.record.Some? && r in result
    ensures e.stamp.id in r.sourceIds <==> KeyOf(r) == KeyOf(e.record.value)
  {
    var key := KeyOf(r);
    var f := (x: SpanEvent) => OfSpan(key, x);
    var replays := Replays(key, ordered);
    IdsOfMember(SourceIds, replays, e.stamp.id);
    FilterMapMember(f, ordered, e.record.value);
    if e.stamp.id in r.sourceIds {
      var k :| 0 <= k < |replays| && e.stamp.id in replays[k].sourceIds;
      FilterMapMember(f, ordered, replays[k]);
      var x :| x in ordered && f(x) == Some(replays[k]);
      assert x.stamp.id == e.stamp.id;
    }
    if key == KeyOf(e.record.value) {
      assert f(e) == Some(e.record.value);
      var k :| 0 <= k < |replays| && replays[k] == e.record.value;
    }
  }

  // ---- the order of the list --------------------------------------------------

  /** One text comes before the other, character by character. */
  ghost predicate TextBefore(a: string, b: string) {
    exists n: nat :: DiffersAt(a, b, n)
  }

  /** Record `a` is listed ahead of `b`: it starts at an earlier text, or has a start and `b`
      has none, or both start alike and its ids come first. */
  ghost predicate Ahead(a: Record, b: Record) {
    || (a.startAt.Some? && b.startAt.Some? && TextBefore(a.startAt.value, b.startAt.value))
    || (a.startAt.Some? && b.startAt.None?)
    || (a.startAt == b.startAt && TextBefore(a.traceId, b.traceId))
    || (a.startAt == b.startAt && a.traceId == b.traceId && TextBefore(a.spanId, b.spanId))
  }

  /** Every record is ahead of all that follow it. */
  lemma {:induction false} RecordsAreAhead(ordered: seq<SpanEvent>, result: seq<Record>, i: nat, j: nat)
    requires Projects(ordered, result) && i < j < |result|
    ensures Ahead(result[i], result[j])
  {
    var a, b := result[i], result[j];
    if a.startAt.Some? && b.startAt.Some? {
      StrLessIsLexicographic(a.startAt.value, b.startAt.value);
    }
    StrLessIsLexicographic(a.traceId, b.traceId);
    StrLessIsLexicographic(a.spanId, b.spanId);
  }
}

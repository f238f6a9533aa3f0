/** Credential and secret file accesses, found anywhere in an event
    (internal/governance/risky_access.go). */
module RiskyAccess {
  import opened Prelude
  import opened Canonical
  import Folds
  import TypedHomes

  datatype Access = FileRead(value: string) | ShellCommand(value: string)

  predicate IsPathKey(k: Key) { k.FilePath? || k.Path? || k.File? || k.Filename? }
  predicate IsCommandKey(k: Key) { k.Command? || k.CommandLine? || k.Cmd? || k.FullCommand? }

  /** leafAccess: what a non-blank string under a known key records. */
  function LeafAccess(k: Key, v: Json): Option<Access> {
    if !v.JStr? || Blank(v.s) then None
    else if IsPathKey(k) then Some(FileRead(v.s))
    else if IsCommandKey(k) then Some(ShellCommand(v.s))
    else None
  }

  // ---- what a value holds -----------------------------------------------------

  /** Every access in a value, at any depth. Map order is not defined, so a bag. */
  ghost function AccessesIn(v: Json): multiset<Access>
    decreases v, 1, 0
  {
    match v
    case JObj(fields) => FieldAccesses(v, fields.Keys)
    case JArr(items) => ItemAccesses(v, |items|)
    case _ => multiset{}
  }

  ghost function FieldAccesses(v: Json, keys: set<Key>): multiset<Access>
    requires v.JObj? && keys <= v.fields.Keys
    decreases v, 0, |keys|
  {
    if keys == {} then multiset{}
    else
      var k :| k in keys;
      FieldAccess(v, k) + FieldAccesses(v, keys - {k})
  }

  ghost function FieldAccess(v: Json, k: Key): multiset<Access>
    requires v.JObj? && k in v.fields
    decreases v, 0, 0
  {
    if LeafAccess(k, v.fields[k]).Some? then multiset{LeafAccess(k, v.fields[k]).value} else AccessesIn(v.fields[k])
  }

  ghost function ItemAccesses(v: Json, n: nat): multiset<Access>
    requires v.JArr? && n <= |v.items|
    decreases v, 0, n
  {
    if n == 0 then multiset{} else ItemAccesses(v, n - 1) + AccessesIn(v.items[n - 1])
  }

  lemma {:induction false} FirstField(v: Json, keys: set<Key>) returns (first: Key)
    requires v.JObj? && keys <= v.fields.Keys && keys != {}
    ensures first in keys && FieldAccesses(v, keys) == FieldAccess(v, first) + FieldAccesses(v, keys - {first})
  {
    first :| first in keys && FieldAccesses(v, keys) == FieldAccess(v, first) + FieldAccesses(v, keys - {first});
  }

  /** Any key may be taken first. */
  lemma {:induction false} TakeField(v: Json, keys: set<Key>, k: Key)
    requires v.JObj? && keys <= v.fields.Keys && k in keys
    ensures FieldAccesses(v, keys) == FieldAccess(v, k) + FieldAccesses(v, keys - {k})
    decreases |keys|
  {
    var first := FirstField(v, keys);
    if first != k {
      TakeField(v, keys - {first}, k);
      TakeField(v, keys - {k}, first);
      assert keys - {first} - {k} == keys - {k} - {first};
      SwapTaken(FieldAccess(v, first), FieldAccess(v, k), FieldAccesses(v, keys - {k} - {first}));
    }
  }

  lemma {:induction false} SwapTaken(a: multiset<Access>, b: multiset<Access>, rest: multiset<Access>)
    ensures a + (b + rest) == b + (a + rest)
  {}

  // ---- the walk ---------------------------------------------------------------

  class AccessList {
    var items: seq<Access>

    constructor ()
      ensures items == []
    {
      items := [];
    }
  }

  /** walkAccesses: map fields are met in any order. */
  method WalkAccesses(v: Json, out: AccessList)
    modifies out
    ensures multiset(out.items) == multiset(old(out.items)) + AccessesIn(v)
    decreases v
  {
    if v.JObj? {
      var pending := v.fields.Keys;
      while pending != {}
        invariant pending <= v.fields.Keys
        invariant multiset(out.items) + FieldAccesses(v, pending) == multiset(old(out.items)) + AccessesIn(v)
        decreases pending
      {
        var k := Pick(pending);
        TakeField(v, pending, k);
        pending := pending - {k};
        var leaf := LeafAccess(k, v.fields[k]);
        if leaf.Some? {
          out.items := out.items + [leaf.value];
          continue;
        }
        WalkAccesses(v.fields[k], out);
      }
    } else if v.JArr? {
      for n := 0 to |v.items|
        invariant multiset(out.items) == multiset(old(out.items)) + ItemAccesses(v, n)
      {
        WalkAccesses(v.items[n], out);
      }
    }
  }

  ghost function EventAccesses(e: Event): multiset<Access> {
    AccessesIn(JObj(e.attributes)) + AccessesIn(JObj(e.extensions))
  }

  method CollectAccesses(e: Event) returns (accesses: seq<Access>)
    ensures multiset(accesses) == EventAccesses(e)
  {
    var out := new AccessList();
    WalkAccesses(JObj(e.attributes), out);
    WalkAccesses(JObj(e.extensions), out);
    accesses := out.items;
  }

  // ---- the report -------------------------------------------------------------

  /** How paths and commands are classified, and how a time is written: not interpreted.
      None is anything but a secret. */
  datatype Classifier = Classifier(
    path: string -> Option<(string, string)>, command: string -> Option<(string, string)>, writeTime: int -> string)

  datatype Finding = Finding(access: Access, class_: string, boundary: string, observedAt: string, sessionId: string)

  datatype Verdict = Violation | NotViolation | Indeterminate
  datatype Report = Report(findings: seq<Finding>, verdict: Verdict, observed: bool)

  /** classifyAccess */
  function Classify(c: Classifier, e: Event, a: Access): Option<Finding> {
    var secret := if a.FileRead? then c.path(a.value) else c.command(a.value);
    if secret.None? then None
    else Some(Finding(a, secret.value.0, secret.value.1, c.writeTime(e.env.occurredAt), TrimSpace(e.env.sessionId)))
  }

  function EventFindings(c: Classifier, e: Event, accesses: seq<Access>): seq<Finding> {
    FilterMap((a: Access) => Classify(c, e, a), accesses)
  }

  /** One list of accesses per event, each in the order its walk met them. */
  ghost predicate Walked(events: seq<Event>, lists: seq<seq<Access>>) {
    && |lists| == |events|
    && forall i :: 0 <= i < |events| ==> multiset(lists[i]) == EventAccesses(events[i])
  }

  function FindingsOver(c: Classifier, events: seq<Event>, lists: seq<seq<Access>>): seq<Finding>
    requires |lists| == |events|
  {
    if events == [] then []
    else
      var n := |events| - 1;
      FindingsOver(c, events[..n], lists[..n]) + EventFindings(c, events[n], lists[n])
  }

  ghost predicate SawAccess(lists: seq<seq<Access>>) {
    exists i :: 0 <= i < |lists| && lists[i] != []
  }

  /** What the report says of some walk of the events. */
  ghost predicate Reports(c: Classifier, events: seq<Event>, lists: seq<seq<Access>>, report: Report) {
    && Walked(events, lists)
    && report.findings == FindingsOver(c, events, lists)
    && (report.verdict == Violation <==> report.findings != [])
    && (report.verdict == NotViolation <==> report.findings == [] && SawAccess(lists))
    && (report.observed <==> report.verdict != Indeterminate)
  }

  method RiskyAccessFromEvents(c: Classifier, events: seq<Event>) returns (report: Report)
    ensures exists lists :: Reports(c, events, lists, report)
  {
    var findings: seq<Finding>, observedAccess := [], false;
    ghost var lists: seq<seq<Access>> := [];
    for n := 0 to |events|
      invariant Walked(events[..n], lists)
      invariant findings == FindingsOver(c, events[..n], lists)
      invariant observedAccess <==> SawAccess(lists)
    {
      var accesses := CollectAccesses(events[n]);
      var own := ClassifyAll(c, events[n], accesses);
      findings := findings + own;
      observedAccess := observedAccess || accesses != [];
      EventWalked(c, events, n, lists, accesses);
      lists := lists + [accesses];
    }
    assert events[..|events|] == events;
    report :=
      if findings != [] then Report(findings, Violation, true)
      else if observedAccess then Report(findings, NotViolation, true)
      else Report(findings, Indeterminate, false);
    assert Reports(c, events, lists, report);
  }

  method ClassifyAll(c: Classifier, e: Event, accesses: seq<Access>) returns (findings: seq<Finding>)
    ensures findings == EventFindings(c, e, accesses)
  {
    findings := [];
    ghost var f := (a: Access) => Classify(c, e, a);
    for k := 0 to |accesses|
      invariant findings == FilterMap(f, accesses[..k])
    {
      FilterMapStep(f, accesses, k);
      var finding := Classify(c, e, accesses[k]);
      if finding.Some? {
        findings := findings + [finding.value];
      }
    }
    assert accesses[..|accesses|] == accesses;
  }

  lemma {:induction false} EventWalked(
      c: Classifier, events: seq<Event>, n: nat, lists: seq<seq<Access>>, accesses: seq<Access>)
    requires n < |events| && Walked(events[..n], lists) && multiset(accesses) == EventAccesses(events[n])
    ensures Walked(events[..n + 1], lists + [accesses])
    ensures FindingsOver(c, events[..n + 1], lists + [accesses])
            == FindingsOver(c, events[..n], lists) + EventFindings(c, events[n], accesses)
    ensures SawAccess(lists + [accesses]) <==> SawAccess(lists) || accesses != []
  {
    var all := lists + [accesses];
    assert events[..n + 1][..n] == events[..n] && all[..n] == lists && all[n] == accesses;
    assert forall i :: 0 <= i < n ==> all[i] == lists[i];
  }

  // ---- thin access events -----------------------------------------------------

  function ThinAccessEvent(e: Event, a: Access, index: nat): Event {
    Event(
      Envelope(
        e.env.schemaVersion, e.env.eventId + ":access:" + TypedHomes.FormatInt(index), e.env.eventType,
        e.env.occurredAt, e.env.receivedAt, e.env.provider, e.env.tool, "", "", "", "",
        e.env.sessionId, None, None, e.env.privacyLevel),
      map[SourceEventId := JStr(e.env.eventId), (if a.FileRead? then FilePath else Command) := JStr(a.value)],
      map[])
  }

  /** The thin events of one event, numbered from `start`. */
  function ThinEach(e: Event, accesses: seq<Access>, start: nat): seq<Event> {
    if accesses == [] then []
    else
      var k := |accesses| - 1;
      ThinEach(e, accesses[..k], start) + [ThinAccessEvent(e, accesses[k], start + k)]
  }

  function ThinOver(events: seq<Event>, lists: seq<seq<Access>>): seq<Event>
    requires |lists| == |events|
  {
    if events == [] then []
    else
      var n := |events| - 1;
      var front := ThinOver(events[..n], lists[..n]);
      front + ThinEach(events[n], lists[n], |front|)
  }

  method ThinAccessEvents(events: seq<Event>) returns (thin: seq<Event>)
    ensures exists lists :: Walked(events, lists) && thin == ThinOver(events, lists)
  {
    thin := [];
    ghost var lists: seq<seq<Access>> := [];
    var index := 0;
    for n := 0 to |events|
      invariant Walked(events[..n], lists)
      invariant thin == ThinOver(events[..n], lists) && index == |thin|
    {
      var accesses := CollectAccesses(events[n]);
      ThinGrows(events, n, lists, accesses);
      var own;
      own, index := ThinOne(events[n], accesses, index);
      thin, lists := thin + own, lists + [accesses];
    }
    assert events[..|events|] == events;
  }

  method ThinOne(e: Event, accesses: seq<Access>, start: nat) returns (thin: seq<Event>, index: nat)
    ensures thin == ThinEach(e, accesses, start) && index == start + |thin|
  {
    thin, index := [], start;
    for k := 0 to |accesses|
      invariant thin == ThinEach(e, accesses[..k], start)
      invariant index == start + k == start + |thin|
    {
      assert accesses[..k + 1][..k] == accesses[..k];
      thin := thin + [ThinAccessEvent(e, accesses[k], index)];
      index := index + 1;
    }
    assert accesses[..|accesses|] == accesses;
  }

  lemma {:induction false} ThinGrows(events: seq<Event>, n: nat, lists: seq<seq<Access>>, accesses: seq<Access>)
    requires n < |events| && Walked(events[..n], lists) && multiset(accesses) == EventAccesses(events[n])
    ensures Walked(events[..n + 1], lists + [accesses])
    ensures var front := ThinOver(events[..n], lists);
            ThinOver(events[..n + 1], lists + [accesses]) == front + ThinEach(events[n], accesses, |front|)
  {
    var all := lists + [accesses];
    assert events[..n + 1][..n] == events[..n] && all[..n] == lists && all[n] == accesses;
    assert forall i :: 0 <= i < n ==> all[i] == lists[i];
  }

  // ---- the thin report --------------------------------------------------------

  /** Only non-blank values are recorded. */
  lemma {:induction false} AccessesAreNotBlank(v: Json, a: Access)
    requires a in AccessesIn(v)
    ensures !Blank(a.value)
    decreases v, 1, 0
  {
    if v.JObj? {
      FieldsAreNotBlank(v, v.fields.Keys, a);
    } else if v.JArr? {
      ItemsAreNotBlank(v, |v.items|, a);
    }
  }

  lemma {:induction false} FieldsAreNotBlank(v: Json, keys: set<Key>, a: Access)
    requires v.JObj? && keys <= v.fields.Keys && a in FieldAccesses(v, keys)
    ensures !Blank(a.value)
    decreases v, 0, |keys|
  {
    var k := FirstField(v, keys);
    if a in FieldAccesses(v, keys - {k}) {
      FieldsAreNotBlank(v, keys - {k}, a);
    } else if LeafAccess(k, v.fields[k]).None? {
      AccessesAreNotBlank(v.fields[k], a);
    }
  }

  lemma {:induction false} ItemsAreNotBlank(v: Json, n: nat, a: Access)
    requires v.JArr? && n <= |v.items| && a in ItemAccesses(v, n)
    ensures !Blank(a.value)
    decreases v, 0, n
  {
    if a in ItemAccesses(v, n - 1) {
      ItemsAreNotBlank(v, n - 1, a);
    } else {
      AccessesAreNotBlank(v.items[n - 1], a);
    }
  }

  /** A thin event holds the one access it was made for. */
  lemma {:induction false} ThinHoldsItsAccess(e: Event, a: Access, index: nat)
    requires !Blank(a.value)
    ensures EventAccesses(ThinAccessEvent(e, a, index)) == multiset{a}
  {
    var thin := ThinAccessEvent(e, a, index);
    var v, key := JObj(thin.attributes), if a.FileRead? then FilePath else Command;
    TwoFields(v, key, SourceEventId);
    assert LeafAccess(key, v.fields[key]) == Some(a) && LeafAccess(SourceEventId, v.fields[SourceEventId]) == None;
    NoFields(JObj(thin.extensions));
  }

  lemma {:induction false} NoFields(v: Json)
    requires v == JObj(map[])
    ensures AccessesIn(v) == multiset{}
  {}

  lemma {:induction false} TwoFields(v: Json, a: Key, b: Key)
    requires v.JObj? && a != b && v.fields.Keys == {a, b}
    ensures AccessesIn(v) == FieldAccess(v, a) + FieldAccess(v, b)
  {
    TakeField(v, {a, b}, a);
    assert {a, b} - {a} == {b};
    TakeField(v, {b}, b);
    assert {b} - {b} == {};
    assert FieldAccesses(v, {}) == multiset{};
  }

  lemma {:induction false} OneAccessList(list: seq<Access>, a: Access)
    requires multiset(list) == multiset{a}
    ensures list == [a]
  {
    assert |list| == |multiset(list)| == 1;
    assert list[0] in multiset(list);
  }

  lemma {:induction false} FindingsConcat(
      c: Classifier, es: seq<Event>, fs: seq<Event>, a: seq<seq<Access>>, b: seq<seq<Access>>)
    requires |es| == |a| && |fs| == |b|
    ensures FindingsOver(c, es + fs, a + b) == FindingsOver(c, es, a) + FindingsOver(c, fs, b)
  {
    if fs == [] {
      assert es + fs == es && a + b == a;
    } else {
      var n, k := |es + fs| - 1, |fs| - 1;
      assert (es + fs)[..n] == es + fs[..k] && (a + b)[..n] == a + b[..k];
      assert (es + fs)[n] == fs[k] && (a + b)[n] == b[k];
      FindingsConcat(c, es, fs[..k], a, b[..k]);
      Regroup(FindingsOver(c, es, a), FindingsOver(c, fs[..k], b[..k]), EventFindings(c, fs[k], b[k]));
    }
  }

  /** Thin events made for a list of accesses report exactly those accesses' findings. */
  lemma {:induction false} ThinEachReports(
      c: Classifier, e: Event, accesses: seq<Access>, start: nat, thin: seq<Event>, lists: seq<seq<Access>>)
    requires forall k :: 0 <= k < |accesses| ==> !Blank(accesses[k].value)
    requires thin == ThinEach(e, accesses, start) && Walked(thin, lists)
    ensures FindingsOver(c, thin, lists) == EventFindings(c, e, accesses)
  {
    if accesses == [] {
      assert EventFindings(c, e, accesses) == [];
    } else {
      var k := |accesses| - 1;
      var front := ThinEach(e, accesses[..k], start);
      var before := OneThinReports(c, e, accesses[k], start + k, front, thin, lists);
      ThinEachReports(c, e, accesses[..k], start, front, before);
      LastFinding(c, e, accesses);
    }
  }

  lemma {:induction false} ThinEachSees(e: Event, accesses: seq<Access>, start: nat, thin: seq<Event>, lists: seq<seq<Access>>)
    requires forall k :: 0 <= k < |accesses| ==> !Blank(accesses[k].value)
    requires thin == ThinEach(e, accesses, start) && Walked(thin, lists)
    ensures SawAccess(lists) <==> accesses != []
  {
    ThinEachLength(e, accesses, start);
    if accesses != [] {
      var k := |accesses| - 1;
      ThinEachLength(e, accesses[..k], start);
      assert thin[k] == ThinAccessEvent(e, accesses[k], start + k);
      ThinHoldsItsAccess(e, accesses[k], start + k);
      OneAccessList(lists[k], accesses[k]);
    }
  }

  /** One more thin event adds the finding of its access. */
  lemma {:induction false} OneThinReports(
      c: Classifier, e: Event, a: Access, index: nat, front: seq<Event>, thin: seq<Event>, lists: seq<seq<Access>>)
    returns (before: seq<seq<Access>>)
    requires !Blank(a.value) && thin == front + [ThinAccessEvent(e, a, index)] && Walked(thin, lists)
    ensures Walked(front, before)
    ensures FindingsOver(c, thin, lists)
            == FindingsOver(c, front, before) + (if Classify(c, e, a).Some? then [Classify(c, e, a).value] else [])
  {
    var k := |front|;
    before := lists[..k];
    assert thin[..k] == front;
    assert forall i :: 0 <= i < k ==> thin[i] == front[i];
    ThinHoldsItsAccess(e, a, index);
    OneAccessList(lists[k], a);
    OneFinding(c, e, a, index);
  }

  lemma {:induction false} LastFinding(c: Classifier, e: Event, accesses: seq<Access>)
    requires accesses != []
    ensures var k := |accesses| - 1;
            EventFindings(c, e, accesses)
            == EventFindings(c, e, accesses[..k])
               + (if Classify(c, e, accesses[k]).Some? then [Classify(c, e, accesses[k]).value] else [])
  {
    var k := |accesses| - 1;
    FilterMapStep((a: Access) => Classify(c, e, a), accesses, k);
    assert accesses[..k + 1] == accesses;
  }

  lemma {:induction false} ThinEachLength(e: Event, accesses: seq<Access>, start: nat)
    ensures |ThinEach(e, accesses, start)| == |accesses|
  {
    if accesses != [] {
      ThinEachLength(e, accesses[..|accesses| - 1], start);
    }
  }

  lemma {:induction false} WalkedPrefix(events: seq<Event>, lists: seq<seq<Access>>, k: nat)
    requires Walked(events, lists) && k <= |events|
    ensures Walked(events[..k], lists[..k])
  {}

  lemma {:induction false} OneFinding(c: Classifier, e: Event, a: Access, index: nat)
    ensures EventFindings(c, ThinAccessEvent(e, a, index), [a])
            == if Classify(c, e, a).Some? then [Classify(c, e, a).value] else []
  {
    assert [a][..0] == [];
  }

  lemma {:induction false} ThinReports(
      c: Classifier, events: seq<Event>, lists: seq<seq<Access>>, thinLists: seq<seq<Access>>)
    requires Walked(events, lists) && Walked(ThinOver(events, lists), thinLists)
    ensures FindingsOver(c, ThinOver(events, lists), thinLists) == FindingsOver(c, events, lists)
    ensures SawAccess(thinLists) <==> SawAccess(lists)
  {
    if events != [] {
      var n := |events| - 1;
      var front := ThinOver(events[..n], lists[..n]);
      var m := |front|;
      WalkedPrefix(events, lists, n);
      WalkedParts(front, ThinEach(events[n], lists[n], m), thinLists);
      ThinReports(c, events[..n], lists[..n], thinLists[..m]);
      ListsAreNotBlank(events[n], lists[n]);
      ThinEachReports(c, events[n], lists[n], m, ThinEach(events[n], lists[n], m), thinLists[m..]);
      ThinEachSees(events[n], lists[n], m, ThinEach(events[n], lists[n], m), thinLists[m..]);
      PartsReport(c, front, ThinEach(events[n], lists[n], m), thinLists);
      SawParts(lists, n);
      SawOne(lists, n);
      SawParts(thinLists, m);
    }
  }

  lemma {:induction false} SawOne(lists: seq<seq<Access>>, n: nat)
    requires n + 1 == |lists|
    ensures SawAccess(lists[n..]) <==> lists[n] != []
  {
    assert lists[n..] == [lists[n]] && lists[n..][0] == lists[n];
  }

  lemma {:induction false} PartsReport(c: Classifier, front: seq<Event>, own: seq<Event>, lists: seq<seq<Access>>)
    requires |lists| == |front + own|
    ensures FindingsOver(c, front + own, lists)
            == FindingsOver(c, front, lists[..|front|]) + FindingsOver(c, own, lists[|front|..])
  {
    FindingsConcat(c, front, own, lists[..|front|], lists[|front|..]);
    assert lists[..|front|] + lists[|front|..] == lists;
  }

  lemma {:induction false} WalkedParts(front: seq<Event>, own: seq<Event>, lists: seq<seq<Access>>)
    requires Walked(front + own, lists)
    ensures Walked(front, lists[..|front|]) && Walked(own, lists[|front|..])
  {
    forall i | 0 <= i < |own| ensures multiset(lists[|front|..][i]) == EventAccesses(own[i]) {
      assert (front + own)[|front| + i] == own[i];
    }
    forall i | 0 <= i < |front| ensures multiset(lists[..|front|][i]) == EventAccesses(front[i]) {
      assert (front + own)[i] == front[i];
    }
  }

  lemma {:induction false} SawParts(lists: seq<seq<Access>>, m: nat)
    requires m <= |lists|
    ensures SawAccess(lists) <==> SawAccess(lists[..m]) || SawAccess(lists[m..])
  {
    if i :| 0 <= i < |lists| && lists[i] != [] {
      assert i < m ==> lists[..m][i] != [];
      assert i >= m ==> lists[m..][i - m] != [];
    }
    if i :| 0 <= i < |lists[m..]| && lists[m..][i] != [] {
      assert lists[m + i] != [];
    }
  }

  lemma {:induction false} ListsAreNotBlank(e: Event, accesses: seq<Access>)
    requires multiset(accesses) == EventAccesses(e)
    ensures forall k :: 0 <= k < |accesses| ==> !Blank(accesses[k].value)
  {
    forall k | 0 <= k < |accesses| ensures !Blank(accesses[k].value) {
      assert accesses[k] in multiset(accesses);
      if accesses[k] in AccessesIn(JObj(e.attributes)) {
        AccessesAreNotBlank(JObj(e.attributes), accesses[k]);
      } else {
        AccessesAreNotBlank(JObj(e.extensions), accesses[k]);
      }
    }
  }

  /** Two walks of the same events find the same, up to order. */
  lemma {:induction false} WalksAgree(c: Classifier, events: seq<Event>, a: seq<seq<Access>>, b: seq<seq<Access>>)
    requires Walked(events, a) && Walked(events, b)
    ensures multiset(FindingsOver(c, events, a)) == multiset(FindingsOver(c, events, b))
    ensures SawAccess(a) <==> SawAccess(b)
  {
    if events != [] {
      var n := |events| - 1;
      WalkedPrefix(events, a, n);
      WalkedPrefix(events, b, n);
      WalksAgree(c, events[..n], a[..n], b[..n]);
      Folds.FilterMapMultiset((x: Access) => Classify(c, events[n], x), a[n], b[n]);
      assert |a[n]| == |multiset(a[n])| == |multiset(b[n])| == |b[n]|;
      SawParts(a, n);
      SawParts(b, n);
      SawOne(a, n);
      SawOne(b, n);
    }
  }

  /** The report on thin access events is the report on the events: the same findings,
      verdict and visibility, for payloads nested to any depth. */
  lemma {:induction false} ThinReportAgrees(
      c: Classifier, events: seq<Event>, lists: seq<seq<Access>>, report: Report,
      thinFrom: seq<seq<Access>>, thinLists: seq<seq<Access>>, thinReport: Report)
    requires Reports(c, events, lists, report)
    requires Walked(events, thinFrom)
    requires Reports(c, ThinOver(events, thinFrom), thinLists, thinReport)
    ensures multiset(thinReport.findings) == multiset(report.findings)
    ensures thinReport.verdict == report.verdict && thinReport.observed == report.observed
  {
    ThinReports(c, events, thinFrom, thinLists);
    WalksAgree(c, events, thinFrom, lists);
    assert |report.findings| == |multiset(report.findings)| == |multiset(thinReport.findings)| == |thinReport.findings|;
  }
}

/** What the risky-access report finds, read off the events
    (internal/governance/risky_access.go). */
module AccessFindings {
  import opened Prelude
  import opened Canonical
  import opened RiskyAccess

  // ---- accesses ---------------------------------------------------------------

  /** Somewhere in the value, this text stands under this key. */
  ghost predicate Stands(v: Json, key: Key, text: string)
    decreases v
  {
    match v
    case JObj(fields) =>
      || (key in fields && fields[key] == JStr(text))
      || exists k :: k in fields && Stands(fields[k], key, text)
    case JArr(items) => exists i :: 0 <= i < |items| && Stands(items[i], key, text)
    case _ => false
  }

  /** A non-blank text under one of the four path keys. */
  ghost predicate ReadsFile(v: Json, path: string) {
    && !Blank(path)
    && (Stands(v, FilePath, path) || Stands(v, Path, path) || Stands(v, File, path) || Stands(v, Filename, path))
  }

  /** A non-blank text under one of the four command keys. */
  ghost predicate RunsCommand(v: Json, line: string) {
    && !Blank(line)
    && (Stands(v, Command, line) || Stands(v, CommandLine, line) || Stands(v, Cmd, line) || Stands(v, FullCommand, line))
  }

  ghost predicate Records(v: Json, a: Access) {
    match a
    case FileRead(path) => ReadsFile(v, path)
    case ShellCommand(line) => RunsCommand(v, line)
  }

  /** The keys an access may stand under. */
  ghost predicate Under(k: Key, a: Access) {
    match a
    case FileRead(_) => k in {FilePath, Path, File, Filename}
    case ShellCommand(_) => k in {Command, CommandLine, Cmd, FullCommand}
  }

  lemma {:induction false} RecordsUnfold(v: Json, a: Access)
    ensures v.JObj? ==>
              (Records(v, a) <==>
               exists k :: k in v.fields && ((Under(k, a) && v.fields[k] == JStr(a.value) && !Blank(a.value)) || Records(v.fields[k], a)))
    ensures v.JArr? ==> (Records(v, a) <==> exists i :: 0 <= i < |v.items| && Records(v.items[i], a))
    ensures !v.JObj? && !v.JArr? ==> !Records(v, a)
  {}

  /** What a value holds is what stands in it, at any depth. */
  lemma {:induction false} AccessesAreRecorded(v: Json, a: Access)
    ensures a in AccessesIn(v) <==> Records(v, a)
    decreases v, 1, 0
  {
    RecordsUnfold(v, a);
    if v.JObj? {
      FieldsAreRecorded(v, v.fields.Keys, a);
    } else if v.JArr? {
      ItemsAreRecorded(v, |v.items|, a);
    }
  }

  lemma {:induction false} FieldIsRecorded(v: Json, k: Key, a: Access)
    requires v.JObj? && k in v.fields
    ensures a in FieldAccess(v, k)
            <==> (Under(k, a) && v.fields[k] == JStr(a.value) && !Blank(a.value)) || Records(v.fields[k], a)
    decreases v, 0, 0
  {
    LeafIsRecorded(k, v.fields[k], a);
    if LeafAccess(k, v.fields[k]).None? {
      AccessesAreRecorded(v.fields[k], a);
    } else {
      RecordsUnfold(v.fields[k], a);
    }
  }

  lemma {:induction false} LeafIsRecorded(k: Key, v: Json, a: Access)
    ensures LeafAccess(k, v) == Some(a) <==> Under(k, a) && v == JStr(a.value) && !Blank(a.value)
    ensures LeafAccess(k, v).Some? ==> v.JStr?
  {
    KeysAreNamed(k, a);
  }

  lemma {:induction false} KeysAreNamed(k: Key, a: Access)
    ensures Under(k, a) <==> (a.FileRead? && IsPathKey(k)) || (a.ShellCommand? && !IsPathKey(k) && IsCommandKey(k))
  {}

  lemma {:induction false} FieldsAreRecorded(v: Json, keys: set<Key>, a: Access)
    requires v.JObj? && keys <= v.fields.Keys
    ensures a in FieldAccesses(v, keys)
            <==> exists k :: k in keys && ((Under(k, a) && v.fields[k] == JStr(a.value) && !Blank(a.value)) || Records(v.fields[k], a))
    decreases v, 0, |keys|
  {
    if keys != {} {
      var first := FirstField(v, keys);
      FieldIsRecorded(v, first, a);
      FieldsAreRecorded(v, keys - {first}, a);
    }
  }

  lemma {:induction false} ItemsAreRecorded(v: Json, n: nat, a: Access)
    requires v.JArr? && n <= |v.items|
    ensures a in ItemAccesses(v, n) <==> exists i :: 0 <= i < n && Records(v.items[i], a)
    decreases v, 0, n
  {
    if n > 0 {
      ItemsAreRecorded(v, n - 1, a);
      AccessesAreRecorded(v.items[n - 1], a);
    }
  }

  /** The attributes or the extensions record it. */
  ghost predicate EventRecords(e: Event, a: Access) {
    Records(JObj(e.attributes), a) || Records(JObj(e.extensions), a)
  }

  lemma {:induction false} EventAccessesAreRecorded(e: Event, a: Access)
    ensures a in EventAccesses(e) <==> EventRecords(e, a)
  {
    AccessesAreRecorded(JObj(e.attributes), a);
    AccessesAreRecorded(JObj(e.extensions), a);
  }

  // ---- findings ---------------------------------------------------------------

  /** A path the path classifier calls a secret, or a command the command classifier does. */
  predicate IsSecret(c: Classifier, a: Access) {
    match a
    case FileRead(path) => c.path(path).Some?
    case ShellCommand(line) => c.command(line).Some?
  }

  /** The finding is of a secret of this event: with its classifier's class and boundary,
      and the event's own time and session. */
  predicate Warrants(c: Classifier, e: Event, f: Finding) {
    && f.observedAt == c.writeTime(e.env.occurredAt) && f.sessionId == TrimSpace(e.env.sessionId)
    && match f.access
       case FileRead(path) => c.path(path) == Some((f.class_, f.boundary))
       case ShellCommand(line) => c.command(line) == Some((f.class_, f.boundary))
  }

  /** How often the events warrant this finding: once per access. */
  ghost function TimesWarranted(c: Classifier, events: seq<Event>, f: Finding): nat {
    if events == [] then 0
    else
      var last := events[|events| - 1];
      TimesWarranted(c, events[..|events| - 1], f) + if Warrants(c, last, f) then EventAccesses(last)[f.access] else 0
  }

  lemma {:induction false} FindingIsWarranted(c: Classifier, e: Event, a: Access, f: Finding)
    ensures Classify(c, e, a) == Some(f) <==> f.access == a && Warrants(c, e, f)
  {}

  lemma {:induction false} EventFindingsCounted(c: Classifier, e: Event, accesses: seq<Access>, f: Finding)
    ensures multiset(EventFindings(c, e, accesses))[f] == if Warrants(c, e, f) then multiset(accesses)[f.access] else 0
  {
    if accesses != [] {
      var front, last := accesses[..|accesses| - 1], accesses[|accesses| - 1];
      EventFindingsCounted(c, e, front, f);
      FindingIsWarranted(c, e, last, f);
      assert accesses == front + [last];
      FilterMapSnoc((a: Access) => Classify(c, e, a), front, last);
    }
  }

  lemma {:induction false} FindingsCounted(c: Classifier, events: seq<Event>, lists: seq<seq<Access>>, f: Finding)
    requires Walked(events, lists)
    ensures multiset(FindingsOver(c, events, lists))[f] == TimesWarranted(c, events, f)
  {
    if events != [] {
      var n := |events| - 1;
      WalkedPrefix(events, lists, n);
      FindingsCounted(c, events[..n], lists[..n], f);
      EventFindingsCounted(c, events[n], lists[n], f);
    }
  }

  ghost predicate HoldsSecret(c: Classifier, e: Event) {
    exists a :: EventRecords(e, a) && IsSecret(c, a)
  }

  ghost predicate HoldsAccess(e: Event) {
    exists a :: EventRecords(e, a)
  }

  ghost predicate SecretRecorded(c: Classifier, events: seq<Event>) {
    exists e :: e in events && HoldsSecret(c, e)
  }

  ghost predicate AccessRecorded(events: seq<Event>) {
    exists e :: e in events && HoldsAccess(e)
  }

  lemma {:induction false} OneMoreEvent(c: Classifier, events: seq<Event>)
    requires events != []
    ensures var n := |events| - 1;
            && (SecretRecorded(c, events) <==> SecretRecorded(c, events[..n]) || HoldsSecret(c, events[n]))
            && (AccessRecorded(events) <==> AccessRecorded(events[..n]) || HoldsAccess(events[n]))
  {
    var n := |events| - 1;
    assert forall x :: x in events <==> x in events[..n] || x == events[n];
  }

  lemma {:induction false} OneMoreList(c: Classifier, events: seq<Event>, lists: seq<seq<Access>>)
    requires events != [] && Walked(events, lists)
    ensures var n := |events| - 1;
            && Walked(events[..n], lists[..n]) && multiset(lists[n]) == EventAccesses(events[n])
            && (FindingsOver(c, events, lists) != []
                <==> FindingsOver(c, events[..n], lists[..n]) != [] || EventFindings(c, events[n], lists[n]) != [])
            && (SawAccess(lists) <==> SawAccess(lists[..n]) || lists[n] != [])
  {
    var n := |events| - 1;
    WalkedPrefix(events, lists, n);
    SawParts(lists, n);
    SawOne(lists, n);
  }

  lemma {:induction false} FindingsAreSecrets(c: Classifier, events: seq<Event>, lists: seq<seq<Access>>)
    requires Walked(events, lists)
    ensures FindingsOver(c, events, lists) != [] <==> SecretRecorded(c, events)
    ensures SawAccess(lists) <==> AccessRecorded(events)
  {
    if events != [] {
      var n := |events| - 1;
      OneMoreList(c, events, lists);
      FindingsAreSecrets(c, events[..n], lists[..n]);
      OneMoreEvent(c, events);
      EventFindingsAreSecrets(c, events[n], lists[n]);
    }
  }

  lemma {:induction false} EventFindingsAreSecrets(c: Classifier, e: Event, accesses: seq<Access>)
    requires multiset(accesses) == EventAccesses(e)
    ensures EventFindings(c, e, accesses) != [] <==> HoldsSecret(c, e)
    ensures accesses != [] <==> HoldsAccess(e)
  {
    var f := (a: Access) => Classify(c, e, a);
    var found := EventFindings(c, e, accesses);
    forall a ensures a in accesses <==> EventRecords(e, a) {
      EventAccessesAreRecorded(e, a);
      assert a in accesses <==> a in multiset(accesses);
    }
    if found != [] {
      FilterMapMember(f, accesses, found[0]);
      var a :| a in accesses && f(a) == Some(found[0]);
      assert IsSecret(c, a);
    }
    if a :| EventRecords(e, a) && IsSecret(c, a) {
      FilterMapMember(f, accesses, f(a).value);
    }
    if accesses != [] {
      assert EventRecords(e, accesses[0]);
    }
  }

  /** The report: each finding as often as the events warrant it, a violation exactly with
      a secret, and clean exactly with an access and no secret. */
  lemma {:induction false} ReportIsWarranted(c: Classifier, events: seq<Event>, lists: seq<seq<Access>>, report: Report)
    requires Reports(c, events, lists, report)
    ensures forall f :: multiset(report.findings)[f] == TimesWarranted(c, events, f)
    ensures report.verdict == Violation <==> SecretRecorded(c, events)
    ensures report.verdict == NotViolation <==> !SecretRecorded(c, events) && AccessRecorded(events)
    ensures report.observed <==> AccessRecorded(events)
  {
    forall f ensures multiset(report.findings)[f] == TimesWarranted(c, events, f) {
      FindingsCounted(c, events, lists, f);
    }
    FindingsAreSecrets(c, events, lists);
  }

  /** A thin access event is of its event's time, session and surface, under an id of its
      own, and holds the source's id and the access alone. */
  lemma {:induction false} ThinIsStated(e: Event, a: Access, index: nat)
    ensures var thin := ThinAccessEvent(e, a, index);
            && thin.env.occurredAt == e.env.occurredAt && thin.env.receivedAt == e.env.receivedAt
            && thin.env.sessionId == e.env.sessionId && thin.env.provider == e.env.provider && thin.env.tool == e.env.tool
            && thin.env.eventType == e.env.eventType && thin.env.schemaVersion == e.env.schemaVersion
            && thin.env.privacyLevel == e.env.privacyLevel
            && (e.env.eventId + ":access:") <= thin.env.eventId
            && HasKey(thin.attributes, SourceEventId) == Some(JStr(e.env.eventId))
            && (forall p :: a == FileRead(p) ==> thin.attributes == map[SourceEventId := JStr(e.env.eventId), FilePath := JStr(p)])
            && (forall c :: a == ShellCommand(c) ==> thin.attributes == map[SourceEventId := JStr(e.env.eventId), Command := JStr(c)])
            && thin.extensions == map[]
  {}
}

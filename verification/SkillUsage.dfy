/** Skill usage per surface (internal/insights/skill.go). */
module SkillUsage {
  import opened Prelude
  import opened Ordering
  import opened Canonical
  import opened Signals
  import opened SortedRows

  /** `provider + "\x00" + tool` */
  function Surface(e: Event): string {
    e.env.provider + ['\0'] + e.env.tool
  }

  function Rank(d: Detection): nat {
    match d
    case Explicit => 4
    case Inferred => 3
    case Unavailable => 2
    case Unknown => 1
  }

  datatype CoverageRow = CoverageRow(provider: string, tool: string, state: Detection)

  function RowOf(e: Event): CoverageRow {
    CoverageRow(e.env.provider, e.env.tool, DetectionState(e))
  }

  function Cover(rows: map<string, CoverageRow>, e: Event): map<string, CoverageRow> {
    if Surface(e) !in rows || Rank(DetectionState(e)) > Rank(rows[Surface(e)].state)
    then rows[Surface(e) := RowOf(e)]
    else rows
  }

  function CoverageRows(events: seq<Event>): map<string, CoverageRow> {
    if events == [] then map[] else Cover(CoverageRows(events[..|events| - 1]), events[|events| - 1])
  }

  /** `row` is the row of an event on surface `s` whose signal no event of `s` beats. */
  ghost predicate Strongest(events: seq<Event>, s: string, row: CoverageRow) {
    && (exists e :: e in events && Surface(e) == s && RowOf(e) == row)
    && forall e :: e in events && Surface(e) == s ==> Rank(DetectionState(e)) <= Rank(row.state)
  }

  lemma {:induction false} CoverageIsStrongest(events: seq<Event>)
    ensures forall s :: s in CoverageRows(events) <==> exists e :: e in events && Surface(e) == s
    ensures forall s :: s in CoverageRows(events) ==> Strongest(events, s, CoverageRows(events)[s])
  {
    if events != [] {
      var prefix, last := events[..|events| - 1], events[|events| - 1];
      CoverageIsStrongest(prefix);
      assert events == prefix + [last];
      forall s ensures s in CoverageRows(events) <==> exists e :: e in events && Surface(e) == s {
        assert (exists e :: e in events && Surface(e) == s) <==> Surface(last) == s || exists e :: e in prefix && Surface(e) == s;
      }
      forall s | s in CoverageRows(events) ensures Strongest(events, s, CoverageRows(events)[s]) {
        StrongestStep(prefix, last, s, CoverageRows(prefix), CoverageRows(events));
      }
    }
  }

  lemma {:induction false} StrongestStep(
      prefix: seq<Event>, last: Event, s: string, before: map<string, CoverageRow>, after: map<string, CoverageRow>)
    requires after == Cover(before, last) && s in after
    requires s in before <==> exists e :: e in prefix && Surface(e) == s
    requires s in before ==> Strongest(prefix, s, before[s])
    ensures Strongest(prefix + [last], s, after[s])
  {
    var events := prefix + [last];
    assert last in events && forall e :: e in events <==> e in prefix || e == last;
    if s in before && after[s] == before[s] {
      var e :| e in prefix && Surface(e) == s && RowOf(e) == before[s];
      assert e in events;
    } else {
      assert after[s] == RowOf(last) && Surface(last) == s;
    }
  }

  datatype SkillTally = SkillTally(count: nat, outcomes: map<string, nat>)

  function CountOutcome(outcomes: map<string, nat>, outcome: string): map<string, nat> {
    if outcome == "" then outcomes
    else outcomes[outcome := (if outcome in outcomes then outcomes[outcome] else 0) + 1]
  }

  function Count(skills: map<SkillKey, SkillTally>, i: Invocation): map<SkillKey, SkillTally> {
    var t := if i.key in skills then skills[i.key] else SkillTally(0, map[]);
    skills[i.key := SkillTally(t.count + 1, CountOutcome(t.outcomes, i.outcome))]
  }

  function Tally(invocations: seq<Invocation>): map<SkillKey, SkillTally> {
    if invocations == [] then map[]
    else Count(Tally(invocations[..|invocations| - 1]), invocations[|invocations| - 1])
  }

  function TallyAt(skills: map<SkillKey, SkillTally>, k: SkillKey): SkillTally {
    if k in skills then skills[k] else SkillTally(0, map[])
  }

  /** The invocations of skill `k`, in order. */
  function Of(invocations: seq<Invocation>, k: SkillKey): seq<string> {
    FilterMap((i: Invocation) => if i.key == k then Some(i.outcome) else None, invocations)
  }

  /** A skill's row counts its invocations, and each non-empty outcome they reported. */
  lemma {:induction false} TallyCounts(invocations: seq<Invocation>, k: SkillKey, outcome: string)
    ensures TallyAt(Tally(invocations), k).count == |Of(invocations, k)|
    ensures k in Tally(invocations) <==> Of(invocations, k) != []
    ensures outcome in TallyAt(Tally(invocations), k).outcomes
            <==> outcome != "" && outcome in Of(invocations, k)
    ensures outcome in TallyAt(Tally(invocations), k).outcomes ==>
              TallyAt(Tally(invocations), k).outcomes[outcome] == multiset(Of(invocations, k))[outcome]
  {
    if invocations != [] {
      TallyCounts(invocations[..|invocations| - 1], k, outcome);
    }
  }

  /** The loop over the events. */
  method GatherSkills(events: seq<Event>)
    returns (coverage: map<string, CoverageRow>, skills: map<SkillKey, SkillTally>)
    ensures coverage == CoverageRows(events)
    ensures skills == Tally(FilterMap(SkillInvocation, events))
  {
    coverage, skills := map[], map[];
    for n := 0 to |events|
      invariant coverage == CoverageRows(events[..n])
      invariant skills == Tally(FilterMap(SkillInvocation, events[..n]))
    {
      var event := events[n];
      UsageStep(events, n);
      var state := DetectionState(event);
      if Surface(event) !in coverage || Rank(state) > Rank(coverage[Surface(event)].state) {
        coverage := coverage[Surface(event) := CoverageRow(event.env.provider, event.env.tool, state)];
      }
      if state == Explicit {
        var invocation := SkillInvocation(event);
        if invocation.Some? {
          skills := Count(skills, invocation.value);
        }
      }
    }
    assert events[..|events|] == events;
  }

  lemma {:induction false} UsageStep(events: seq<Event>, n: nat)
    requires n < |events|
    ensures CoverageRows(events[..n + 1]) == Cover(CoverageRows(events[..n]), events[n])
    ensures var before := FilterMap(SkillInvocation, events[..n]);
            Tally(FilterMap(SkillInvocation, events[..n + 1]))
            == (match SkillInvocation(events[n])
                case Some(i) => Count(Tally(before), i)
                case None => Tally(before))
    ensures SkillInvocation(events[n]).Some? ==> DetectionState(events[n]) == Explicit
  {
    assert events[..n + 1][..n] == events[..n];
    FilterMapStep(SkillInvocation, events, n);
    var before := FilterMap(SkillInvocation, events[..n]);
    match SkillInvocation(events[n])
    case Some(i) => assert (before + [i])[..|before|] == before;
    case None => assert before + [] == before;
  }

  // ---- the report -------------------------------------------------------------

  datatype SkillRecord = SkillRecord(key: SkillKey, count: nat, outcomes: map<string, nat>, outcomeState: string)

  datatype SkillTotals = SkillTotals(
    observedSkills: nat, invocations: int, explicit: nat, inferred: nat, unavailable: nat, unknown: nat)

  datatype Usage = Usage(skills: seq<SkillRecord>, coverage: seq<CoverageRow>, totals: SkillTotals)

  /** skillRecords, before its sort */
  function Records(skills: map<SkillKey, SkillTally>): map<SkillKey, SkillRecord> {
    map k | k in skills ::
      SkillRecord(k, skills[k].count, skills[k].outcomes, if skills[k].outcomes == map[] then "unavailable" else "observed")
  }

  function Joined(k: SkillKey): string {
    k.provider + "\0" + k.tool + "\0" + k.name
  }

  function RecordOrder(r: SkillRecord): string { Joined(r.key) }

  function CoverageOrder(row: CoverageRow): string {
    row.provider + ['\0'] + row.tool
  }

  function InvocationsOf(r: SkillRecord): int { r.count }

  function InState(d: Detection): CoverageRow -> bool {
    (row: CoverageRow) => row.state == d
  }

  /** skillTotals */
  method TotalsOf(skills: seq<SkillRecord>, coverage: seq<CoverageRow>) returns (t: SkillTotals)
    ensures t == SkillTotals(
                   |skills|, SumOf(InvocationsOf, skills), CountOf(InState(Explicit), coverage),
                   CountOf(InState(Inferred), coverage), CountOf(InState(Unavailable), coverage),
                   CountOf(InState(Unknown), coverage))
  {
    t := SkillTotals(|skills|, 0, 0, 0, 0, 0);
    for n := 0 to |skills|
      invariant t == SkillTotals(|skills|, SumOf(InvocationsOf, skills[..n]), 0, 0, 0, 0)
    {
      assert skills[..n + 1][..n] == skills[..n];
      t := t.(invocations := t.invocations + skills[n].count);
    }
    assert skills[..|skills|] == skills;
    for n := 0 to |coverage|
      invariant t == SkillTotals(
                       |skills|, SumOf(InvocationsOf, skills), CountOf(InState(Explicit), coverage[..n]),
                       CountOf(InState(Inferred), coverage[..n]), CountOf(InState(Unavailable), coverage[..n]),
                       CountOf(InState(Unknown), coverage[..n]))
    {
      assert coverage[..n + 1][..n] == coverage[..n];
      match coverage[n].state
      case Explicit => t := t.(explicit := t.explicit + 1);
      case Inferred => t := t.(inferred := t.inferred + 1);
      case Unavailable => t := t.(unavailable := t.unavailable + 1);
      case Unknown => t := t.(unknown := t.unknown + 1);
    }
    assert coverage[..|coverage|] == coverage;
  }

  ghost function SurfacesIn(rows: map<string, CoverageRow>, d: Detection): set<string> {
    KeysWhere(InState(d), rows)
  }

  method SkillUsageFromEvents(events: seq<Event>) returns (usage: Usage)
    ensures RowsOf(StrLess, RecordOrder, Records(Tally(FilterMap(SkillInvocation, events))), usage.skills)
    ensures RowsOf(StrLess, CoverageOrder, CoverageRows(events), usage.coverage)
    ensures usage.totals.observedSkills == |Tally(FilterMap(SkillInvocation, events))|
    ensures usage.totals.invocations == |FilterMap(SkillInvocation, events)|
    ensures usage.totals.explicit == |SurfacesIn(CoverageRows(events), Explicit)|
    ensures usage.totals.inferred == |SurfacesIn(CoverageRows(events), Inferred)|
    ensures usage.totals.unavailable == |SurfacesIn(CoverageRows(events), Unavailable)|
    ensures usage.totals.unknown == |SurfacesIn(CoverageRows(events), Unknown)|
  {
    var coverage, skills := GatherSkills(events);
    StrLessStrictTotal();
    var records := Collect(StrLess, RecordOrder, Records(skills));
    var rows := Collect(StrLess, CoverageOrder, coverage);
    var totals := TotalsOf(records, rows);
    usage := Usage(records, rows, totals);
    EveryInvocationIsCounted(FilterMap(SkillInvocation, events), records);
    SurfacesAreCounted(coverage, rows);
  }

  lemma {:induction false} SurfacesAreCounted(coverage: map<string, CoverageRow>, rows: seq<CoverageRow>)
    requires Holds(coverage, rows)
    ensures forall d :: CountOf(InState(d), rows) == |SurfacesIn(coverage, d)|
  {
    forall d ensures CountOf(InState(d), rows) == |SurfacesIn(coverage, d)| {
      CountIsOfKeys(InState(d), coverage, rows);
    }
  }

  /** The records' counts sum to the invocations, and there is one record per skill. */
  lemma {:induction false} EveryInvocationIsCounted(invocations: seq<Invocation>, rows: seq<SkillRecord>)
    requires Holds(Records(Tally(invocations)), rows)
    ensures SumOf(InvocationsOf, rows) == |invocations| && |rows| == |Tally(invocations)|
  {
    HeldCount(Records(Tally(invocations)), rows);
    assert Records(Tally(invocations)).Keys == Tally(invocations).Keys;
    assert |Records(Tally(invocations))| == |Records(Tally(invocations)).Keys| == |Tally(invocations).Keys|;
    if invocations == [] {
      assert Records(Tally(invocations)) == map[];
    } else {
      var front, last := invocations[..|invocations| - 1], invocations[|invocations| - 1];
      var before, after := Tally(front), Tally(invocations);
      var earlier := SomeRows(Records(before));
      EveryInvocationIsCounted(front, earlier);
      var k := last.key;
      assert Records(after) == Records(before)[k := Records(after)[k]];
      SumWithChange(InvocationsOf, Records(before), earlier, k, Records(after)[k], rows);
    }
  }

  /** Every surface is in one state: the four counts sum to the surfaces. */
  lemma {:induction false} StatesPartitionSurfaces(rows: map<string, CoverageRow>)
    ensures |SurfacesIn(rows, Explicit)| + |SurfacesIn(rows, Inferred)| + |SurfacesIn(rows, Unavailable)|
            + |SurfacesIn(rows, Unknown)| == |rows|
  {
    var listed := SomeRows(rows);
    SurfacesAreCounted(rows, listed);
    HeldCount(rows, listed);
    StatesPartitionRows(listed);
  }

  lemma {:induction false} StatesPartitionRows(rows: seq<CoverageRow>)
    ensures CountOf(InState(Explicit), rows) + CountOf(InState(Inferred), rows) + CountOf(InState(Unavailable), rows)
            + CountOf(InState(Unknown), rows) == |rows|
  {
    if rows != [] {
      StatesPartitionRows(rows[..|rows| - 1]);
      var state := rows[|rows| - 1].state;
      assert state == Explicit || state == Inferred || state == Unavailable || state == Unknown;
    }
  }

  /** The coverage list is the same every time. */
  lemma {:induction false} CoverageIsDetermined(events: seq<Event>, a: seq<CoverageRow>, b: seq<CoverageRow>)
    requires RowsOf(StrLess, CoverageOrder, CoverageRows(events), a)
    requires RowsOf(StrLess, CoverageOrder, CoverageRows(events), b)
    ensures a == b
  {
    StrLessStrictTotal();
    CoverageIsStrongest(events);
    forall s | s in CoverageRows(events) ensures CoverageOrder(CoverageRows(events)[s]) == s {
      assert Strongest(events, s, CoverageRows(events)[s]);
    }
    SameWithoutTies(StrLess, CoverageOrder, CoverageRows(events), a, b);
  }

  lemma {:induction false} TallyKeys(invocations: seq<Invocation>, k: SkillKey)
    ensures k in Tally(invocations) <==> exists i :: i in invocations && i.key == k
  {
    if invocations != [] {
      var front, last := invocations[..|invocations| - 1], invocations[|invocations| - 1];
      TallyKeys(front, k);
      assert forall i :: i in invocations <==> i in front || i == last;
    }
  }

  /** The skill list is, exactly when no two invocations name skills of which provider, tool
      and name join to one text. */
  lemma {:induction false} SkillsAreDetermined(events: seq<Event>)
    ensures var invocations := FilterMap(SkillInvocation, events);
            Determined(StrLess, RecordOrder, Records(Tally(invocations)))
            <==> forall i, j :: i in invocations && j in invocations && Joined(i.key) == Joined(j.key) ==> i.key == j.key
  {
    var invocations := FilterMap(SkillInvocation, events);
    var records := Records(Tally(invocations));
    StrLessStrictTotal();
    RowsAreDetermined(StrLess, RecordOrder, records);
    forall i | i in invocations ensures i.key in records && RecordOrder(records[i.key]) == Joined(i.key) {
      TallyKeys(invocations, i.key);
    }
    if NoTies(RecordOrder, records) {
      forall i, j | i in invocations && j in invocations && Joined(i.key) == Joined(j.key) ensures i.key == j.key {
        assert records[i.key] == records[j.key];
      }
    }
    if forall i, j :: i in invocations && j in invocations && Joined(i.key) == Joined(j.key) ==> i.key == j.key {
      forall k, l | k in records && l in records && RecordOrder(records[k]) == RecordOrder(records[l])
        ensures records[k] == records[l]
      {
        TallyKeys(invocations, k);
        TallyKeys(invocations, l);
      }
    }
  }

  // ---- events whose order is left open ----------------------------------------

  /** An explicit use of this skill, by an event of this tool. */
  function UseOf(env: Envelope, tool: string, name: string): Event {
    Event(env.(tool := tool), map[], map[SkillDetection := JStr("explicit"), Skill := JObj(map[Name := JStr(name)])])
  }

  lemma {:induction false} UseIsInvocation(env: Envelope, tool: string, name: string)
    requires !Blank(name)
    ensures SkillInvocation(UseOf(env, tool, name)) == Some(Invocation(SkillKey(env.provider, tool, name), ""))
  {
    ParseDetectionName(Explicit);
  }

  /** A skill "x" NUL "y" of tool "t", and a skill "y" of tool "t" NUL "x": one text, so
      their order is not determined. */
  lemma {:induction false} SeparatorsTie(env: Envelope)
    ensures var events := [UseOf(env, "t", "x\0y"), UseOf(env, "t\0x", "y")];
            !Determined(StrLess, RecordOrder, Records(Tally(FilterMap(SkillInvocation, events))))
  {
    var a, b := UseOf(env, "t", "x\0y"), UseOf(env, "t\0x", "y");
    assert "x\0y"[0] in "x\0y" && "y"[0] in "y";
    UseIsInvocation(env, "t", "x\0y");
    UseIsInvocation(env, "t\0x", "y");
    FilterMapTwo(SkillInvocation, a, b);
    var i, j := SkillInvocation(a).value, SkillInvocation(b).value;
    OneText(env.provider);
    assert i in [i, j] && j in [i, j];
    SkillsAreDetermined([a, b]);
  }

  lemma {:induction false} OneText(provider: string)
    ensures Joined(SkillKey(provider, "t", "x\0y")) == Joined(SkillKey(provider, "t\0x", "y"))
    ensures SkillKey(provider, "t", "x\0y") != SkillKey(provider, "t\0x", "y")
  {
    assert provider + "\0" + "t" + "\0" + "x\0y" == provider + "\0" + "t\0x" + "\0" + "y";
    assert |"x\0y"| == 3 && |"y"| == 1;
  }

  /** What a record shows: its skill, how often it was invoked, how often with each outcome,
      and whether any outcome was reported. */
  lemma {:induction false} RecordIsStated(invocations: seq<Invocation>, k: SkillKey)
    requires Of(invocations, k) != []
    ensures var rows := Records(Tally(invocations));
            && k in rows && rows[k].key == k && rows[k].count == |Of(invocations, k)|
            && (forall o :: o in rows[k].outcomes <==> o != "" && o in Of(invocations, k))
            && (forall o :: o in rows[k].outcomes ==> rows[k].outcomes[o] == multiset(Of(invocations, k))[o])
            && (rows[k].outcomeState == "observed" <==> exists o :: o in Of(invocations, k) && o != "")
            && (rows[k].outcomeState == "unavailable" <==> forall o :: o in Of(invocations, k) ==> o == "")
  {
    var outcomes := TallyAt(Tally(invocations), k).outcomes;
    forall o
      ensures o in outcomes <==> o != "" && o in Of(invocations, k)
      ensures o in outcomes ==> outcomes[o] == multiset(Of(invocations, k))[o]
    {
      TallyCounts(invocations, k, o);
    }
    TallyCounts(invocations, k, "");
    if outcomes != map[] {
      var o :| o in outcomes;
    }
  }

  /** An explicit detection is the strongest, then an inferred one, then one known to be
      unavailable. */
  lemma {:induction false} RankIsStated(a: Detection, b: Detection)
    ensures Rank(a) > Rank(b)
            <==> || (a == Explicit && b != Explicit) || (a == Inferred && b in {Unavailable, Unknown})
                 || (a == Unavailable && b == Unknown)
  {}
}

/** The skill allowlist policy (internal/governance/unapproved_skills.go). A finding is
    kept under its joined text, so names that hold the separator may share one. */
module UnapprovedSkills {
  import opened Prelude
  import opened Ordering
  import opened Canonical
  import opened Signals
  import opened SortedRows

  datatype Verdict = Violation | NotViolation | Indeterminate
  datatype Visibility = NoSignal | PolicyUnconfigured | Partial | Observed

  /** A skill outside the allowlist, and the events that named it. */
  datatype Finding = Finding(provider: string, tool: string, name: string, ids: seq<string>)

  datatype Report = Report(findings: map<string, Finding>, verdict: Verdict, visibility: Visibility)

  function Joined(provider: string, tool: string, name: string): string {
    provider + "\0" + tool + "\0" + name
  }

  function FindingKey(s: SkillPolicySignal): string
    requires s.Named?
  {
    Joined(s.provider, s.tool, s.name)
  }

  function AddFinding(findings: map<string, Finding>, allowed: set<string>, s: SkillPolicySignal): map<string, Finding> {
    if s.Incomplete? || s.name in allowed then findings
    else
      var k := FindingKey(s);
      var f := if k in findings then findings[k] else Finding(s.provider, s.tool, s.name, []);
      findings[k := f.(ids := f.ids + [s.eventId])]
  }

  function Findings(signals: seq<SkillPolicySignal>, allowed: set<string>): map<string, Finding> {
    if signals == [] then map[]
    else AddFinding(Findings(signals[..|signals| - 1], allowed), allowed, signals[|signals| - 1])
  }

  /** The namings outside the allowlist whose texts join to `k`. */
  function Namings(allowed: set<string>, k: string, signals: seq<SkillPolicySignal>): seq<SkillPolicySignal> {
    FilterMap((s: SkillPolicySignal) =>
      if s.Named? && s.name !in allowed && FindingKey(s) == k then Some(s) else None, signals)
  }

  /** There is a finding exactly for the skills named outside the allowlist; it has the
      names of the first naming and the event ids of all. */
  lemma {:induction false} FindingsAreNamings(signals: seq<SkillPolicySignal>, allowed: set<string>, k: string)
    ensures var findings, namings := Findings(signals, allowed), Namings(allowed, k, signals);
            && (forall s :: s in namings ==> s.Named?)
            && (k in findings <==> namings != [])
            && (k in findings ==>
                  && var f := findings[k];
                     f.provider == namings[0].provider && f.tool == namings[0].tool && f.name == namings[0].name
                     && Joined(f.provider, f.tool, f.name) == k
                     && |f.ids| == |namings| && forall i :: 0 <= i < |namings| ==> f.ids[i] == namings[i].eventId)
  {
    if signals != [] {
      FindingsAreNamings(signals[..|signals| - 1], allowed, k);
    }
  }

  predicate SawExplicit(signals: seq<SkillPolicySignal>) {
    exists s :: s in signals && s.Named?
  }

  predicate SawIncomplete(signals: seq<SkillPolicySignal>) {
    Incomplete in signals
  }

  /** applySkillOutcome */
  function Judge(findings: map<string, Finding>, explicit: bool, incomplete: bool): Report {
    if findings != map[] then Report(findings, Violation, Observed)
    else if !explicit then Report(findings, Indeterminate, if incomplete then Partial else NoSignal)
    else if incomplete then Report(findings, Indeterminate, Partial)
    else Report(findings, NotViolation, Observed)
  }

  function Evaluate(signals: seq<SkillPolicySignal>, allowlist: seq<string>): Report {
    if allowlist == [] then Report(map[], Indeterminate, PolicyUnconfigured)
    else Judge(Findings(signals, set n | n in allowlist), SawExplicit(signals), SawIncomplete(signals))
  }

  /** The loop over the events. */
  method GatherFindings(events: seq<Event>, allowlist: seq<string>) returns (report: Report)
    ensures report == Evaluate(FilterMap(SkillPolicyOf, events), allowlist)
  {
    if allowlist == [] {
      return Report(map[], Indeterminate, PolicyUnconfigured);
    }
    var allowed := set n | n in allowlist;
    var findings: map<string, Finding> := map[];
    var sawExplicit, sawIncomplete := false, false;
    for n := 0 to |events|
      invariant findings == Findings(FilterMap(SkillPolicyOf, events[..n]), allowed)
      invariant sawExplicit == SawExplicit(FilterMap(SkillPolicyOf, events[..n]))
      invariant sawIncomplete == SawIncomplete(FilterMap(SkillPolicyOf, events[..n]))
    {
      var signal := SkillPolicyOf(events[n]);
      PolicyStep(events, allowed, n);
      if signal.Some? {
        findings := AddFinding(findings, allowed, signal.value);
        sawExplicit := sawExplicit || signal.value.Named?;
        sawIncomplete := sawIncomplete || signal.value.Incomplete?;
      }
    }
    assert events[..|events|] == events;
    report := Judge(findings, sawExplicit, sawIncomplete);
  }

  lemma {:induction false} PolicyStep(events: seq<Event>, allowed: set<string>, n: nat)
    requires n < |events|
    ensures var before, after := FilterMap(SkillPolicyOf, events[..n]), FilterMap(SkillPolicyOf, events[..n + 1]);
            match SkillPolicyOf(events[n])
            case None => after == before
            case Some(s) =>
              && Findings(after, allowed) == AddFinding(Findings(before, allowed), allowed, s)
              && (SawExplicit(after) <==> SawExplicit(before) || s.Named?)
              && (SawIncomplete(after) <==> SawIncomplete(before) || s.Incomplete?)
  {
    var before, after := FilterMap(SkillPolicyOf, events[..n]), FilterMap(SkillPolicyOf, events[..n + 1]);
    FilterMapStep(SkillPolicyOf, events, n);
    match SkillPolicyOf(events[n])
    case Some(s) =>
      assert after == before + [s] && after[..|before|] == before;
      forall x ensures x in after <==> x in before || x == s {}
    case None => assert after == before + [];
  }

  // ---- the report -------------------------------------------------------------

  function Itself(id: string): string { id }

  /** sort.Strings on each finding's event ids */
  function WithSortedIds(findings: map<string, Finding>): map<string, Finding> {
    map k | k in findings :: findings[k].(ids := SortBy(StrLess, Itself, findings[k].ids))
  }

  function FindingOrder(f: Finding): string { Joined(f.provider, f.tool, f.name) }

  method UnapprovedSkillsFromEvents(events: seq<Event>, allowlist: seq<string>)
    returns (findings: seq<Finding>, verdict: Verdict, visibility: Visibility)
    ensures var report := Evaluate(FilterMap(SkillPolicyOf, events), allowlist);
            && verdict == report.verdict && visibility == report.visibility
            && RowsOf(StrLess, FindingOrder, WithSortedIds(report.findings), findings)
  {
    var report := GatherFindings(events, allowlist);
    StrLessStrictTotal();
    findings := Collect(StrLess, FindingOrder, WithSortedIds(report.findings));
    verdict, visibility := report.verdict, report.visibility;
  }

  /** The list of findings is the same every time. */
  lemma {:induction false} FindingsAreDetermined(signals: seq<SkillPolicySignal>, allowed: set<string>, a: seq<Finding>, b: seq<Finding>)
    requires RowsOf(StrLess, FindingOrder, WithSortedIds(Findings(signals, allowed)), a)
    requires RowsOf(StrLess, FindingOrder, WithSortedIds(Findings(signals, allowed)), b)
    ensures a == b
  {
    StrLessStrictTotal();
    var sorted := WithSortedIds(Findings(signals, allowed));
    forall k | k in sorted ensures FindingOrder(sorted[k]) == k {
      FindingsAreNamings(signals, allowed, k);
    }
    SameWithoutTies(StrLess, FindingOrder, sorted, a, b);
  }
}

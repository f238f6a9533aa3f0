/** The skill allowlist policy on the thin index: the same findings, and exactly when the
    same report (unapproved_skills.go, internal/governance). */
module ThinPolicy {
  import opened Prelude
  import opened Canonical
  import opened Signals
  import opened ThinEvent
  import opened SkillUsage
  import opened ThinIndex
  import opened UnapprovedSkills

  /** Every surface's strongest signal is explicit. */
  predicate AllExplicit(events: seq<Event>) {
    forall s :: s in CoverageRows(events) ==> CoverageRows(events)[s].state == Explicit
  }

  lemma {:induction false} MarkerPolicy(first: Envelope, surface: string, state: Detection)
    requires '\0' in surface
    ensures SkillPolicyOf(CoverageEvent(first, surface, state))
            == if state == Explicit then None else Some(Incomplete)
  {
    var c := CoverageEvent(first, surface, state);
    assert ObjectAt(c.extensions, Skill) == None;
    assert HasKey(c.extensions, SkillDetection) == Some(JStr(DetectionName(state)));
    assert (DetectionName(state) == "explicit") == (state == Explicit) by {
      assert DetectionName(Inferred)[0] == 'i' && DetectionName(Unavailable)[0] == 'u';
    }
  }

  lemma {:induction false} IncompleteAddsNoFinding(
      signals: seq<SkillPolicySignal>, more: seq<SkillPolicySignal>, allowed: set<string>)
    requires forall s :: s in more ==> s.Incomplete?
    ensures Findings(signals + more, allowed) == Findings(signals, allowed)
  {
    if more == [] {
      assert signals + more == signals;
    } else {
      assert (signals + more)[..|signals + more| - 1] == signals + more[..|more| - 1];
      IncompleteAddsNoFinding(signals, more[..|more| - 1], allowed);
    }
  }

  lemma {:induction false} MarkersAreIncomplete(first: Envelope, rows: map<string, CoverageRow>, order: seq<string>)
    requires Visits(rows, order)
    ensures forall i :: 0 <= i < |order| ==>
              SkillPolicyOf(CoverageEvents(first, rows, order)[i]) == if rows[order[i]].state == Explicit then None else Some(Incomplete)
    ensures forall s :: s in FilterMap(SkillPolicyOf, CoverageEvents(first, rows, order)) ==> s.Incomplete?
  {
    var coverage := CoverageEvents(first, rows, order);
    forall i | 0 <= i < |coverage|
      ensures SkillPolicyOf(coverage[i]) == if rows[order[i]].state == Explicit then None else Some(Incomplete)
    {
      MarkerPolicy(first, order[i], rows[order[i]].state);
    }
    forall s | s in FilterMap(SkillPolicyOf, coverage) ensures s.Incomplete? {
      FilterMapMember(SkillPolicyOf, coverage, s);
    }
  }

  lemma {:induction false} MarkerPolicies(first: Envelope, rows: map<string, CoverageRow>, order: seq<string>)
    requires Visits(rows, order)
    ensures FilterMap(SkillPolicyOf, CoverageEvents(first, rows, order)) == [] <==> forall s :: s in rows ==> rows[s].state == Explicit
  {
    var coverage := CoverageEvents(first, rows, order);
    MarkersAreIncomplete(first, rows, order);
    FilterMapMember(SkillPolicyOf, coverage, Incomplete);
    if forall s :: s in rows ==> rows[s].state == Explicit {
      FilterMapNone(SkillPolicyOf, coverage);
    } else {
      var s :| s in rows && rows[s].state != Explicit;
      var i :| 0 <= i < |order| && order[i] == s;
      assert coverage[i] in coverage;
    }
  }

  lemma {:induction false} KeptPolicies(sc: Scanner, events: seq<Event>)
    ensures FilterMap(SkillPolicyOf, FilterMap(Keep(sc), events)) == FilterMap(SkillPolicyOf, events)
  {
    forall e ensures SkillPolicyOf(Thin(sc, e)) == SkillPolicyOf(e) && (!Kept(sc, e) ==> SkillPolicyOf(e) == None) {
      ThinKeepsSkill(sc, e);
      if !Kept(sc, e) {
        DroppedIsSilent(sc, e);
      }
    }
    Absorbed(sc, SkillPolicyOf, events);
  }

  /** The index's policy signals: the events' own, then one incomplete signal per
      surface that is not explicit. */
  lemma {:induction false} PolicySignals(sc: Scanner, events: seq<Event>, index: seq<Event>) returns (more: seq<SkillPolicySignal>)
    requires IsThinIndex(sc, events, index)
    ensures FilterMap(SkillPolicyOf, index) == FilterMap(SkillPolicyOf, events) + more
    ensures forall s :: s in more ==> s.Incomplete?
    ensures more == [] <==> AllExplicit(events)
  {
    if events == [] {
      more := [];
    } else {
      var first, rows := events[0].env, CoverageRows(events);
      var order :| Visits(rows, order) && index == FilterMap(Keep(sc), events) + CoverageEvents(first, rows, order);
      KeptPolicies(sc, events);
      FilterMapConcat(SkillPolicyOf, FilterMap(Keep(sc), events), CoverageEvents(first, rows, order));
      more := FilterMap(SkillPolicyOf, CoverageEvents(first, rows, order));
      MarkersAreIncomplete(first, rows, order);
      MarkerPolicies(first, rows, order);
    }
  }

  /** What incomplete signals, added to a policy's own, do to its report. */
  lemma {:induction false} IncompleteSignalsJudged(own: seq<SkillPolicySignal>, more: seq<SkillPolicySignal>, allowlist: seq<string>)
    requires forall s :: s in more ==> s.Incomplete?
    ensures var full, thin := Evaluate(own, allowlist), Evaluate(own + more, allowlist);
            && thin.findings == full.findings
            && (thin.verdict == NotViolation ==> thin == full)
            && (thin == full <==>
                  || allowlist == [] || Findings(own, set n | n in allowlist) != map[]
                  || SawIncomplete(own) || more == [])
  {
    IncompleteAddsNoFinding(own, more, set n | n in allowlist);
    forall s ensures s in own + more <==> s in own || s in more {}
    assert more != [] ==> more[0] in more;
  }

  // ---- the condition, read off the events -------------------------------------

  /** Some event names a skill that is not allowed. */
  predicate NamesUnapproved(events: seq<Event>, allowlist: seq<string>) {
    exists e :: e in events && ExplicitSkillName(e).Some? && ExplicitSkillName(e).value !in allowlist
  }

  /** Some event's detection is uncertain. */
  predicate SeesIncomplete(events: seq<Event>) {
    exists e :: e in events && ExplicitSkillName(e).None? && SkillSignalPresent(e)
  }

  /** Some event of surface `s` is explicit. */
  predicate SurfaceExplicit(events: seq<Event>, s: string) {
    exists x :: x in events && Surface(x) == s && DetectionState(x) == Explicit
  }

  /** Every surface has an event whose detection is explicit. */
  predicate EverySurfaceExplicit(events: seq<Event>) {
    forall e :: e in events ==> SurfaceExplicit(events, Surface(e))
  }

  lemma {:induction false} ExplicitSurface(events: seq<Event>, s: string)
    requires s in CoverageRows(events)
    ensures CoverageRows(events)[s].state == Explicit <==> SurfaceExplicit(events, s)
  {
    CoverageOf(events, s);
    var row := CoverageRows(events)[s];
    assert Strongest(events, s, row);
    var e :| e in events && Surface(e) == s && RowOf(e) == row;
    assert SurfaceExplicit(events, s) ==> Rank(Explicit) <= Rank(row.state);
  }

  lemma {:induction false} ExplicitSurfaces(events: seq<Event>)
    ensures AllExplicit(events) <==> EverySurfaceExplicit(events)
  {
    forall s | s in CoverageRows(events)
      ensures CoverageRows(events)[s].state == Explicit <==> SurfaceExplicit(events, s)
      ensures exists e :: e in events && Surface(e) == s
    {
      ExplicitSurface(events, s);
      CoverageOf(events, s);
    }
    forall e | e in events ensures Surface(e) in CoverageRows(events) {
      CoverageOf(events, Surface(e));
    }
  }

  lemma {:induction false} FindingsExist(signals: seq<SkillPolicySignal>, allowed: set<string>)
    ensures Findings(signals, allowed) != map[] <==> exists s :: s in signals && s.Named? && s.name !in allowed
  {
    if signals != [] {
      var prefix, last := signals[..|signals| - 1], signals[|signals| - 1];
      FindingsExist(prefix, allowed);
      assert forall s :: s in signals <==> s in prefix || s == last;
      if last.Named? && last.name !in allowed {
        assert FindingKey(last) in Findings(signals, allowed);
      }
    }
  }

  lemma {:induction false} FindingsOfEvents(events: seq<Event>, allowlist: seq<string>)
    ensures var signals := FilterMap(SkillPolicyOf, events);
            && (Findings(signals, set n | n in allowlist) != map[] <==> NamesUnapproved(events, allowlist))
            && (SawIncomplete(signals) <==> SeesIncomplete(events))
  {
    var signals, allowed := FilterMap(SkillPolicyOf, events), set n | n in allowlist;
    FindingsExist(signals, allowed);
    FilterMapMember(SkillPolicyOf, events, Incomplete);
    forall s | s in signals && s.Named? && s.name !in allowed ensures NamesUnapproved(events, allowlist) {
      FilterMapMember(SkillPolicyOf, events, s);
    }
    forall e | e in events && ExplicitSkillName(e).Some? && ExplicitSkillName(e).value !in allowlist
      ensures exists s :: s in signals && s.Named? && s.name !in allowed
    {
      FilterMapMember(SkillPolicyOf, events, SkillPolicyOf(e).value);
      assert SkillPolicyOf(e).value in signals;
    }
    if SawIncomplete(signals) {
      var e :| e in events && SkillPolicyOf(e) == Some(Incomplete);
      assert ExplicitSkillName(e).None? && SkillSignalPresent(e);
    }
    forall e | e in events && ExplicitSkillName(e).None? && SkillSignalPresent(e) ensures SawIncomplete(signals) {
      assert SkillPolicyOf(e) == Some(Incomplete);
    }
  }

  /** The policy on the index: the same findings, never cleaner than on the events, and the
      same report exactly when there is no allowlist, an event names an unapproved skill,
      an event is uncertain already, or every surface has an explicit event. */
  lemma {:induction false} SkillPolicyAgrees(sc: Scanner, events: seq<Event>, index: seq<Event>, allowlist: seq<string>)
    requires IsThinIndex(sc, events, index)
    ensures var full := Evaluate(FilterMap(SkillPolicyOf, events), allowlist);
            var thin := Evaluate(FilterMap(SkillPolicyOf, index), allowlist);
            && thin.findings == full.findings
            && (thin.verdict == NotViolation ==> thin == full)
            && (thin == full <==>
                  || allowlist == [] || NamesUnapproved(events, allowlist)
                  || SeesIncomplete(events) || EverySurfaceExplicit(events))
  {
    IndexIsJudged(sc, events, index, allowlist);
    FindingsOfEvents(events, allowlist);
    ExplicitSurfaces(events);
  }

  lemma {:induction false} IndexIsJudged(sc: Scanner, events: seq<Event>, index: seq<Event>, allowlist: seq<string>)
    requires IsThinIndex(sc, events, index)
    ensures var own := FilterMap(SkillPolicyOf, events);
            var full, thin := Evaluate(own, allowlist), Evaluate(FilterMap(SkillPolicyOf, index), allowlist);
            && thin.findings == full.findings
            && (thin.verdict == NotViolation ==> thin == full)
            && (thin == full <==>
                  || allowlist == [] || Findings(own, set n | n in allowlist) != map[]
                  || SawIncomplete(own) || AllExplicit(events))
  {
    var more := PolicySignals(sc, events, index);
    IncompleteSignalsJudged(FilterMap(SkillPolicyOf, events), more, allowlist);
  }

  // ---- two events on which the reports differ ---------------------------------

  function On(tool: string, extensions: Object): Event {
    Event(Envelope("1", "e", "tool_call", 0, 0, "p", tool, "", "", "", "", "s", None, None, ""), map[], extensions)
  }

  const ALLOWED_USE: Event := On("a", map[SkillDetection := JStr("explicit"), Skill := JObj(map[Name := JStr("x")])])
  const NO_SIGNAL: Event := On("b", map[])

  /** An allowed skill on one surface, and an event of another that says nothing of
      skills: clean on the events, indeterminate on the index. */
  lemma {:induction false} QuietSurfaceUnsettlesPolicy(sc: Scanner, index: seq<Event>)
    requires IsThinIndex(sc, [ALLOWED_USE, NO_SIGNAL], index)
    ensures Evaluate(FilterMap(SkillPolicyOf, [ALLOWED_USE, NO_SIGNAL]), ["x"]) == Report(map[], NotViolation, Observed)
    ensures Evaluate(FilterMap(SkillPolicyOf, index), ["x"]).verdict == Indeterminate
  {
    var events := [ALLOWED_USE, NO_SIGNAL];
    TwoReadings();
    OneNaming(ALLOWED_USE, NO_SIGNAL, Named("p", "a", "x", "e"));
    assert events == [ALLOWED_USE] + [NO_SIGNAL] && NO_SIGNAL in events;
    assert !SurfaceExplicit(events, Surface(NO_SIGNAL));
    SkillPolicyAgrees(sc, events, index, ["x"]);
    NoFindingIsNoViolation(FilterMap(SkillPolicyOf, index), ["x"]);
  }

  lemma {:induction false} TwoReadings()
    ensures ExplicitSkillName(ALLOWED_USE) == Some("x") && SkillPolicyOf(ALLOWED_USE) == Some(Named("p", "a", "x", "e"))
    ensures ExplicitSkillName(NO_SIGNAL).None? && !SkillSignalPresent(NO_SIGNAL) && SkillPolicyOf(NO_SIGNAL) == None
    ensures DetectionState(NO_SIGNAL) != Explicit && Surface(ALLOWED_USE) != Surface(NO_SIGNAL)
  {
    assert Surface(NO_SIGNAL)[2] == 'b' && Surface(ALLOWED_USE)[2] == 'a';
  }

  lemma {:induction false} OneNaming(use: Event, quiet: Event, named: SkillPolicySignal)
    requires SkillPolicyOf(use) == Some(named) && SkillPolicyOf(quiet) == None && named.Named?
    ensures Evaluate(FilterMap(SkillPolicyOf, [use, quiet]), [named.name]) == Report(map[], NotViolation, Observed)
  {
    FilterMapTwo(SkillPolicyOf, use, quiet);
    assert FilterMap(SkillPolicyOf, [use, quiet]) == [named];
    AllowedIsClean([named], [named.name]);
  }

  lemma {:induction false} AllowedIsClean(signals: seq<SkillPolicySignal>, allowlist: seq<string>)
    requires signals != [] && allowlist != [] && forall s :: s in signals ==> s.Named? && s.name in allowlist
    ensures Evaluate(signals, allowlist) == Report(map[], NotViolation, Observed)
  {
    FindingsExist(signals, set n | n in allowlist);
    assert signals[0] in signals;
  }

  lemma {:induction false} NoFindingIsNoViolation(signals: seq<SkillPolicySignal>, allowlist: seq<string>)
    ensures Evaluate(signals, allowlist).findings == map[] ==> Evaluate(signals, allowlist).verdict != Violation
  {}
}

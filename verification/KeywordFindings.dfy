/** What the keyword report finds, read off the prompts and the rules
    (internal/governance/prompt_keywords.go). */
module KeywordFindings {
  import opened Prelude
  import opened Ordering
  import opened Canonical
  import opened PromptKeywords

  // ---- prompts ----------------------------------------------------------------

  /** The text stands under this key of this namespace. */
  predicate TextStands(e: Event, namespace: Key, key: Key, text: string) {
    && namespace in e.extensions && e.extensions[namespace].JObj?
    && key in e.extensions[namespace].fields && e.extensions[namespace].fields[key] == JStr(text)
  }

  predicate FromClaude(e: Event) { e.env.provider == "anthropic" && e.env.tool == "claude-code" }
  predicate FromCodex(e: Event) { e.env.provider == "openai" && e.env.tool == "codex" }

  function Lower(c: char): char {
    if 'A' <= c <= 'Z' then (c as int + 32) as char else c
  }

  function Lowered(s: string): string {
    seq(|s|, i requires 0 <= i < |s| => Lower(s[i]))
  }

  /** The provider wrote a placeholder, in whatever case and space. */
  predicate Placeholder(text: string) {
    Lowered(TrimSpace(text)) == "<redacted>"
  }

  lemma {:induction false} RedactedIsPlaceholder(text: string)
    ensures Redacted(text) <==> Placeholder(text)
  {
    FoldedIsLowered(TrimSpace(text), "<redacted>");
  }

  lemma {:induction false} FoldedIsLowered(s: string, lower: string)
    requires forall c :: c in lower ==> !('A' <= c <= 'Z')
    ensures FoldsTo(s, lower) <==> Lowered(s) == lower
  {
    if |s| == |lower| {
      forall i | 0 <= i < |s|
        ensures Lower(s[i]) == lower[i] <==> s[i] == lower[i] || ('A' <= s[i] <= 'Z' && s[i] + ' ' == lower[i])
      {
        assert lower[i] in lower;
      }
      if FoldsTo(s, lower) {
        assert forall i :: 0 <= i < |s| ==> Lowered(s)[i] == lower[i];
      }
    }
  }

  /** A retained body of a user prompt: what Claude or Codex logged, or what a Claude
      transcript shows, unless the provider redacted it. */
  predicate Retains(e: Event, text: string) {
    && !Placeholder(text)
    && ((e.env.eventType == "user_prompt" && (FromClaude(e) || FromCodex(e)) && TextStands(e, EventEcho, Key.Prompt, text))
        || (e.env.eventType == "user_message" && FromClaude(e) && TextStands(e, Transcript, PromptContent, text)
            && !Blank(text)))
  }

  /** The event is a user prompt at all, with a body or without. */
  ghost predicate IsUserPrompt(e: Event) {
    || (e.env.eventType == "user_prompt" && (FromClaude(e) || FromCodex(e)))
    || (e.env.eventType == "user_message" && FromClaude(e)
        && exists text :: TextStands(e, Transcript, PromptContent, text) && !Blank(text))
  }

  lemma {:induction false} RecordIsRead(e: Event)
    ensures UserRecord(e).Some? <==> IsUserPrompt(e)
    ensures forall text :: UserRecord(e) == Some(Some(text)) <==> Retains(e, text)
  {
    forall text ensures Redacted(text) <==> Placeholder(text) {
      RedactedIsPlaceholder(text);
    }
    if e.env.eventType == "user_message" && IsClaude(e) {
      var content := AsText(At(ObjectAt(e.extensions, Transcript), PromptContent));
      if content.Some? {
        assert TextStands(e, Transcript, PromptContent, content.value);
      }
    }
  }

  /** Two Claude records are one prompt when session and message uuid say so: the OTLP log
      has it as message_uuid, the transcript as uuid. */
  lemma {:induction false} ClaudeKeys(e: Event, session: string, uuid: string)
    ensures PromptIdentityKey(e) == ClaudePrompt(session, uuid)
            <==> && FromClaude(e) && session != "" && uuid != "" && session == TrimSpace(e.env.sessionId)
                 && ((e.env.eventType == "user_prompt"
                      && exists raw :: TextStands(e, Correlation, MessageUuid, raw) && TrimSpace(raw) == uuid)
                     || (e.env.eventType == "user_message"
                         && exists raw :: TextStands(e, Correlation, Uuid, raw) && TrimSpace(raw) == uuid))
    ensures PromptIdentityKey(e).OwnEvent? ==> PromptIdentityKey(e).eventId == e.env.eventId
  {
    var key := if e.env.eventType == "user_prompt" then MessageUuid else Uuid;
    var found := AsText(At(ObjectAt(e.extensions, Correlation), key));
    if found.Some? {
      assert TextStands(e, Correlation, key, found.value);
    }
  }

  /** The last event of this id. */
  ghost predicate LastOfId(events: seq<Event>, id: string, owner: Event) {
    exists i :: 0 <= i < |events| && events[i] == owner && owner.env.eventId == id
                && forall j :: i < j < |events| ==> events[j].env.eventId != id
  }

  lemma {:induction false} OwnerIsLast(events: seq<Event>, id: string)
    requires ById(events, id).Some?
    ensures LastOfId(events, id, ById(events, id).value)
  {
    var n := |events| - 1;
    if events[n].env.eventId != id {
      OwnerIsLast(events[..n], id);
      var i :| 0 <= i < n && events[i] == ById(events, id).value && forall j :: i < j < n ==> events[..n][j].env.eventId != id;
      forall j | i < j < |events| ensures events[j].env.eventId != id {
        assert j < n ==> events[..n][j] == events[j];
      }
    }
  }

  /** A prompt: some event is a user prompt under its id, with its text if it retains one; an
      OTLP log is told from a transcript by its type; and key and session are those of the
      last event of the id. */
  lemma {:induction false} PromptIsRead(events: seq<Event>, p: Prompt) returns (e: Event, owner: Event)
    requires p in PromptsOf(events)
    ensures e in events && e.env.eventId == p.eventId && IsUserPrompt(e)
    ensures forall text :: p.text == Some(text) <==> Retains(e, text)
    ensures p.otlp <==> e.env.eventType == "user_prompt"
    ensures LastOfId(events, p.eventId, owner)
    ensures p.key == PromptIdentityKey(owner) && p.sessionId == TrimSpace(owner.env.sessionId)
  {
    FilterMapMember(PromptReader(events), events, p);
    e :| e in events && PromptAmong(events, e) == Some(p);
    RecordIsRead(e);
    OwnerIsLast(events, p.eventId);
    owner := ById(events, p.eventId).value;
  }

  /** Every user prompt of the events is there. */
  lemma {:induction false} PromptIsListed(events: seq<Event>, e: Event)
    requires e in events && IsUserPrompt(e)
    ensures exists p :: p in PromptsOf(events) && p.eventId == e.env.eventId
  {
    RecordIsRead(e);
    ByIdFinds(events, e);
    FilterMapMember(PromptReader(events), events, PromptAmong(events, e).value);
  }

  // ---- the verdict ------------------------------------------------------------

  predicate Matches(m: Matcher, r: Rule, p: Prompt) {
    r.enabled && m.compiles(r) && p.text.Some? && m.matches(r, p.text.value)
  }

  ghost predicate SomeMatch(m: Matcher, rules: seq<Rule>, prompts: seq<Prompt>) {
    exists r, p :: r in rules && p in prompts && Matches(m, r, p)
  }

  /** Some record of the same prompt has a body. */
  ghost predicate HasBody(prompts: seq<Prompt>, key: PromptKey) {
    exists q :: q in prompts && q.key == key && q.text.Some?
  }

  lemma {:induction false} SourcesAreTexts(key: PromptKey, prompts: seq<Prompt>, b: Body)
    ensures b in Sources(key, prompts)
            <==> exists p :: p in prompts && p.key == key && p.text == Some(b.text) && p.eventId == b.eventId && p.otlp == b.otlp
  {
    var f := (p: Prompt) => SourceWithin(key, p);
    FilterMapMember(f, prompts, b);
    if b in Sources(key, prompts) {
      var p :| p in prompts && f(p) == Some(b);
    }
    if p :| p in prompts && p.key == key && p.text == Some(b.text) && p.eventId == b.eventId && p.otlp == b.otlp {
      assert f(p) == Some(b);
    }
  }

  lemma {:induction false} BodiesOf(key: PromptKey, prompts: seq<Prompt>)
    ensures Sources(key, prompts) != [] <==> HasBody(prompts, key)
  {
    var sources := Sources(key, prompts);
    if sources != [] {
      SourcesAreTexts(key, prompts, sources[0]);
      assert sources[0] in sources;
    }
    if q :| q in prompts && q.key == key && q.text.Some? {
      SourcesAreTexts(key, prompts, Body(q.eventId, q.otlp, q.text.value));
    }
  }

  lemma {:induction false} FoundIsMatched(m: Matcher, r: Rule, identity: Identity)
    ensures FindingFor(m, r, identity).Some? <==> exists b :: b in identity.sources && m.matches(r, b.text)
  {
    var f := (s: Body) => if m.matches(r, s.text) then Some(s) else None;
    var matched := Matched(m, r, identity.sources);
    assert |SortBy(SourceLess, SourceKeyOf, matched)| == |matched|;
    if matched != [] {
      FilterMapMember(f, identity.sources, matched[0]);
    }
    if b :| b in identity.sources && m.matches(r, b.text) {
      FilterMapMember(f, identity.sources, b);
    }
  }

  lemma {:induction false} IdentityIsMatched(m: Matcher, rules: seq<Rule>, identity: Identity)
    ensures IdentityFindings(m, rules, identity) != []
            <==> exists r, b :: r in rules && b in identity.sources && m.matches(r, b.text)
  {
    var f := (r: Rule) => FindingFor(m, r, identity);
    var found := IdentityFindings(m, rules, identity);
    if found != [] {
      FilterMapMember(f, rules, found[0]);
      var r :| r in rules && f(r) == Some(found[0]);
      FoundIsMatched(m, r, identity);
    }
    if r, b :| r in rules && b in identity.sources && m.matches(r, b.text) {
      FoundIsMatched(m, r, identity);
      FilterMapMember(f, rules, f(r).value);
    }
  }

  lemma {:induction false} CompiledAreEnabled(m: Matcher, rules: seq<Rule>, r: Rule)
    ensures r in Compiled(m, rules) <==> r in rules && r.enabled && m.compiles(r)
  {
    FilterMapMember((r: Rule) => if r.enabled && m.compiles(r) then Some(r) else None, rules, r);
  }

  ghost predicate KeyMatches(m: Matcher, compiled: seq<Rule>, prompts: seq<Prompt>, key: PromptKey) {
    exists r, p :: r in compiled && p in prompts && p.key == key && p.text.Some? && m.matches(r, p.text.value)
  }

  lemma {:induction false} KeyIsMatched(m: Matcher, compiled: seq<Rule>, prompts: seq<Prompt>, identity: Identity, key: PromptKey)
    requires identity.sources == Sources(key, prompts)
    ensures IdentityFindings(m, compiled, identity) != [] <==> KeyMatches(m, compiled, prompts, key)
  {
    IdentityIsMatched(m, compiled, identity);
    if r, b :| r in compiled && b in identity.sources && m.matches(r, b.text) {
      SourcesAreTexts(key, prompts, b);
    }
    if r, p :| r in compiled && p in prompts && p.key == key && p.text.Some? && m.matches(r, p.text.value) {
      SourcesAreTexts(key, prompts, Body(p.eventId, p.otlp, p.text.value));
    }
  }

  /** Some compiled rule matches a text of the `i`-th identity. */
  ghost predicate MatchedAt(m: Matcher, compiled: seq<Rule>, prompts: seq<Prompt>, i: int) {
    0 <= i < |Keys(prompts)| && KeyMatches(m, compiled, prompts, Keys(prompts)[i])
  }

  lemma {:induction false} MatchesAreFound(m: Matcher, rules: seq<Rule>, prompts: seq<Prompt>, identities: seq<Identity>)
    requires Grouped(prompts, identities)
    ensures AllFindings(m, Compiled(m, rules), identities) != [] <==> SomeMatch(m, rules, prompts)
  {
    var compiled := Compiled(m, rules);
    forall i | 0 <= i < |identities|
      ensures MatchedAt(m, compiled, prompts, i) <==> IdentityFindings(m, compiled, identities[i]) != []
    {
      KeyIsMatched(m, compiled, prompts, identities[i], Keys(prompts)[i]);
    }
    MatchesHaveKeys(m, rules, prompts, compiled, |identities|);
    if AllFindings(m, compiled, identities) != [] {
      var i := FoundInOne(m, compiled, identities);
      assert MatchedAt(m, compiled, prompts, i);
    }
    if i :| 0 <= i < |identities| && MatchedAt(m, compiled, prompts, i) {
      FoundInAll(m, compiled, identities, i);
    }
  }

  lemma {:induction false} FoundInAll(m: Matcher, compiled: seq<Rule>, identities: seq<Identity>, i: nat)
    requires i < |identities| && IdentityFindings(m, compiled, identities[i]) != []
    ensures AllFindings(m, compiled, identities) != []
  {
    if i < |identities| - 1 {
      FoundInAll(m, compiled, identities[..|identities| - 1], i);
    }
  }

  lemma {:induction false} FoundInOne(m: Matcher, compiled: seq<Rule>, identities: seq<Identity>) returns (i: nat)
    requires AllFindings(m, compiled, identities) != []
    ensures i < |identities| && IdentityFindings(m, compiled, identities[i]) != []
  {
    i := |identities| - 1;
    if IdentityFindings(m, compiled, identities[i]) == [] {
      i := FoundInOne(m, compiled, identities[..|identities| - 1]);
    }
  }

  lemma {:induction false} MatchesHaveKeys(m: Matcher, rules: seq<Rule>, prompts: seq<Prompt>, compiled: seq<Rule>, n: nat)
    requires compiled == Compiled(m, rules) && n == |Keys(prompts)|
    ensures SomeMatch(m, rules, prompts) <==> exists i :: 0 <= i < n && MatchedAt(m, compiled, prompts, i)
  {
    if r, p :| r in rules && p in prompts && Matches(m, r, p) {
      CompiledAreEnabled(m, rules, r);
      KeysCoverPrompts(prompts);
      assert KeyMatches(m, compiled, prompts, p.key);
      var i :| 0 <= i < |Keys(prompts)| && Keys(prompts)[i] == p.key;
      assert MatchedAt(m, compiled, prompts, i);
    }
    if i :| 0 <= i < n && MatchedAt(m, compiled, prompts, i) {
      var r, p :| r in compiled && p in prompts && p.key == Keys(prompts)[i] && p.text.Some? && m.matches(r, p.text.value);
      CompiledAreEnabled(m, rules, r);
      assert Matches(m, r, p);
    }
  }

  lemma {:induction false} BodiesAreSeen(prompts: seq<Prompt>, identities: seq<Identity>)
    requires Grouped(prompts, identities)
    ensures AnyOf(identities, true) <==> exists p :: p in prompts && p.text.Some?
    ensures AnyOf(identities, false) <==> exists p :: p in prompts && !HasBody(prompts, p.key)
  {
    var keys := Keys(prompts);
    KeysCoverPrompts(prompts);
    forall i | 0 <= i < |identities| ensures identities[i].Available() <==> HasBody(prompts, keys[i]) {
      BodiesOf(keys[i], prompts);
    }
    forall p | p in prompts ensures KeyAt(keys, p.key) {}
    forall i | 0 <= i < |keys| ensures OfPrompt(prompts, keys[i]) {
      assert keys[i] in keys;
    }
  }

  ghost predicate KeyAt(keys: seq<PromptKey>, key: PromptKey) {
    exists i :: 0 <= i < |keys| && keys[i] == key
  }

  ghost predicate OfPrompt(prompts: seq<Prompt>, key: PromptKey) {
    exists p :: p in prompts && p.key == key
  }

  /** A violation exactly when an enabled rule that compiles matches a retained text; clean
      exactly when there is such a rule, no match, and of every prompt some record has a
      body; and what visibility says otherwise. */
  lemma {:induction false} VerdictIsMatch(
      m: Matcher, prompts: seq<Prompt>, rules: seq<Rule>, report: Report, identities: seq<Identity>)
    requires Reports(m, prompts, rules, report, identities)
    ensures report.verdict == Violation <==> SomeMatch(m, rules, prompts)
    ensures report.verdict == NotViolation
            <==> && (exists r :: r in rules && r.enabled && m.compiles(r)) && !SomeMatch(m, rules, prompts)
                 && prompts != [] && forall p :: p in prompts ==> HasBody(prompts, p.key)
    ensures report.visibility == PolicyUnconfigured <==> !exists r :: r in rules && r.enabled && m.compiles(r)
  {
    var compiled := Compiled(m, rules);
    forall r ensures r in compiled <==> r in rules && r.enabled && m.compiles(r) {
      CompiledAreEnabled(m, rules, r);
    }
    if compiled != [] {
      assert compiled[0] in compiled;
    }
    MatchesAreFound(m, rules, prompts, identities);
    BodiesAreSeen(prompts, identities);
    var found := if compiled == [] then [] else AllFindings(m, compiled, identities);
    assert |report.findings| == |multiset(report.findings)| == |multiset(found)| == |found|;
    NoRulesNoMatch(m, rules, prompts);
    FirstHasBody(prompts);
  }

  lemma {:induction false} NoRulesNoMatch(m: Matcher, rules: seq<Rule>, prompts: seq<Prompt>)
    ensures SomeMatch(m, rules, prompts) ==> exists r :: r in rules && r.enabled && m.compiles(r)
  {}

  lemma {:induction false} FirstHasBody(prompts: seq<Prompt>)
    ensures (exists p :: p in prompts && p.text.Some?) && (forall p :: p in prompts ==> HasBody(prompts, p.key))
            <==> prompts != [] && forall p :: p in prompts ==> HasBody(prompts, p.key)
  {
    if prompts != [] && forall p :: p in prompts ==> HasBody(prompts, p.key) {
      assert prompts[0] in prompts && HasBody(prompts, prompts[0].key);
    }
  }

  // ---- the primary source -----------------------------------------------------

  /** `s` is the record to report of these: an OTLP one if there is one, and of those the
      one with the least event id. */
  ghost predicate Preferred(matched: seq<Body>, s: Body) {
    && s in matched
    && forall b :: b in matched ==> (b.otlp ==> s.otlp) && (b.otlp == s.otlp ==> !StrLess(b.eventId, s.eventId))
  }

  lemma {:induction false} SourceLessStrictTotal()
    ensures StrictTotal(SourceLess)
  {
    StrLessStrictTotal();
    forall a: SourceKey, b: SourceKey ensures a == b || SourceLess(a, b) || SourceLess(b, a) {
      assert a == (a.0, a.1) && b == (b.0, b.1);
    }
    forall a: SourceKey, b: SourceKey, c: SourceKey | SourceLess(a, b) && SourceLess(b, c) ensures SourceLess(a, c) {
      if a.0 == b.0 == c.0 {
        assert StrLess(a.1, b.1) && StrLess(b.1, c.1);
      }
    }
  }

  /** A finding names its rule and session, the preferred record first, and every other
      matching record once. */
  lemma {:induction false} PrimaryIsPreferred(m: Matcher, r: Rule, identity: Identity)
    requires FindingFor(m, r, identity).Some?
    ensures var f, matched := FindingFor(m, r, identity).value, Matched(m, r, identity.sources);
            && f.ruleId == r.id && f.sessionId == identity.sessionId
            && multiset([f.sourceId] + f.corroborating) == multiset(Ids(matched))
            && exists s :: Preferred(matched, s) && f.sourceId == s.eventId
  {
    var matched := Matched(m, r, identity.sources);
    var sorted := SortBy(SourceLess, SourceKeyOf, matched);
    IdentityCites(m, r, identity);
    FirstIsPreferred(matched, sorted);
  }

  lemma {:induction false} FirstIsPreferred(matched: seq<Body>, sorted: seq<Body>)
    requires sorted == SortBy(SourceLess, SourceKeyOf, matched) && sorted != []
    ensures Preferred(matched, sorted[0])
  {
    SourceLessStrictTotal();
    SortBySorted(SourceLess, SourceKeyOf, matched);
    forall b | b in matched ensures !SourceLess(SourceKeyOf(b), SourceKeyOf(sorted[0])) {
      MembersOfSort(SourceLess, SourceKeyOf, matched, b);
      var k :| 0 <= k < |sorted| && sorted[k] == b;
    }
    MembersOfSort(SourceLess, SourceKeyOf, matched, sorted[0]);
  }

  /** Findings come in the order of source event and rule, joined with NUL. */
  lemma {:induction false} FindingsAreOrdered(
      m: Matcher, prompts: seq<Prompt>, rules: seq<Rule>, report: Report, identities: seq<Identity>, i: nat, j: nat)
    requires Reports(m, prompts, rules, report, identities) && i < j < |report.findings|
    ensures var a, b := report.findings[i], report.findings[j];
            !StrLess(b.sourceId + "\0" + b.ruleId, a.sourceId + "\0" + a.ruleId)
  {
    assert !StrLess(FindingOrder(report.findings[j]), FindingOrder(report.findings[i]));
  }
}

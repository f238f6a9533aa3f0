/** Matching user prompts against keyword rules
    (internal/governance/prompt_keywords.go). */
module PromptKeywords {
  import opened Prelude
  import opened Ordering
  import opened Canonical
  import Folds

  /** A user-role conversation record: the identity and session of its event, whether the
      OTLP surface carried it, and its text if one was retained. */
  datatype Prompt = Prompt(key: PromptKey, sessionId: string, eventId: string, otlp: bool, text: Option<string>)

  datatype Rule = Rule(id: string, enabled: bool, kind: string, value: string)

  /** Pattern matching is not interpreted: whether a rule compiles, and what it matches. */
  datatype Matcher = Matcher(compiles: Rule -> bool, matches: (Rule, string) -> bool)

  // ---- identities -------------------------------------------------------------

  /** promptIdentityKey: NUL-joined strings in Go. */
  datatype PromptKey = OwnEvent(eventId: string) | ClaudePrompt(session: string, uuid: string)

  function PromptIdentityKey(e: Event): PromptKey {
    var found := AsText(At(ObjectAt(e.extensions, Correlation), if e.env.eventType == "user_prompt" then MessageUuid else Uuid));
    var session, uuid := TrimSpace(e.env.sessionId), if found.Some? then TrimSpace(found.value) else "";
    if e.env.provider != "anthropic" || e.env.tool != "claude-code" then OwnEvent(e.env.eventId)
    else if e.env.eventType != "user_prompt" && e.env.eventType != "user_message" then OwnEvent(e.env.eventId)
    else if session == "" || uuid == "" then OwnEvent(e.env.eventId)
    else ClaudePrompt(session, uuid)
  }

  // ---- the projection of user prompts (internal/conversation/projection.go) ----

  predicate IsClaude(e: Event) { e.env.provider == "anthropic" && e.env.tool == "claude-code" }
  predicate IsCodex(e: Event) { e.env.provider == "openai" && e.env.tool == "codex" }

  /** strings.EqualFold(strings.TrimSpace(s), "<redacted>") */
  predicate Redacted(s: string) { FoldsTo(TrimSpace(s), "<redacted>") }

  predicate FoldsTo(s: string, lower: string) {
    |s| == |lower| && forall i :: 0 <= i < |s| ==> s[i] == lower[i] || ('A' <= s[i] <= 'Z' && s[i] + ' ' == lower[i])
  }

  /** contentValue, where it yields an available text. */
  function AvailableText(v: Option<Json>): Option<string> {
    match AsText(v)
    case Some(text) => if Redacted(text) then None else Some(text)
    case None => None
  }

  /** The user record an event projects to, if it does: its available text. A transcript
      record needs a visible text to be one. */
  function UserRecord(e: Event): Option<Option<string>> {
    if !IsClaude(e) && !IsCodex(e) then None
    else if e.env.eventType == "user_prompt" then Some(AvailableText(At(ObjectAt(e.extensions, EventEcho), Key.Prompt)))
    else if IsClaude(e) && e.env.eventType == "user_message" then
      var content := At(ObjectAt(e.extensions, Transcript), PromptContent);
      if AsText(content).None? || Blank(AsText(content).value) then None else Some(AvailableText(content))
    else None
  }

  /** The last event with this id. */
  function ById(events: seq<Event>, id: string): Option<Event> {
    if events == [] then None
    else if events[|events| - 1].env.eventId == id then Some(events[|events| - 1])
    else ById(events[..|events| - 1], id)
  }

  /** The prompt of an event; `owner` is the event known under its id. */
  function PromptOf(owner: Event, e: Event): Option<Prompt> {
    match UserRecord(e)
    case None => None
    case Some(text) =>
      Some(Prompt.Prompt(
        PromptIdentityKey(owner), TrimSpace(owner.env.sessionId), e.env.eventId, e.env.eventType == "user_prompt", text))
  }

  function PromptAmong(events: seq<Event>, e: Event): Option<Prompt> {
    var owner := ById(events, e.env.eventId);
    if owner.None? then None else PromptOf(owner.value, e)
  }

  function PromptReader(events: seq<Event>): Event -> Option<Prompt> {
    (e: Event) => PromptAmong(events, e)
  }

  function PromptsOf(events: seq<Event>): seq<Prompt> {
    FilterMap(PromptReader(events), events)
  }

  lemma {:induction false} ByIdFinds(events: seq<Event>, e: Event)
    requires e in events
    ensures ById(events, e.env.eventId).Some? && ById(events, e.env.eventId).value in events
    ensures ById(events, e.env.eventId).value.env.eventId == e.env.eventId
  {
    if events[|events| - 1].env.eventId != e.env.eventId {
      ByIdFinds(events[..|events| - 1], e);
    }
  }

  method UserPrompts(events: seq<Event>) returns (prompts: seq<Prompt>)
    ensures prompts == PromptsOf(events)
  {
    var byId: map<string, Event> := map[];
    for n := 0 to |events|
      invariant forall id :: HasKey(byId, id) == ById(events[..n], id)
    {
      assert events[..n + 1][..n] == events[..n];
      byId := byId[events[n].env.eventId := events[n]];
    }
    assert events[..|events|] == events;
    prompts := [];
    for n := 0 to |events|
      invariant prompts == FilterMap(PromptReader(events), events[..n])
    {
      FilterMapStep(PromptReader(events), events, n);
      ByIdFinds(events, events[n]);
      assert HasKey(byId, events[n].env.eventId) == ById(events, events[n].env.eventId);
      var prompt := PromptOf(byId[events[n].env.eventId], events[n]);
      if prompt.Some? {
        prompts := prompts + [prompt.value];
      }
    }
  }

  function KeyOf(p: Prompt): PromptKey { p.key }

  /** Prompts as events give them: a joined key names the session, any other key the event,
      and one event is of one session. */
  ghost predicate Genuine(prompts: seq<Prompt>) {
    && (forall p :: p in prompts ==> p.key == OwnEvent(p.eventId) || (p.key.ClaudePrompt? && p.key.session == p.sessionId))
    && forall p, q :: p in prompts && q in prompts && p.eventId == q.eventId ==> p.sessionId == q.sessionId
  }

  lemma {:induction false} PromptsAreGenuine(events: seq<Event>)
    ensures Genuine(PromptsOf(events))
  {
    forall p | p in PromptsOf(events)
      ensures ById(events, p.eventId).Some? && p.sessionId == TrimSpace(ById(events, p.eventId).value.env.sessionId)
      ensures p.key == OwnEvent(p.eventId) || (p.key.ClaudePrompt? && p.key.session == p.sessionId)
    {
      FilterMapMember(PromptReader(events), events, p);
      var e :| e in events && PromptAmong(events, e) == Some(p);
      ByIdFinds(events, e);
    }
  }

  /** Prompts are joined only inside one session. */
  lemma {:induction false} JoinedPromptsShareSession(prompts: seq<Prompt>, i: nat, j: nat)
    requires Genuine(prompts) && i < |prompts| && j < |prompts|
    requires KeyOf(prompts[i]) == KeyOf(prompts[j])
    ensures prompts[i].sessionId == prompts[j].sessionId
  {
    assert prompts[i] in prompts && prompts[j] in prompts;
  }

  // ---- groupPromptIdentities --------------------------------------------------

  datatype Body = Body(eventId: string, otlp: bool, text: string)

  datatype Identity = Identity(sessionId: string, sources: seq<Body>) {
    /** An identity is available once a member has a body. */
    predicate Available() { sources != [] }
  }

  function SourceOf(p: Prompt): Option<Body> {
    if p.text.None? then None
    else Some(Body(p.eventId, p.otlp, p.text.value))
  }

  function SourceWithin(key: PromptKey, p: Prompt): Option<Body> {
    if KeyOf(p) == key then SourceOf(p) else None
  }

  /** The bodies of one prompt, in record order. */
  function Sources(key: PromptKey, prompts: seq<Prompt>): seq<Body> {
    FilterMap((p: Prompt) => SourceWithin(key, p), prompts)
  }

  /** The keys, each at its first record. */
  function Keys(prompts: seq<Prompt>): seq<PromptKey> {
    if prompts == [] then []
    else
      var seen, key := Keys(prompts[..|prompts| - 1]), KeyOf(prompts[|prompts| - 1]);
      if key in seen then seen else seen + [key]
  }

  lemma {:induction false} KeysCoverPrompts(prompts: seq<Prompt>)
    ensures NoRepeats(Keys(prompts))
    ensures forall p :: p in prompts ==> KeyOf(p) in Keys(prompts)
    ensures forall key :: key in Keys(prompts) ==> exists p :: p in prompts && KeyOf(p) == key
  {
    if prompts != [] {
      var front, last := prompts[..|prompts| - 1], prompts[|prompts| - 1];
      KeysCoverPrompts(front);
      assert prompts == front + [last];
    }
  }

  /** One identity per key, in first-seen order, with exactly that key's bodies. */
  ghost predicate Grouped(prompts: seq<Prompt>, identities: seq<Identity>) {
    && |identities| == |Keys(prompts)|
    && (forall i :: 0 <= i < |identities| ==> identities[i].sources == Sources(Keys(prompts)[i], prompts))
    && forall i :: 0 <= i < |identities| ==> FromSession(Keys(prompts)[i], prompts, identities[i].sessionId)
  }

  /** Some prompt with this key has this session. */
  ghost predicate FromSession(key: PromptKey, prompts: seq<Prompt>, sessionId: string) {
    exists p :: p in prompts && KeyOf(p) == key && sessionId == p.sessionId
  }

  /** The index places exactly the keys. */
  ghost predicate Indexed(index: map<PromptKey, nat>, keys: seq<PromptKey>) {
    && (forall key :: key in index ==> index[key] < |keys| && keys[index[key]] == key)
    && forall key :: key in keys ==> key in index
  }

  lemma {:induction false} KeysStep(prompts: seq<Prompt>, n: nat)
    requires n < |prompts|
    ensures Keys(prompts[..n + 1])
            == if KeyOf(prompts[n]) in Keys(prompts[..n]) then Keys(prompts[..n])
               else Keys(prompts[..n]) + [KeyOf(prompts[n])]
    ensures NoRepeats(Keys(prompts[..n + 1]))
  {
    assert prompts[..n + 1][..n] == prompts[..n];
    KeysCoverPrompts(prompts[..n]);
  }

  method GroupPromptIdentities(prompts: seq<Prompt>) returns (identities: seq<Identity>)
    ensures Grouped(prompts, identities)
  {
    identities := [];
    var index: map<PromptKey, nat> := map[];
    for n := 0 to |prompts|
      invariant Grouped(prompts[..n], identities)
      invariant Indexed(index, Keys(prompts[..n]))
    {
      ghost var before := identities;
      KeysStep(prompts, n);
      index, identities := AddPrompt(prompts[n], index, identities, Keys(prompts[..n]));
      GroupGrows(prompts, n, before, identities, index[KeyOf(prompts[n])]);
    }
    assert prompts[..|prompts|] == prompts;
  }

  /** One turn of the loop: the identities are reached through the index. */
  method AddPrompt(p: Prompt, index: map<PromptKey, nat>, identities: seq<Identity>, ghost keys: seq<PromptKey>)
    returns (index': map<PromptKey, nat>, identities': seq<Identity>)
    requires Indexed(index, keys) && |keys| == |identities|
    ensures Indexed(index', if KeyOf(p) in keys then keys else keys + [KeyOf(p)])
    ensures KeyOf(p) in index' && Added(p, identities, identities', index'[KeyOf(p)])
    ensures |identities'| == if KeyOf(p) in keys then |keys| else |keys| + 1
  {
    index', identities' := index, identities;
    if KeyOf(p) !in index {
      index' := index[KeyOf(p) := |identities|];
      identities' := identities + [Identity(p.sessionId, [])];
    }
    var place, source := index'[KeyOf(p)], SourceOf(p);
    if source.Some? {
      identities' := identities'[place := identities'[place].(sources := identities'[place].sources + [source.value])];
    }
  }

  /** The identity at `place`, new or known, has taken the prompt's body. */
  ghost predicate Added(p: Prompt, before: seq<Identity>, after: seq<Identity>, place: nat) {
    && place < |after| && |before| <= |after|
    && (forall i :: 0 <= i < |after| && i != place ==> i < |before| && after[i] == before[i])
    && after[place].sources == (if place < |before| then before[place].sources else [])
                               + (if SourceOf(p).Some? then [SourceOf(p).value] else [])
    && after[place].sessionId == if place < |before| then before[place].sessionId else p.sessionId
  }

  /** What one record does to the identities. */
  lemma {:induction false} GroupGrows(prompts: seq<Prompt>, n: nat, before: seq<Identity>, after: seq<Identity>, place: nat)
    requires n < |prompts| && Grouped(prompts[..n], before)
    requires Added(prompts[n], before, after, place) && |after| == |Keys(prompts[..n + 1])|
    requires Keys(prompts[..n + 1])[place] == KeyOf(prompts[n])
    requires Keys(prompts[..n]) <= Keys(prompts[..n + 1]) && NoRepeats(Keys(prompts[..n + 1]))
    ensures Grouped(prompts[..n + 1], after)
  {
    forall i | 0 <= i < |after|
      ensures after[i].sources == Sources(Keys(prompts[..n + 1])[i], prompts[..n + 1])
      ensures FromSession(Keys(prompts[..n + 1])[i], prompts[..n + 1], after[i].sessionId)
    {
      var key := Keys(prompts[..n + 1])[i];
      FilterMapStep((q: Prompt) => SourceWithin(key, q), prompts, n);
      if i < |before| {
        assert key == Keys(prompts[..n])[i];
        SessionStays(key, prompts, n, before[i].sessionId);
      } else {
        NoSources(key, prompts[..n]);
        assert prompts[..n + 1][n] == prompts[n];
      }
    }
  }

  lemma {:induction false} SessionStays(key: PromptKey, prompts: seq<Prompt>, n: nat, sessionId: string)
    requires n < |prompts| && FromSession(key, prompts[..n], sessionId)
    ensures FromSession(key, prompts[..n + 1], sessionId)
  {
    assert prompts[..n + 1] == prompts[..n] + [prompts[n]];
  }

  lemma {:induction false} NoSources(key: PromptKey, prompts: seq<Prompt>)
    requires key !in Keys(prompts)
    ensures Sources(key, prompts) == []
  {
    KeysCoverPrompts(prompts);
    FilterMapNone((p: Prompt) => SourceWithin(key, p), prompts);
  }

  // ---- findings ---------------------------------------------------------------

  datatype Finding = Finding(ruleId: string, sessionId: string, sourceId: string, corroborating: seq<string>)

  function Matched(m: Matcher, rule: Rule, sources: seq<Body>): seq<Body> {
    FilterMap((s: Body) => if m.matches(rule, s.text) then Some(s) else None, sources)
  }

  type SourceKey = (bool, string)

  /** OTLP prompts first, then by event id. */
  predicate SourceLess(a: SourceKey, b: SourceKey) {
    if a.0 != b.0 then a.0 else StrLess(a.1, b.1)
  }

  function SourceKeyOf(s: Body): SourceKey { (s.otlp, s.eventId) }

  function Ids(sources: seq<Body>): seq<string> {
    seq(|sources|, k requires 0 <= k < |sources| => sources[k].eventId)
  }

  /** Every event id a finding names. */
  function Cited(f: Finding): seq<string> { [f.sourceId] + f.corroborating }

  function FindingFor(m: Matcher, rule: Rule, identity: Identity): Option<Finding> {
    var sorted := SortBy(SourceLess, SourceKeyOf, Matched(m, rule, identity.sources));
    if sorted == [] then None
    else Some(Finding(rule.id, identity.sessionId, sorted[0].eventId, Ids(sorted[1..])))
  }

  method FindMatches(m: Matcher, rule: Rule, identity: Identity) returns (f: Option<Finding>)
    ensures f == FindingFor(m, rule, identity)
  {
    var matched: seq<Body> := [];
    ghost var keep := (s: Body) => if m.matches(rule, s.text) then Some(s) else None;
    for n := 0 to |identity.sources|
      invariant matched == FilterMap(keep, identity.sources[..n])
    {
      FilterMapStep(keep, identity.sources, n);
      if m.matches(rule, identity.sources[n].text) {
        matched := matched + [identity.sources[n]];
      }
    }
    assert identity.sources[..|identity.sources|] == identity.sources;
    var sorted := SortBy(SourceLess, SourceKeyOf, matched);
    if sorted == [] { return None; }
    var corroborating := Corroborating(sorted[1..]);
    f := Some(Finding(rule.id, identity.sessionId, sorted[0].eventId, corroborating));
  }

  method Corroborating(others: seq<Body>) returns (ids: seq<string>)
    ensures ids == Ids(others)
  {
    ids := [];
    for n := 0 to |others|
      invariant |ids| == n && forall k :: 0 <= k < n ==> ids[k] == others[k].eventId
    {
      ids := ids + [others[n].eventId];
    }
  }

  /** One rule's findings, one per identity with a match. */
  function RuleFindings(m: Matcher, rule: Rule, identities: seq<Identity>): seq<Finding> {
    FilterMap((i: Identity) => FindingFor(m, rule, i), identities)
  }

  function AllCited(findings: seq<Finding>): multiset<string> {
    if findings == [] then multiset{}
    else AllCited(findings[..|findings| - 1]) + multiset(Cited(findings[|findings| - 1]))
  }

  /** The events of the prompts whose text matches. */
  function MatchingId(m: Matcher, rule: Rule, p: Prompt): Option<string> {
    if p.text.Some? && m.matches(rule, p.text.value) then Some(p.eventId) else None
  }

  function MatchingIds(m: Matcher, rule: Rule, prompts: seq<Prompt>): seq<string> {
    FilterMap((p: Prompt) => MatchingId(m, rule, p), prompts)
  }

  // ---- every match is cited once ----------------------------------------------

  lemma {:induction false} IdsMultiset(a: seq<Body>, b: seq<Body>)
    requires multiset(a) == multiset(b)
    ensures multiset(Ids(a)) == multiset(Ids(b))
  {
    IdsAsFilter(a);
    IdsAsFilter(b);
    Folds.FilterMapMultiset((s: Body) => Some(s.eventId), a, b);
  }

  lemma {:induction false} IdsAsFilter(sources: seq<Body>)
    ensures Ids(sources) == FilterMap((s: Body) => Some(s.eventId), sources)
  {
    if sources != [] {
      IdsAsFilter(sources[..|sources| - 1]);
      assert Ids(sources) == Ids(sources[..|sources| - 1]) + [sources[|sources| - 1].eventId];
    }
  }

  /** What one identity contributes. */
  lemma {:induction false} IdentityCites(m: Matcher, rule: Rule, identity: Identity)
    ensures var f := FindingFor(m, rule, identity);
            (if f.Some? then multiset(Cited(f.value)) else multiset{}) == multiset(Ids(Matched(m, rule, identity.sources)))
  {
    var matched := Matched(m, rule, identity.sources);
    var sorted := SortBy(SourceLess, SourceKeyOf, matched);
    IdsMultiset(sorted, matched);
    FirstAndRest(sorted);
  }

  lemma {:induction false} FirstAndRest(sorted: seq<Body>)
    ensures Ids(sorted) == if sorted == [] then [] else [sorted[0].eventId] + Ids(sorted[1..])
  {}

  /** The matches of one identity's key. */
  function MatchesWithin(m: Matcher, rule: Rule, key: PromptKey, prompts: seq<Prompt>): seq<string> {
    Ids(Matched(m, rule, Sources(key, prompts)))
  }

  lemma {:induction false} MatchesWithinStep(m: Matcher, rule: Rule, key: PromptKey, front: seq<Prompt>, p: Prompt)
    ensures MatchesWithin(m, rule, key, front + [p])
            == MatchesWithin(m, rule, key, front)
               + (if KeyOf(p) == key && MatchingId(m, rule, p).Some? then [p.eventId] else [])
  {
    FilterMapSnoc((q: Prompt) => SourceWithin(key, q), front, p);
    if SourceWithin(key, p).Some? {
      IdsSnoc(m, rule, Sources(key, front), SourceWithin(key, p).value);
    }
  }

  lemma {:induction false} IdsSnoc(m: Matcher, rule: Rule, sources: seq<Body>, s: Body)
    ensures Ids(Matched(m, rule, sources + [s]))
            == Ids(Matched(m, rule, sources)) + if m.matches(rule, s.text) then [s.eventId] else []
  {
    FilterMapSnoc((s: Body) => if m.matches(rule, s.text) then Some(s) else None, sources, s);
  }

  function MatchesOver(m: Matcher, rule: Rule, keys: seq<PromptKey>, prompts: seq<Prompt>): multiset<string> {
    if keys == [] then multiset{}
    else MatchesOver(m, rule, keys[..|keys| - 1], prompts) + multiset(MatchesWithin(m, rule, keys[|keys| - 1], prompts))
  }

  lemma {:induction false} LastOfDistinct(keys: seq<PromptKey>, k: PromptKey)
    requires keys != [] && NoRepeats(keys)
    ensures NoRepeats(keys[..|keys| - 1])
    ensures k in keys <==> k in keys[..|keys| - 1] || k == keys[|keys| - 1]
    ensures k in keys[..|keys| - 1] ==> k != keys[|keys| - 1]
  {}

  /** One more prompt adds its id to the one key it has. */
  lemma {:induction false} MatchesOverStep(m: Matcher, rule: Rule, keys: seq<PromptKey>, front: seq<Prompt>, p: Prompt)
    requires NoRepeats(keys)
    ensures MatchesOver(m, rule, keys, front + [p])
            == MatchesOver(m, rule, keys, front)
               + if KeyOf(p) in keys && MatchingId(m, rule, p).Some? then multiset{p.eventId} else multiset{}
  {
    if keys != [] {
      var fewer, key := keys[..|keys| - 1], keys[|keys| - 1];
      LastOfDistinct(keys, KeyOf(p));
      MatchesOverStep(m, rule, fewer, front, p);
      MatchesWithinStep(m, rule, key, front, p);
    }
  }

  lemma {:induction false} KeysPartitionMatches(m: Matcher, rule: Rule, keys: seq<PromptKey>, prompts: seq<Prompt>)
    requires NoRepeats(keys) && forall p :: p in prompts ==> KeyOf(p) in keys
    ensures MatchesOver(m, rule, keys, prompts) == multiset(MatchingIds(m, rule, prompts))
  {
    if prompts == [] {
      NothingMatches(m, rule, keys);
    } else {
      var front, p := prompts[..|prompts| - 1], prompts[|prompts| - 1];
      assert prompts == front + [p];
      KeysPartitionMatches(m, rule, keys, front);
      MatchesOverStep(m, rule, keys, front, p);
    }
  }

  lemma {:induction false} NothingMatches(m: Matcher, rule: Rule, keys: seq<PromptKey>)
    ensures MatchesOver(m, rule, keys, []) == multiset{}
  {
    if keys != [] {
      NothingMatches(m, rule, keys[..|keys| - 1]);
      assert MatchesWithin(m, rule, keys[|keys| - 1], []) == [];
    }
  }

  lemma {:induction false} FindingsCite(m: Matcher, rule: Rule, keys: seq<PromptKey>, prompts: seq<Prompt>, identities: seq<Identity>)
    requires |identities| == |keys|
    requires forall i :: 0 <= i < |keys| ==> identities[i].sources == Sources(keys[i], prompts)
    ensures AllCited(RuleFindings(m, rule, identities)) == MatchesOver(m, rule, keys, prompts)
  {
    if keys != [] {
      var n := |keys| - 1;
      FindingsCite(m, rule, keys[..n], prompts, identities[..n]);
      OneMoreIdentity(m, rule, identities);
      assert identities[n].sources == Sources(keys[n], prompts);
    }
  }

  lemma {:induction false} OneMoreIdentity(m: Matcher, rule: Rule, identities: seq<Identity>)
    requires identities != []
    ensures var n := |identities| - 1;
            AllCited(RuleFindings(m, rule, identities))
            == AllCited(RuleFindings(m, rule, identities[..n])) + multiset(Ids(Matched(m, rule, identities[n].sources)))
  {
    var n := |identities| - 1;
    IdentityCites(m, rule, identities[n]);
    var findings, f := RuleFindings(m, rule, identities[..n]), FindingFor(m, rule, identities[n]);
    if f.Some? {
      assert RuleFindings(m, rule, identities) == findings + [f.value];
      assert (findings + [f.value])[..|findings|] == findings;
    }
  }

  /** For every rule, the findings together name exactly the available prompts whose text
      matches, each as often as it was retained. */
  lemma {:induction false} EveryMatchIsCitedOnce(m: Matcher, rule: Rule, prompts: seq<Prompt>, identities: seq<Identity>)
    requires Grouped(prompts, identities)
    ensures AllCited(RuleFindings(m, rule, identities)) == multiset(MatchingIds(m, rule, prompts))
  {
    KeysCoverPrompts(prompts);
    FindingsCite(m, rule, Keys(prompts), prompts, identities);
    KeysPartitionMatches(m, rule, Keys(prompts), prompts);
  }

  /** Everything a finding names belongs to one key, and to the finding's session. */
  lemma {:induction false} FindingsDoNotJoinSessions(
      m: Matcher, rule: Rule, prompts: seq<Prompt>, identities: seq<Identity>, i: nat, id: string)
    requires Genuine(prompts) && Grouped(prompts, identities) && i < |identities|
    requires FindingFor(m, rule, identities[i]).Some? && id in Cited(FindingFor(m, rule, identities[i]).value)
    ensures exists k :: 0 <= k < |prompts| && prompts[k].eventId == id
              && KeyOf(prompts[k]) == Keys(prompts)[i]
              && prompts[k].sessionId == FindingFor(m, rule, identities[i]).value.sessionId
  {
    var key, sources := Keys(prompts)[i], identities[i].sources;
    IdentityCites(m, rule, identities[i]);
    var f := FindingFor(m, rule, identities[i]).value;
    assert id in multiset(Cited(f)) <==> id in Cited(f);
    assert id in multiset(Ids(Matched(m, rule, sources)));
    var p := MatchedPrompt(m, rule, key, prompts, id);
    var k :| 0 <= k < |prompts| && prompts[k] == p;
    assert FromSession(key, prompts, identities[i].sessionId);
    var q :| q in prompts && KeyOf(q) == key && identities[i].sessionId == q.sessionId;
    var l :| 0 <= l < |prompts| && prompts[l] == q;
    JoinedPromptsShareSession(prompts, k, l);
  }

  lemma {:induction false} MatchedPrompt(m: Matcher, rule: Rule, key: PromptKey, prompts: seq<Prompt>, id: string)
    returns (p: Prompt)
    requires id in Ids(Matched(m, rule, Sources(key, prompts)))
    ensures p in prompts && KeyOf(p) == key && p.eventId == id
  {
    var matched := Matched(m, rule, Sources(key, prompts));
    var j :| 0 <= j < |matched| && matched[j].eventId == id;
    FilterMapMember((s: Body) => if m.matches(rule, s.text) then Some(s) else None, Sources(key, prompts), matched[j]);
    var within := (q: Prompt) => SourceWithin(key, q);
    FilterMapMember(within, prompts, matched[j]);
    p :| p in prompts && within(p) == Some(matched[j]);
  }

  // ---- the report -------------------------------------------------------------

  datatype Verdict = Violation | NotViolation | Indeterminate
  datatype Visibility = PolicyUnconfigured | Unavailable | Partial | Observed
  datatype Report = Report(findings: seq<Finding>, verdict: Verdict, visibility: Visibility)

  /** compilePromptKeywords: disabled rules and broken patterns are dropped. */
  function Compiled(m: Matcher, rules: seq<Rule>): seq<Rule> {
    FilterMap((r: Rule) => if r.enabled && m.compiles(r) then Some(r) else None, rules)
  }

  function IdentityFindings(m: Matcher, rules: seq<Rule>, identity: Identity): seq<Finding> {
    FilterMap((r: Rule) => FindingFor(m, r, identity), rules)
  }

  function AllFindings(m: Matcher, rules: seq<Rule>, identities: seq<Identity>): seq<Finding> {
    if identities == [] then []
    else
      AllFindings(m, rules, identities[..|identities| - 1])
      + IdentityFindings(m, rules, identities[|identities| - 1])
  }

  function FindingOrder(f: Finding): string { f.sourceId + "\0" + f.ruleId }

  /** What the report says of these prompts. A clean verdict needs every prompt's body; a
      missing one leaves it open. */
  ghost predicate Reports(m: Matcher, prompts: seq<Prompt>, rules: seq<Rule>, report: Report, identities: seq<Identity>) {
    && Grouped(prompts, identities)
    && multiset(report.findings)
       == multiset(if Compiled(m, rules) == [] then [] else AllFindings(m, Compiled(m, rules), identities))
    && SortedBy(StrLess, FindingOrder, report.findings)
    && (report.verdict == Violation <==> report.findings != [])
    && (report.verdict == NotViolation
        <==> Compiled(m, rules) != [] && report.findings == [] && AnyOf(identities, true) && !AnyOf(identities, false))
    && (report.visibility == PolicyUnconfigured <==> Compiled(m, rules) == [])
    && (report.visibility == Partial
        <==> Compiled(m, rules) != [] && report.findings == [] && AnyOf(identities, true) && AnyOf(identities, false))
    && (report.visibility == Unavailable
        <==> Compiled(m, rules) != [] && report.findings == [] && !AnyOf(identities, true))
  }

  method PromptKeywordsFromEvents(m: Matcher, events: seq<Event>, rules: seq<Rule>)
    returns (report: Report, ghost identities: seq<Identity>)
    ensures Reports(m, PromptsOf(events), rules, report, identities)
  {
    var prompts := UserPrompts(events);
    var found := GroupPromptIdentities(prompts);
    identities := found;
    var compiled := Compiled(m, rules);
    if compiled == [] { return Report([], Indeterminate, PolicyUnconfigured), found; }
    var findings, sawAvailable, sawIncomplete := Scan(m, compiled, found);
    StrLessStrictTotal();
    var sorted := SortBy(StrLess, FindingOrder, findings);
    SortBySorted(StrLess, FindingOrder, findings);
    report :=
      if sorted != [] then Report(sorted, Violation, Observed)
      else if sawAvailable && sawIncomplete then Report(sorted, Indeterminate, Partial)
      else if sawAvailable then Report(sorted, NotViolation, Observed)
      else Report(sorted, Indeterminate, Unavailable);
  }

  /** Some identity is available, or is not. */
  ghost predicate AnyOf(identities: seq<Identity>, available: bool) {
    exists i :: 0 <= i < |identities| && identities[i].Available() == available
  }

  lemma {:induction false} AnyStep(identities: seq<Identity>, n: nat, available: bool)
    requires n < |identities|
    ensures AnyOf(identities[..n + 1], available)
            <==> AnyOf(identities[..n], available) || identities[n].Available() == available
  {
    var now, was := identities[..n + 1], identities[..n];
    assert now[n] == identities[n] && forall i :: 0 <= i < n ==> now[i] == was[i];
  }

  method Scan(m: Matcher, compiled: seq<Rule>, identities: seq<Identity>)
    returns (findings: seq<Finding>, sawAvailable: bool, sawIncomplete: bool)
    ensures findings == AllFindings(m, compiled, identities)
    ensures sawAvailable <==> AnyOf(identities, true)
    ensures sawIncomplete <==> AnyOf(identities, false)
  {
    findings, sawAvailable, sawIncomplete := [], false, false;
    for n := 0 to |identities|
      invariant findings == AllFindings(m, compiled, identities[..n])
      invariant sawAvailable <==> AnyOf(identities[..n], true)
      invariant sawIncomplete <==> AnyOf(identities[..n], false)
    {
      AnyStep(identities, n, true);
      AnyStep(identities, n, false);
      AllFindingsStep(m, compiled, identities, n);
      var own, available := ScanOne(m, compiled, identities[n]);
      findings := findings + own;
      sawAvailable, sawIncomplete := sawAvailable || available, sawIncomplete || !available;
    }
    assert identities[..|identities|] == identities;
  }

  method ScanOne(m: Matcher, compiled: seq<Rule>, identity: Identity) returns (findings: seq<Finding>, available: bool)
    ensures findings == IdentityFindings(m, compiled, identity)
    ensures available == identity.Available()
  {
    findings, available := [], identity.Available();
    if available {
      findings := FindAll(m, compiled, identity);
    } else {
      NoBodyNoFindings(m, compiled, identity);
    }
  }

  lemma {:induction false} AllFindingsStep(m: Matcher, rules: seq<Rule>, identities: seq<Identity>, n: nat)
    requires n < |identities|
    ensures AllFindings(m, rules, identities[..n + 1])
            == AllFindings(m, rules, identities[..n]) + IdentityFindings(m, rules, identities[n])
  {
    assert identities[..n + 1][..n] == identities[..n];
  }

  method FindAll(m: Matcher, rules: seq<Rule>, identity: Identity) returns (findings: seq<Finding>)
    ensures findings == IdentityFindings(m, rules, identity)
  {
    findings := [];
    for n := 0 to |rules|
      invariant findings == IdentityFindings(m, rules[..n], identity)
    {
      IdentityFindingsStep(m, rules, n, identity);
      var one := FindMatches(m, rules[n], identity);
      if one.Some? {
        findings := findings + [one.value];
      }
    }
    assert rules[..|rules|] == rules;
  }

  lemma {:induction false} IdentityFindingsStep(m: Matcher, rules: seq<Rule>, n: nat, identity: Identity)
    requires n < |rules|
    ensures IdentityFindings(m, rules[..n + 1], identity)
            == IdentityFindings(m, rules[..n], identity)
               + match FindingFor(m, rules[n], identity) case Some(f) => [f] case None => []
  {
    FilterMapStep((r: Rule) => FindingFor(m, r, identity), rules, n);
  }

  lemma {:induction false} NoBodyNoFindings(m: Matcher, rules: seq<Rule>, identity: Identity)
    requires !identity.Available()
    ensures IdentityFindings(m, rules, identity) == []
  {
    forall r | r in rules ensures FindingFor(m, r, identity) == None {
      assert Matched(m, r, identity.sources) == [];
    }
    FilterMapNone((r: Rule) => FindingFor(m, r, identity), rules);
  }

  // ---- one rule's share of the report -----------------------------------------

  function OfRule(ruleId: string, findings: seq<Finding>): seq<Finding> {
    FilterMap((f: Finding) => if f.ruleId == ruleId then Some(f) else None, findings)
  }

  /** Where rule ids are distinct, a rule's findings in the report are its own. */
  lemma {:induction false} ReportHoldsRuleFindings(m: Matcher, rules: seq<Rule>, k: nat, identities: seq<Identity>)
    requires k < |rules| && forall i, j :: 0 <= i < j < |rules| ==> rules[i].id != rules[j].id
    ensures OfRule(rules[k].id, AllFindings(m, rules, identities)) == RuleFindings(m, rules[k], identities)
  {
    if identities != [] {
      var n := |identities| - 1;
      ReportHoldsRuleFindings(m, rules, k, identities[..n]);
      OfRuleConcat(rules[k].id, AllFindings(m, rules, identities[..n]), IdentityFindings(m, rules, identities[n]));
      OneRuleOfIdentity(m, rules, k, identities[n]);
      RuleFindingsStep(m, rules[k], identities);
    }
  }

  lemma {:induction false} OfRuleConcat(ruleId: string, a: seq<Finding>, b: seq<Finding>)
    ensures OfRule(ruleId, a + b) == OfRule(ruleId, a) + OfRule(ruleId, b)
  {
    FilterMapConcat((x: Finding) => if x.ruleId == ruleId then Some(x) else None, a, b);
  }

  lemma {:induction false} RuleFindingsStep(m: Matcher, rule: Rule, identities: seq<Identity>)
    requires identities != []
    ensures var n := |identities| - 1;
            RuleFindings(m, rule, identities)
            == RuleFindings(m, rule, identities[..n])
               + (if FindingFor(m, rule, identities[n]).Some? then [FindingFor(m, rule, identities[n]).value] else [])
  {
    FilterMapStep((i: Identity) => FindingFor(m, rule, i), identities, |identities| - 1);
    assert identities[..|identities|] == identities;
  }

  lemma {:induction false} OneRuleOfIdentity(m: Matcher, rules: seq<Rule>, k: nat, identity: Identity)
    requires k < |rules| && forall i, j :: 0 <= i < j < |rules| ==> rules[i].id != rules[j].id
    ensures OfRule(rules[k].id, IdentityFindings(m, rules, identity))
            == if FindingFor(m, rules[k], identity).Some? then [FindingFor(m, rules[k], identity).value] else []
  {
    OneRuleOf((r: Rule) => FindingFor(m, r, identity), rules, rules[k]);
  }

  lemma {:induction false} OneRuleOf(f: Rule -> Option<Finding>, rules: seq<Rule>, rule: Rule)
    requires forall i, j :: 0 <= i < j < |rules| ==> rules[i].id != rules[j].id
    requires forall r :: r in rules && r.id == rule.id ==> r == rule
    requires forall r :: r in rules && f(r).Some? ==> f(r).value.ruleId == r.id
    ensures OfRule(rule.id, FilterMap(f, rules)) == if rule in rules && f(rule).Some? then [f(rule).value] else []
  {
    if rules != [] {
      var front, last := rules[..|rules| - 1], rules[|rules| - 1];
      assert forall r :: r in rules <==> r in front || r == last;
      OneRuleOf(f, front, rule);
      OfRuleStep(rule.id, FilterMap(f, front), f(last));
      LastIsNew(rules);
    }
  }

  lemma {:induction false} LastIsNew(rules: seq<Rule>)
    requires rules != [] && forall i, j :: 0 <= i < j < |rules| ==> rules[i].id != rules[j].id
    ensures forall r :: r in rules[..|rules| - 1] ==> r.id != rules[|rules| - 1].id
  {}

  lemma {:induction false} OfRuleStep(ruleId: string, findings: seq<Finding>, own: Option<Finding>)
    ensures OfRule(ruleId, findings + if own.Some? then [own.value] else [])
            == OfRule(ruleId, findings) + if own.Some? && own.value.ruleId == ruleId then [own.value] else []
  {
    if own.Some? {
      assert (findings + [own.value])[..|findings|] == findings;
    } else {
      assert findings + [] == findings;
    }
  }
}

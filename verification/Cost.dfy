/** Price selection and local cost estimates (internal/cost/cost.go). */
module Cost {
  import opened Prelude
  import opened Canonical

  datatype TokenKind = Input | CachedInput | Output | Reasoning

  datatype Price = Price(
    id: string, provider: string, matcher: string, effectiveAt: int, rates: map<TokenKind, nat>)

  datatype Catalog = Catalog(version: string, records: seq<Price>)

  // ---- match ------------------------------------------------------------------

  predicate Wildcard(matcher: string) {
    matcher != "" && matcher[|matcher| - 1] == '*'
  }

  /** match: the score of a price for a model, None when it does not match. */
  function Score(p: Price, provider: string, model: string): Option<nat> {
    if p.provider != provider then None
    else if Wildcard(p.matcher) then
      var prefix := p.matcher[..|p.matcher| - 1];
      if prefix <= model then Some(|prefix|) else None
    else if p.matcher == model then Some(|p.matcher| + 10000)
    else None
  }

  predicate Applies(p: Price, provider: string, model: string, at: int) {
    Score(p, provider, model).Some? && p.effectiveAt <= at
  }

  /** `a` ranks above `b`: a better score, or the same score from later on. */
  predicate Outranks(a: Price, b: Price, provider: string, model: string)
    requires Score(a, provider, model).Some? && Score(b, provider, model).Some?
  {
    var x, y := Score(a, provider, model).value, Score(b, provider, model).value;
    x > y || (x == y && a.effectiveAt > b.effectiveAt)
  }

  /** Record `i` is the first that no applicable record outranks. */
  ghost predicate FirstBest(records: seq<Price>, i: nat, provider: string, model: string, at: int) {
    && i < |records| && Applies(records[i], provider, model, at)
    && (forall j :: 0 <= j < |records| && Applies(records[j], provider, model, at) ==>
          !Outranks(records[j], records[i], provider, model))
    && forall j :: 0 <= j < i && Applies(records[j], provider, model, at) ==>
         Outranks(records[i], records[j], provider, model)
  }

  method SelectPrice(records: seq<Price>, provider: string, model: string, at: int) returns (selected: Option<Price>)
    ensures selected.None? <==> forall j :: 0 <= j < |records| ==> !Applies(records[j], provider, model, at)
    ensures selected.Some? ==>
              exists i :: 0 <= i < |records| && FirstBest(records, i, provider, model, at) && records[i] == selected.value
  {
    selected := None;
    var best: int := -1;
    for n := 0 to |records|
      invariant BestSoFar(records[..n], provider, model, at, selected, best)
    {
      var p := records[n];
      var score := Score(p, provider, model);
      NextPrice(records[..n], p, provider, model, at, selected, best);
      assert records[..n + 1] == records[..n] + [p];
      if score.None? || p.effectiveAt > at { continue; }
      if score.value > best || (score.value == best && selected.Some? && p.effectiveAt > selected.value.effectiveAt) {
        selected, best := Some(p), score.value;
      }
    }
    assert records[..|records|] == records;
  }

  /** What the loop holds after these records: the first best, with its score. */
  ghost predicate BestSoFar(
      records: seq<Price>, provider: string, model: string, at: int, selected: Option<Price>, best: int)
  {
    if selected.None? then best == -1 && forall j :: 0 <= j < |records| ==> !Applies(records[j], provider, model, at)
    else
      && best >= 0 && Score(selected.value, provider, model) == Some(best)
      && exists i :: 0 <= i < |records| && records[i] == selected.value && FirstBest(records, i, provider, model, at)
  }

  lemma {:induction false} NextPrice(
      records: seq<Price>, p: Price, provider: string, model: string, at: int, selected: Option<Price>, best: int)
    requires BestSoFar(records, provider, model, at, selected, best)
    ensures var more := records + [p];
            if !Applies(p, provider, model, at) then BestSoFar(more, provider, model, at, selected, best)
            else
              var score := Score(p, provider, model).value;
              if score > best || (score == best && selected.Some? && p.effectiveAt > selected.value.effectiveAt)
              then BestSoFar(more, provider, model, at, Some(p), score)
              else BestSoFar(more, provider, model, at, selected, best)
  {
    var more, n := records + [p], |records|;
    assert more[n] == p && forall j :: 0 <= j < n ==> more[j] == records[j];
    if selected.Some? {
      var i :| 0 <= i < n && records[i] == selected.value && FirstBest(records, i, provider, model, at);
      if Applies(p, provider, model, at) && Outranks(p, records[i], provider, model) {
        NewBest(records, p, provider, model, at, i);
      } else {
        StillBest(records, p, provider, model, at, i);
      }
    } else if Applies(p, provider, model, at) {
      assert FirstBest(more, n, provider, model, at);
    }
  }

  lemma {:induction false} StillBest(records: seq<Price>, p: Price, provider: string, model: string, at: int, i: nat)
    requires FirstBest(records, i, provider, model, at)
    requires Applies(p, provider, model, at) ==> !Outranks(p, records[i], provider, model)
    ensures FirstBest(records + [p], i, provider, model, at)
  {
    var more := records + [p];
    assert forall j :: 0 <= j < |more| ==> more[j] == if j < |records| then records[j] else p;
  }

  lemma {:induction false} NewBest(records: seq<Price>, p: Price, provider: string, model: string, at: int, i: nat)
    requires FirstBest(records, i, provider, model, at) && Applies(p, provider, model, at)
    requires Outranks(p, records[i], provider, model)
    ensures FirstBest(records + [p], |records|, provider, model, at)
  {
    var more := records + [p];
    assert forall j :: 0 <= j < |more| ==> more[j] == if j < |records| then records[j] else p;
    forall j | 0 <= j < |records| && Applies(records[j], provider, model, at)
      ensures Outranks(p, records[j], provider, model)
    {
      assert !Outranks(records[j], records[i], provider, model);
    }
  }

  /** Only one record can be first and best. */
  lemma {:induction false} FirstBestIsUnique(records: seq<Price>, i: nat, j: nat, provider: string, model: string, at: int)
    requires FirstBest(records, i, provider, model, at) && FirstBest(records, j, provider, model, at)
    ensures i == j
  {}

  /** A record for exactly this model always beats every wildcard, however late. */
  lemma {:induction false} ExactBeatsWildcard(exact: Price, wildcard: Price, provider: string, model: string)
    requires Score(exact, provider, model).Some? && Score(wildcard, provider, model).Some?
    requires !Wildcard(exact.matcher) && Wildcard(wildcard.matcher)
    ensures Outranks(exact, wildcard, provider, model)
  {}

  /** So where an exact record applies, an exact record is selected. */
  lemma {:induction false} ExactIsSelected(
      records: seq<Price>, i: nat, j: nat, provider: string, model: string, at: int)
    requires FirstBest(records, i, provider, model, at)
    requires j < |records| && Applies(records[j], provider, model, at) && !Wildcard(records[j].matcher)
    ensures !Wildcard(records[i].matcher) && records[i].matcher == model
  {
    if Wildcard(records[i].matcher) {
      ExactBeatsWildcard(records[j], records[i], provider, model);
    }
  }

  /** Among wildcards the longest prefix wins. */
  lemma {:induction false} LongestPrefixWins(a: Price, b: Price, provider: string, model: string)
    requires Score(a, provider, model).Some? && Score(b, provider, model).Some?
    requires Wildcard(a.matcher) && Wildcard(b.matcher) && |a.matcher| > |b.matcher|
    ensures Outranks(a, b, provider, model)
    ensures b.matcher[..|b.matcher| - 1] <= a.matcher[..|a.matcher| - 1]
  {}

  // ---- merge ------------------------------------------------------------------

  ghost predicate DistinctIds(records: seq<Price>) {
    forall i, j :: 0 <= i < j < |records| ==> records[i].id != records[j].id
  }

  /** `merged` keeps the base's places, with the override's records under their ids, then
      the override's other records in order. */
  ghost predicate Merges(base: seq<Price>, override: seq<Price>, merged: seq<Price>) {
    && DistinctIds(merged)
    && |merged| >= |base|
    && (forall i :: 0 <= i < |base| ==> merged[i].id == base[i].id)
    && (forall k :: 0 <= k < |override| ==> override[k] in merged)
    && forall i :: 0 <= i < |merged| ==> merged[i] in override || (i < |base| && merged[i] == base[i])
  }

  method IndexById(records: seq<Price>) returns (byId: map<string, int>)
    ensures forall i :: 0 <= i < |records| ==> records[i].id in byId
    ensures forall id :: id in byId ==> 0 <= byId[id] < |records| && records[byId[id]].id == id
  {
    byId := map[];
    for n := 0 to |records|
      invariant forall i :: 0 <= i < n ==> records[i].id in byId
      invariant forall id :: id in byId ==> 0 <= byId[id] < n && records[byId[id]].id == id
    {
      byId := byId[records[n].id := n];
    }
  }

  /** merge: both catalogs have been validated, so ids are distinct in each. */
  method MergeCatalogs(base: Catalog, override: Catalog) returns (merged: Catalog)
    requires DistinctIds(base.records) && DistinctIds(override.records)
    ensures merged.version == override.version
    ensures Merges(base.records, override.records, merged.records)
  {
    var byId := IndexById(base.records);
    var records := base.records;
    for k := 0 to |override.records|
      invariant MergedTo(base.records, override.records, k, records)
    {
      var r := override.records[k];
      if r.id in byId {
        Replaced(base.records, override.records, k, records, byId[r.id]);
        records := records[byId[r.id] := r];
      } else {
        Added(base.records, override.records, k, records);
        records := records + [r];
      }
    }
    assert override.records[..|override.records|] == override.records;
    merged := Catalog(override.version, records);
  }

  /** The first `k` of the override are merged. */
  ghost predicate MergedTo(base: seq<Price>, override: seq<Price>, k: nat, records: seq<Price>) {
    && k <= |override| && |records| >= |base| && DistinctIds(records)
    && (forall i :: 0 <= i < |base| ==> records[i].id == base[i].id)
    && (forall i :: 0 <= i < |records| ==> records[i] in override[..k] || (i < |base| && records[i] == base[i]))
    && forall j :: 0 <= j < k ==> override[j] in records
  }

  lemma {:induction false} Replaced(base: seq<Price>, override: seq<Price>, k: nat, records: seq<Price>, place: int)
    requires k < |override| && DistinctIds(override) && MergedTo(base, override, k, records)
    requires 0 <= place < |base| && base[place].id == override[k].id
    ensures MergedTo(base, override, k + 1, records[place := override[k]])
  {
    var after := records[place := override[k]];
    assert override[..k + 1] == override[..k] + [override[k]];
    assert after[place] == override[k];
    forall j | 0 <= j < k ensures override[j] in after {
      var i :| 0 <= i < |records| && records[i] == override[j];
      assert after[i] == records[i];
    }
  }

  lemma {:induction false} Added(base: seq<Price>, override: seq<Price>, k: nat, records: seq<Price>)
    requires k < |override| && DistinctIds(override) && MergedTo(base, override, k, records)
    requires forall i :: 0 <= i < |base| ==> base[i].id != override[k].id
    ensures MergedTo(base, override, k + 1, records + [override[k]])
  {
    var after := records + [override[k]];
    assert override[..k + 1] == override[..k] + [override[k]];
    NewId(base, override, k, records);
    assert after[|records|] == override[k];
    forall j | 0 <= j < k ensures override[j] in after {
      var i :| 0 <= i < |records| && records[i] == override[j];
      assert after[i] == records[i];
    }
  }

  lemma {:induction false} NewId(base: seq<Price>, override: seq<Price>, k: nat, records: seq<Price>)
    requires k < |override| && DistinctIds(override)
    requires forall i :: 0 <= i < |base| ==> base[i].id != override[k].id
    requires forall i :: 0 <= i < |records| ==> records[i] in override[..k] || (i < |base| && records[i] == base[i])
    ensures forall i :: 0 <= i < |records| ==> records[i].id != override[k].id
  {
    forall i | 0 <= i < |records| ensures records[i].id != override[k].id {
      if records[i] in override[..k] {
        var j :| 0 <= j < k && override[..k][j] == records[i];
        assert override[j] == records[i];
      }
    }
  }

  // ---- Calculate --------------------------------------------------------------

  /** roundedProduct: micro-dollars for tokens at a rate per million, rounded half up. */
  function RoundedProduct(tokens: nat, rate: nat): nat {
    (tokens * rate + 500000) / 1000000
  }

  /** The unrounded price. */
  function ExactProduct(tokens: nat, rate: nat): real {
    (tokens * rate) as real / 1000000.0
  }

  lemma {:induction false} RoundingIsHalfAtMost(tokens: nat, rate: nat)
    ensures -0.5 < RoundedProduct(tokens, rate) as real - ExactProduct(tokens, rate) <= 0.5
  {
    var n := tokens * rate;
    var q, r := (n + 500000) / 1000000, (n + 500000) % 1000000;
    assert n + 500000 == q * 1000000 + r;
    assert q as real == (n + 500000 - r) as real / 1000000.0;
  }

  type Counts = map<TokenKind, nat>

  /** The categories both observed and priced. */
  function Priced(tokens: Counts, rates: Counts): set<TokenKind> {
    tokens.Keys * rates.Keys
  }

  function Term(kind: TokenKind, tokens: Counts, rates: Counts, kinds: set<TokenKind>): nat {
    if kind in kinds && kind in tokens && kind in rates then RoundedProduct(tokens[kind], rates[kind]) else 0
  }

  /** The sum over some of the categories. */
  function Amount(tokens: Counts, rates: Counts, kinds: set<TokenKind>): nat {
    Term(Input, tokens, rates, kinds) + Term(CachedInput, tokens, rates, kinds)
    + Term(Output, tokens, rates, kinds) + Term(Reasoning, tokens, rates, kinds)
  }

  function ExactTerm(kind: TokenKind, tokens: Counts, rates: Counts): real {
    if kind in tokens && kind in rates then ExactProduct(tokens[kind], rates[kind]) else 0.0
  }

  function ExactAmount(tokens: Counts, rates: Counts): real {
    ExactTerm(Input, tokens, rates) + ExactTerm(CachedInput, tokens, rates)
    + ExactTerm(Output, tokens, rates) + ExactTerm(Reasoning, tokens, rates)
  }

  function CountKinds(kinds: set<TokenKind>): nat {
    (if Input in kinds then 1 else 0) + (if CachedInput in kinds then 1 else 0)
    + (if Output in kinds then 1 else 0) + if Reasoning in kinds then 1 else 0
  }

  lemma {:induction false} TermError(kind: TokenKind, tokens: Counts, rates: Counts)
    ensures var error := Term(kind, tokens, rates, tokens.Keys) as real - ExactTerm(kind, tokens, rates);
            if kind in Priced(tokens, rates) then -0.5 <= error <= 0.5 else error == 0.0
  {
    if kind in tokens && kind in rates {
      RoundingIsHalfAtMost(tokens[kind], rates[kind]);
    }
  }

  /** The estimate is off by at most half a micro-dollar for each priced category. */
  lemma {:induction false} EstimateIsClose(tokens: Counts, rates: Counts)
    ensures var error := Amount(tokens, rates, tokens.Keys) as real - ExactAmount(tokens, rates);
            var bound := CountKinds(Priced(tokens, rates)) as real / 2.0;
            -bound <= error <= bound
  {
    TermError(Input, tokens, rates);
    TermError(CachedInput, tokens, rates);
    TermError(Output, tokens, rates);
    TermError(Reasoning, tokens, rates);
  }

  datatype Status = NotApplicable | UnknownModel | UnknownPrice | Partial | Calculated

  datatype Estimate = Estimate(status: Status, amount: Option<nat>, priceId: Option<string>, tokens: Counts)

  /** token: a count held as a whole number or as its text. `sscan` reads an integer. */
  function TokenOf(v: Option<Json>, sscan: string -> Option<int>): Option<nat> {
    match v
    case Some(JInt(n)) => if n >= 0 then Some(n) else None
    case Some(JFloat(r)) => if r >= 0.0 && r == r.Floor as real then Some(r.Floor) else None
    case Some(JStr(s)) => if sscan(s).Some? && sscan(s).value >= 0 then Some(sscan(s).value) else None
    case _ => None
  }

  function KeyOf(kind: TokenKind): Key {
    match kind
    case Input => InputTokenCount
    case CachedInput => CachedInputTokenCount
    case Output => OutputTokenCount
    case Reasoning => Other("reasoning_token_count")
  }

  predicate MetricSample(eventType: string) {
    eventType in {"codex.turn.token_usage", "claude_code.token.usage", "claude_code.cost.usage", "cursor.token.usage"}
  }

  function ObservedTokens(attributes: Object, sscan: string -> Option<int>): Counts {
    map kind: TokenKind | kind in {Input, CachedInput, Output, Reasoning} && TokenOf(HasKey(attributes, KeyOf(kind)), sscan).Some? ::
      TokenOf(HasKey(attributes, KeyOf(kind)), sscan).value
  }

  /** Calculator.Calculate. The categories are summed in any order. */
  method Calculate(catalog: Catalog, event: Event, sscan: string -> Option<int>) returns (r: Estimate)
    ensures var tokens := ObservedTokens(event.attributes, sscan);
            var model := TextAt(event.attributes, Model);
            && (r.status == NotApplicable <==> MetricSample(event.env.eventType) || tokens == map[])
            && (r.status == UnknownModel <==>
                  !MetricSample(event.env.eventType) && tokens != map[] && model in {None, Some("")})
            && (r.amount.Some? <==> r.status in {Partial, Calculated})
            && (r.status == UnknownPrice ==>
                  forall j :: 0 <= j < |catalog.records| ==>
                    !Applies(catalog.records[j], event.env.provider, model.value, event.env.occurredAt))
            && (r.amount.Some? ==>
                  exists i :: 0 <= i < |catalog.records|
                    && FirstBest(catalog.records, i, event.env.provider, model.value, event.env.occurredAt)
                    && r.priceId == Some(catalog.records[i].id)
                    && r.amount == Some(Amount(tokens, catalog.records[i].rates, tokens.Keys))
                    && (r.status == Calculated <==> tokens.Keys <= catalog.records[i].rates.Keys))
  {
    if MetricSample(event.env.eventType) { return Estimate(NotApplicable, None, None, map[]); }
    var tokens: Counts := map[];
    var kinds := {Input, CachedInput, Output, Reasoning};
    while kinds != {}
      invariant kinds <= {Input, CachedInput, Output, Reasoning}
      invariant tokens == map kind | kind in ObservedTokens(event.attributes, sscan) && kind !in kinds ::
                            ObservedTokens(event.attributes, sscan)[kind]
      decreases kinds
    {
      var kind := Pick(kinds);
      kinds := kinds - {kind};
      var value := TokenOf(HasKey(event.attributes, KeyOf(kind)), sscan);
      if value.Some? {
        tokens := tokens[kind := value.value];
      }
    }
    assert tokens == ObservedTokens(event.attributes, sscan);
    if tokens == map[] { return Estimate(NotApplicable, None, None, tokens); }
    var model := TextAt(event.attributes, Model);
    if model.None? || model.value == "" { return Estimate(UnknownModel, None, None, tokens); }
    var price := SelectPrice(catalog.records, event.env.provider, model.value, event.env.occurredAt);
    if price.None? { return Estimate(UnknownPrice, None, None, tokens); }
    var amount, partial := Total(tokens, price.value.rates);
    r := Estimate(if partial then Partial else Calculated, Some(amount), Some(price.value.id), tokens);
  }

  lemma {:induction false} OneMoreKind(tokens: Counts, rates: Counts, kinds: set<TokenKind>, kind: TokenKind)
    requires kind !in kinds
    ensures Amount(tokens, rates, kinds + {kind}) == Amount(tokens, rates, kinds) + Term(kind, tokens, rates, {kind})
  {
    forall k: TokenKind
      ensures Term(k, tokens, rates, kinds + {kind})
              == Term(k, tokens, rates, kinds) + if k == kind then Term(kind, tokens, rates, {kind}) else 0
    {}
  }

  method Total(tokens: Counts, rates: Counts) returns (amount: nat, partial: bool)
    ensures amount == Amount(tokens, rates, tokens.Keys)
    ensures partial <==> !(tokens.Keys <= rates.Keys)
  {
    amount, partial := 0, false;
    var pending := tokens.Keys;
    while pending != {}
      invariant pending <= tokens.Keys
      invariant amount == Amount(tokens, rates, tokens.Keys - pending)
      invariant partial <==> exists kind :: kind in tokens.Keys - pending && kind !in rates
      decreases pending
    {
      var kind := Pick(pending);
      pending := pending - {kind};
      OneMoreKind(tokens, rates, tokens.Keys - pending - {kind}, kind);
      assert tokens.Keys - pending == tokens.Keys - pending - {kind} + {kind};
      if kind !in rates {
        partial := true;
      } else {
        amount := amount + RoundedProduct(tokens[kind], rates[kind]);
      }
    }
    assert tokens.Keys - pending == tokens.Keys;
  }

  /** An observed count: a whole number that is not negative, or a text that scans to one. */
  lemma {:induction false} CountIsWhole(v: Option<Json>, sscan: string -> Option<int>, n: nat)
    ensures TokenOf(v, sscan) == Some(n)
            <==> v == Some(JInt(n)) || v == Some(JFloat(n as real))
                 || (v.Some? && v.value.JStr? && sscan(v.value.s) == Some(n))
  {}

  /** Which attribute is which token count. */
  lemma {:induction false} TokensAreNamed(attributes: Object, sscan: string -> Option<int>)
    ensures var tokens := ObservedTokens(attributes, sscan);
            && HasKey(tokens, Input) == TokenOf(HasKey(attributes, InputTokenCount), sscan)
            && HasKey(tokens, CachedInput) == TokenOf(HasKey(attributes, CachedInputTokenCount), sscan)
            && HasKey(tokens, Output) == TokenOf(HasKey(attributes, OutputTokenCount), sscan)
            && HasKey(tokens, Reasoning) == TokenOf(HasKey(attributes, Other("reasoning_token_count")), sscan)
  {}

  /** A price applies to its provider's models from its effective time on: to the model it
      names, or, ending in a star, to every model that begins with what is before it. */
  lemma {:induction false} AppliesIsStated(p: Price, provider: string, model: string, at: int)
    ensures Applies(p, provider, model, at)
            <==> p.provider == provider && p.effectiveAt <= at
                 && (p.matcher == model
                     || (p.matcher != "" && p.matcher[|p.matcher| - 1] == '*' && p.matcher[..|p.matcher| - 1] <= model))
  {}

  /** Which of two applicable prices ranks above: the named model over any star, the longer
      of two stars, and the later of two alike. */
  lemma {:induction false} RankIsStated(a: Price, b: Price, provider: string, model: string)
    requires Score(a, provider, model).Some? && Score(b, provider, model).Some?
    ensures Outranks(a, b, provider, model)
            <==> || (!Wildcard(a.matcher) && Wildcard(b.matcher))
                 || (Wildcard(a.matcher) && Wildcard(b.matcher) && |a.matcher| > |b.matcher|)
                 || (a.matcher == b.matcher && a.effectiveAt > b.effectiveAt)
  {
    if Wildcard(a.matcher) && Wildcard(b.matcher) && |a.matcher| == |b.matcher| {
      var n := |a.matcher| - 1;
      assert a.matcher == model[..n] + "*" && b.matcher == model[..n] + "*";
    }
  }

  /** The samples of the four token metrics are never priced. */
  lemma {:induction false} MetricsAreNotPriced(eventType: string)
    ensures MetricSample(eventType)
            <==> || eventType == "codex.turn.token_usage" || eventType == "claude_code.token.usage"
                 || eventType == "claude_code.cost.usage" || eventType == "cursor.token.usage"
  {}
}

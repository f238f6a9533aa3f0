/** The scalar typed homes of a transcript record, and the predicates that decide what
    they store (internal/normalize/claude/jsonl_residual.go and jsonl.go). */
module TypedHomes {
  import opened Prelude
  import opened Residual

  /** One kind per stored predicate. */
  datatype Kind = NonEmpty | Trimmed | NonBlank | Body | Timestamp | Integer | Flag

  /** What a home holds. */
  datatype Stored = Text(s: string) | Moment(at: int) | Count(n: int) | Bool(b: bool) | Value(v: Raw)

  /** time.Parse and Format with RFC 3339 layouts, uninterpreted; what Format writes has
      no space around it. */
  datatype Clock = Clock(parse: string -> Option<int>, format: int -> string) {
    ghost predicate Valid() {
      forall t :: TrimSpace(format(t)) == format(t)
    }
  }

  // ---- decimal integers -------------------------------------------------------

  predicate IsDigit(c: char) { '0' <= c <= '9' }

  function Digit(n: nat): char
    requires n < 10
  {
    "0123456789"[n]
  }

  /** strconv.FormatInt for a count. */
  function FormatInt(n: nat): string {
    if n < 10 then [Digit(n)] else FormatInt(n / 10) + [Digit(n % 10)]
  }

  function DigitsValue(text: string): nat
    requires forall c :: c in text ==> IsDigit(c)
  {
    if text == "" then 0
    else
      var last := |text| - 1;
      assert IsDigit(text[last]);
      DigitsValue(text[..last]) * 10 + (text[last] as int - '0' as int)
  }

  const MAX_INT64 := 0x7fff_ffff_ffff_ffff

  predicate Digits(text: string) {
    text != "" && forall c :: c in text ==> IsDigit(c)
  }

  /** strconv.ParseInt on a number literal, kept when it is not negative: "-0" is zero. */
  function ParseCount(text: string): Option<nat> {
    if Digits(text) then if DigitsValue(text) <= MAX_INT64 then Some(DigitsValue(text)) else None
    else if text != "" && text[0] == '-' && Digits(text[1..]) && DigitsValue(text[1..]) == 0 then Some(0)
    else None
  }

  lemma {:induction false} FormatIntDigits(n: nat)
    ensures FormatInt(n) != ""
    ensures forall c :: c in FormatInt(n) ==> IsDigit(c)
    ensures DigitsValue(FormatInt(n)) == n
  {
    if n < 10 {
      assert FormatInt(n)[..0] == "";
    } else {
      FormatIntDigits(n / 10);
      var text := FormatInt(n);
      assert text[..|text| - 1] == FormatInt(n / 10);
      assert text[|text| - 1] == Digit(n % 10);
    }
  }

  /** Every int64 count survives being written and read. */
  lemma {:induction false} CountRoundTrip(n: nat)
    requires n <= MAX_INT64
    ensures ParseCount(FormatInt(n)) == Some(n)
  {
    FormatIntDigits(n);
  }

  lemma {:induction false} FormatIntStep(q: nat, d: nat)
    requires d < 10
    ensures FormatInt(q * 10 + d) == if q == 0 then [Digit(d)] else FormatInt(q) + [Digit(d)]
  {
    assert (q * 10 + d) / 10 == q && (q * 10 + d) % 10 == d;
  }

  /** Digits read back as they were written exactly when there is no leading zero. */
  lemma {:induction false} CanonicalCounts(text: string)
    requires Digits(text)
    ensures FormatInt(DigitsValue(text)) == text <==> text == "0" || text[0] != '0'
  {
    if |text| > 1 {
      CanonicalCounts(text[..|text| - 1]);
      WrittenLonger(text);
    } else {
      var d := LastDigit(text);
      FormatIntStep(0, d);
    }
  }

  lemma {:induction false} WrittenLonger(text: string)
    requires Digits(text) && |text| > 1
    requires var front := text[..|text| - 1];
             FormatInt(DigitsValue(front)) == front <==> front == "0" || front[0] != '0'
    ensures FormatInt(DigitsValue(text)) == text <==> text[0] != '0'
  {
    var front := text[..|text| - 1];
    var d := LastDigit(text);
    WrittenStep(text);
    ZeroDigit();
    LeadingZero(front, Digit(d), DigitsValue(front) == 0, FormatInt(DigitsValue(front)), FormatInt(DigitsValue(text)));
  }

  lemma {:induction false} WrittenStep(text: string)
    requires Digits(text)
    ensures var v, c := DigitsValue(text[..|text| - 1]), text[|text| - 1];
            FormatInt(DigitsValue(text)) == if v == 0 then [c] else FormatInt(v) + [c]
  {
    var d := LastDigit(text);
    FormatIntStep(DigitsValue(text[..|text| - 1]), d);
  }

  lemma {:induction false} ZeroDigit()
    ensures FormatInt(0) == "0" && DigitsValue("0") == 0
  {}

  /** One more digit keeps a count as written, unless all before it is a zero. */
  lemma {:induction false} LeadingZero(front: string, c: char, isZero: bool, writtenFront: string, written: string)
    requires front != "" && written == if isZero then [c] else writtenFront + [c]
    requires writtenFront == front <==> front == "0" || front[0] != '0'
    requires (isZero ==> writtenFront == "0") && (front == "0" ==> isZero)
    ensures written == front + [c] <==> front[0] != '0'
  {
    OneMoreDigit(writtenFront, front, c);
  }

  lemma {:induction false} LastDigit(text: string) returns (d: nat)
    requires Digits(text)
    ensures d < 10 && Digit(d) == text[|text| - 1] && text == text[..|text| - 1] + [Digit(d)]
    ensures DigitsValue(text) == DigitsValue(text[..|text| - 1]) * 10 + d
    ensures |text| > 1 ==> Digits(text[..|text| - 1]) && text[..|text| - 1][0] == text[0]
    ensures |text| == 1 ==> DigitsValue(text[..0]) == 0
  {
    assert IsDigit(text[|text| - 1]);
    d := text[|text| - 1] as int - '0' as int;
  }

  lemma {:induction false} OneMoreDigit(a: string, b: string, c: char)
    ensures a + [c] == b + [c] <==> a == b
  {
    if a + [c] == b + [c] {
      assert a == (a + [c])[..|a|] && b == (b + [c])[..|b|];
    }
  }

  // ---- the stored predicates --------------------------------------------------

  predicate StoredNonEmpty(v: Raw) { v.JStr? && v.s != "" }
  predicate StoredTrimmed(v: Raw) { v.JStr? && v.s != "" && TrimSpace(v.s) == v.s }
  predicate StoredNonBlank(v: Raw) { v.JStr? && !Blank(v.s) }
  predicate StoredBody(v: Raw) { !v.JNull? }
  predicate StoredBool(v: Raw) { v.JBool? }

  predicate StoredTimestamp(clock: Clock, v: Raw) {
    v.JStr? && clock.parse(v.s).Some? && clock.format(clock.parse(v.s).value) == v.s
  }

  predicate StoredInteger(v: Raw) {
    v.JNum? && ParseCount(v.text).Some? && FormatInt(ParseCount(v.text).value) == v.text
  }

  predicate StoredBy(clock: Clock, kind: Kind, v: Raw) {
    match kind
    case NonEmpty => StoredNonEmpty(v)
    case Trimmed => StoredTrimmed(v)
    case NonBlank => StoredNonBlank(v)
    case Body => StoredBody(v)
    case Timestamp => StoredTimestamp(clock, v)
    case Integer => StoredInteger(v)
    case Flag => StoredBool(v)
  }

  // ---- the homes --------------------------------------------------------------

  /** What the home of each kind keeps of a value: strings verbatim or trimmed, moments in
      UTC, counts also when quoted, bodies whole. */
  function Home(clock: Clock, kind: Kind, v: Raw): Option<Stored> {
    match kind
    case NonEmpty => if v.JStr? && v.s != "" then Some(Text(v.s)) else None
    case Trimmed => if v.JStr? && TrimSpace(v.s) != "" then Some(Text(TrimSpace(v.s))) else None
    case NonBlank => if v.JStr? && TrimSpace(v.s) != "" then Some(Text(v.s)) else None
    case Body => if v.JNull? then None else Some(Value(v))
    case Timestamp =>
      if v.JStr? && clock.parse(TrimSpace(v.s)).Some? then Some(Moment(clock.parse(TrimSpace(v.s)).value)) else None
    case Integer =>
      var count := if v.JNum? then ParseCount(v.text) else if v.JStr? then ParseCount(v.s) else None;
      if count.Some? then Some(Count(count.value)) else None
    case Flag => if v.JBool? then Some(Bool(v.b)) else None
  }

  /** The value a stored home stands for. */
  function Restore(clock: Clock, stored: Stored): Raw {
    match stored
    case Text(s) => JStr(s)
    case Moment(at) => JStr(clock.format(at))
    case Count(n) => if n >= 0 then JNum(FormatInt(n)) else JNull
    case Bool(b) => JBool(b)
    case Value(v) => v
  }

  /** A field counts as typed exactly when its home stores the exact value. */
  lemma {:induction false} StoredExactly(clock: Clock, kind: Kind, v: Raw)
    requires clock.Valid()
    ensures StoredBy(clock, kind, v)
            <==> Home(clock, kind, v).Some? && Restore(clock, Home(clock, kind, v).value) == v
  {
    if v.JStr? {
      BlankTrimsToNothing(v.s);
      if kind == Timestamp && clock.parse(TrimSpace(v.s)).Some? {
        var at := clock.parse(TrimSpace(v.s)).value;
        assert TrimSpace(clock.format(at)) == clock.format(at);
      }
      if kind == Timestamp && StoredTimestamp(clock, v) {
        var at := clock.parse(v.s).value;
        assert TrimSpace(clock.format(at)) == clock.format(at);
      }
    }
  }

  /** Two typed values with the same home are the same value. */
  lemma {:induction false} HomeDeterminesValue(clock: Clock, kind: Kind, v: Raw, w: Raw)
    requires clock.Valid()
    requires StoredBy(clock, kind, v) && StoredBy(clock, kind, w)
    requires Home(clock, kind, v) == Home(clock, kind, w)
    ensures v == w
  {
    StoredExactly(clock, kind, v);
    StoredExactly(clock, kind, w);
  }

  /** A quoted count has a home that would lose its quotes, so it is left in the residual. */
  lemma {:induction false} QuotedCountStaysRaw(clock: Clock, n: nat)
    requires n <= MAX_INT64
    ensures Home(clock, Integer, JStr(FormatInt(n))) == Home(clock, Integer, JNum(FormatInt(n))) == Some(Count(n))
    ensures !StoredInteger(JStr(FormatInt(n))) && StoredInteger(JNum(FormatInt(n)))
  {
    CountRoundTrip(n);
  }

  // ---- the rule tables --------------------------------------------------------

  function Typed(clock: Clock, kind: Kind): Rule {
    Scalar(v => StoredBy(clock, kind, v))
  }

  function UsageRules(clock: Clock): Rule {
    var count := Typed(clock, Integer);
    Object(map[
      "input_tokens" := count, "output_tokens" := count,
      "cache_read_input_tokens" := count, "cache_creation_input_tokens" := count,
      "output_tokens_details" := Object(map["thinking_tokens" := count]),
      "cache_creation" := Object(map["ephemeral_1h_input_tokens" := count, "ephemeral_5m_input_tokens" := count])])
  }

  function EnvelopeRules(clock: Clock): map<string, Rule> {
    var nonEmpty, trimmed := Typed(clock, NonEmpty), Typed(clock, Trimmed);
    map[
      "type" := nonEmpty, "uuid" := trimmed, "parentUuid" := trimmed, "promptId" := trimmed,
      "sessionId" := trimmed, "timestamp" := Typed(clock, Timestamp), "version" := Typed(clock, NonBlank),
      "cwd" := nonEmpty, "gitBranch" := nonEmpty, "entrypoint" := nonEmpty, "userType" := nonEmpty,
      "requestId" := nonEmpty, "effort" := nonEmpty, "permissionMode" := nonEmpty, "promptSource" := nonEmpty,
      "turnOrigin" := nonEmpty, "apiBlockIndex" := Typed(clock, Integer), "isSidechain" := Typed(clock, Flag),
      "toolUseResult" := Typed(clock, Body)]
  }

  function ToolResultBlock(clock: Clock): map<string, Rule> {
    map["tool_use_id" := Typed(clock, NonBlank), "content" := Typed(clock, Body), "is_error" := Typed(clock, Flag)]
  }

  function AssistantBlocks(clock: Clock): map<string, map<string, Rule>> {
    map[
      "text" := map["text" := Typed(clock, NonBlank)],
      "thinking" := map["thinking" := Typed(clock, NonBlank)],
      "tool_use" := map["id" := Typed(clock, NonBlank), "name" := Typed(clock, NonEmpty), "input" := Typed(clock, Body)]]
  }

  function UserBlocks(clock: Clock): map<string, map<string, Rule>> {
    map["text" := map["text" := Typed(clock, NonBlank)], "tool_result" := ToolResultBlock(clock)]
  }

  function ResultBlocks(clock: Clock): map<string, map<string, Rule>> {
    map["tool_result" := ToolResultBlock(clock)]
  }

  /** The rules every message shares: its id and why it stopped. */
  function MessageRules(clock: Clock, message: map<string, Rule>): map<string, Rule> {
    message["id" := Typed(clock, NonEmpty)]["stop_reason" := Typed(clock, NonEmpty)]
  }

  function AssistantMessage(clock: Clock): map<string, Rule> {
    MessageRules(clock, map[
      "content" := Content(false, AssistantBlocks(clock)), "model" := Typed(clock, Trimmed), "usage" := UsageRules(clock)])
  }

  function UserMessage(clock: Clock): map<string, Rule> {
    MessageRules(clock, map["content" := Content(true, UserBlocks(clock))])
  }

  function ResultMessage(clock: Clock): map<string, Rule> {
    map["content" := Content(false, ResultBlocks(clock))]
  }

  function AssistantRules(clock: Clock): Rule {
    Object(EnvelopeRules(clock)["message" := Object(AssistantMessage(clock))])
  }

  function UserRules(clock: Clock): Rule {
    Object(EnvelopeRules(clock)["message" := Object(UserMessage(clock))])
  }

  function ResultRecordRules(clock: Clock): Rule {
    Object(map["toolUseResult" := Typed(clock, Body), "message" := Object(ResultMessage(clock))])
  }

  /** Every record the transcript carries can be put back together, whatever its fields. */
  lemma {:induction false} RecordsComeBack(clock: Clock, record: Raw)
    ensures Merge(Reduce(AssistantRules(clock), record), Kept(AssistantRules(clock), record)) == record
    ensures Merge(Reduce(UserRules(clock), record), Kept(UserRules(clock), record)) == record
    ensures Merge(Reduce(ResultRecordRules(clock), record), Kept(ResultRecordRules(clock), record)) == record
  {
    NothingIsLost(AssistantRules(clock), record);
    NothingIsLost(UserRules(clock), record);
    NothingIsLost(ResultRecordRules(clock), record);
  }

  /** A literal is a count if it is digits of no more than an int64, or a negative zero. */
  lemma {:induction false} CountIsParsed(text: string, n: nat)
    ensures ParseCount(text) == Some(n)
            <==> || (Digits(text) && DigitsValue(text) == n && n <= MAX_INT64)
                 || (n == 0 && text != "" && text[0] == '-' && Digits(text[1..]) && DigitsValue(text[1..]) == 0)
  {
    if text != "" && text[0] == '-' {
      assert text[0] in text && !IsDigit(text[0]);
    }
  }
}

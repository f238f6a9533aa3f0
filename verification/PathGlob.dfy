/** The path glob matcher and the rule decision (internal/governance/path_rules.go). */
module PathGlob {

  // ---- the pattern language ---------------------------------------------------

  /** `?`, `*`, `**`, a `**` with the slash after it, and any other character. */
  datatype Token = One | Run | Any | Directories | Literal(c: char)

  function Tokens(pattern: string): seq<Token> {
    if pattern == "" then []
    else if pattern[0] == '?' then [One] + Tokens(pattern[1..])
    else if pattern[0] != '*' then [Literal(pattern[0])] + Tokens(pattern[1..])
    else if |pattern| < 2 || pattern[1] != '*' then [Run] + Tokens(pattern[1..])
    else if |pattern| < 3 || pattern[2] != '/' then [Any] + Tokens(pattern[2..])
    else [Directories] + Tokens(pattern[3..])
  }

  /** The text one token stands for. */
  ghost predicate Stands(t: Token, s: string) {
    match t
    case Literal(c) => s == [c]
    case One => |s| == 1 && s[0] != '/'
    case Run => '/' !in s
    case Any => true
    case Directories => s == "" || s[|s| - 1] == '/'
  }

  /** `s` splits into one piece per token, each piece standing for its token. */
  ghost predicate Spells(tokens: seq<Token>, s: string) {
    if tokens == [] then s == ""
    else exists k :: 0 <= k <= |s| && Stands(tokens[0], s[..k]) && Spells(tokens[1..], s[k..])
  }

  /** Where the first token's piece ends. */
  lemma {:induction false} FirstPiece(t: Token, rest: seq<Token>, s: string) returns (k: nat)
    requires Spells([t] + rest, s)
    ensures k <= |s| && Stands(t, s[..k]) && Spells(rest, s[k..])
  {
    assert ([t] + rest)[1..] == rest;
    k :| 0 <= k <= |s| && Stands(([t] + rest)[0], s[..k]) && Spells(([t] + rest)[1..], s[k..]);
  }

  /** A `**` without a slash stands for any text. */
  lemma {:induction false} AnyUnfold(rest: seq<Token>, s: string)
    ensures Spells([Any] + rest, s) <==> exists k :: 0 <= k <= |s| && Spells(rest, s[k..])
  {
    if Spells([Any] + rest, s) {
      var k := FirstPiece(Any, rest, s);
    }
    if k :| 0 <= k <= |s| && Spells(rest, s[k..]) {
      assert ([Any] + rest)[1..] == rest && Stands(Any, s[..k]);
    }
  }

  /** A `**` with its slash stands for nothing, or for any text and the slash. */
  lemma {:induction false} DirectoriesUnfold(rest: seq<Token>, s: string)
    ensures Spells([Directories] + rest, s)
            <==> Spells(rest, s) || exists k :: 0 <= k <= |s| && Spells([Literal('/')] + rest, s[k..])
  {
    var slash := [Literal('/')] + rest;
    assert ([Directories] + rest)[1..] == slash[1..] == rest;
    assert s[0..] == s;
    if Spells([Directories] + rest, s) {
      var k := FirstPiece(Directories, rest, s);
      if k > 0 {
        assert s[k - 1..][..1] == [s[k - 1]] == "/" && s[k - 1..][1..] == s[k..];
        assert Spells(slash, s[k - 1..]);
      }
    }
    if k :| 0 <= k <= |s| && Spells(slash, s[k..]) {
      SlashEndsDirectories(rest, s, k);
    }
  }

  lemma {:induction false} SlashEndsDirectories(rest: seq<Token>, s: string, k: nat)
    requires k <= |s| && Spells([Literal('/')] + rest, s[k..])
    ensures Spells([Directories] + rest, s)
  {
    var j := FirstPiece(Literal('/'), rest, s[k..]);
    assert ([Directories] + rest)[1..] == rest;
    assert s[k..][j..] == s[k + 1..] && s[..k + 1][k] == s[k..][..j][0];
    assert Stands(Directories, s[..k + 1]);
  }

  // ---- the matcher ------------------------------------------------------------

  /** pathMatcher: the pattern and the value, as runes. */
  datatype Matcher = Matcher(pattern: string, value: string) {

    ghost predicate Accepts(pi: nat, vi: nat)
      requires pi <= |pattern| && vi <= |value|
    {
      Spells(Tokens(pattern[pi..]), value[vi..])
    }

    method Match(pi: nat, vi: nat) returns (r: bool)
      requires pi <= |pattern| && vi <= |value|
      ensures r <==> Accepts(pi, vi)
      decreases |pattern| - pi, 1
    {
      if pi == |pattern| { return vi == |value|; }
      match pattern[pi]
      case '*' => r := MatchStar(pi, vi);
      case '?' => r := MatchQuestion(pi, vi);
      case _ => r := MatchLiteral(pi, vi);
    }

    method MatchStar(pi: nat, vi: nat) returns (r: bool)
      requires pi < |pattern| && pattern[pi] == '*' && vi <= |value|
      ensures r <==> Accepts(pi, vi)
      decreases |pattern| - pi, 0
    {
      var crossSegment := pi + 1 < |pattern| && pattern[pi + 1] == '*';
      var next := pi + 1;
      if crossSegment {
        next := next + 1;
        if next < |pattern| && pattern[next] == '/' {
          CrossGroup(pi, vi, pi + 2);
          var empty := Match(next + 1, vi);
          if empty { return true; }
        } else {
          CrossRun(pi, vi, pi + 2);
        }
      } else {
        StayRun(pi, vi, pi + 1);
      }
      for end := vi to |value| + 1
        invariant !crossSegment ==> NoSlash(vi, if end == vi then vi else end - 1)
        invariant forall e :: vi <= e < end ==> !Accepts(next, e)
      {
        if !crossSegment && end > vi && value[end - 1] == '/' {
          assert forall e :: end <= e <= |value| ==> !NoSlash(vi, e);
          return false;
        }
        var found := Match(next, end);
        if found { return true; }
      }
      return false;
    }

    method MatchQuestion(pi: nat, vi: nat) returns (r: bool)
      requires pi < |pattern| && pattern[pi] == '?' && vi <= |value|
      ensures r <==> Accepts(pi, vi)
      decreases |pattern| - pi, 0
    {
      OneCharacter(pi, vi, One);
      if vi < |value| && value[vi] != '/' {
        r := Match(pi + 1, vi + 1);
      } else {
        r := false;
      }
    }

    method MatchLiteral(pi: nat, vi: nat) returns (r: bool)
      requires pi < |pattern| && pattern[pi] != '*' && pattern[pi] != '?' && vi <= |value|
      ensures r <==> Accepts(pi, vi)
      decreases |pattern| - pi, 0
    {
      OneCharacter(pi, vi, Literal(pattern[pi]));
      if vi < |value| && pattern[pi] == value[vi] {
        r := Match(pi + 1, vi + 1);
      } else {
        r := false;
      }
    }

    ghost predicate NoSlash(from: nat, to: nat)
      requires from <= to <= |value|
    {
      forall i :: from <= i < to ==> value[i] != '/'
    }

    lemma {:induction false} OneCharacter(pi: nat, vi: nat, t: Token)
      requires pi < |pattern| && vi <= |value|
      requires Tokens(pattern[pi..]) == [t] + Tokens(pattern[pi..][1..])
      requires t == One || t.Literal?
      ensures Accepts(pi, vi) <==> vi < |value| && Stands(t, [value[vi]]) && Accepts(pi + 1, vi + 1)
    {
      assert pattern[pi..][1..] == pattern[pi + 1..];
      var tokens, s := Tokens(pattern[pi..]), value[vi..];
      assert tokens[1..] == Tokens(pattern[pi + 1..]);
      if vi < |value| {
        assert s[..1] == [value[vi]] && s[1..] == value[vi + 1..];
      }
    }

    /** A `*` inside a segment. */
    lemma {:induction false} StayRun(pi: nat, vi: nat, next: nat)
      requires next == pi + 1
      requires pi < |pattern| && pattern[pi] == '*' && vi <= |value|
      requires pi + 1 == |pattern| || pattern[pi + 1] != '*'
      ensures Accepts(pi, vi) <==> exists end :: vi <= end <= |value| && NoSlash(vi, end) && Accepts(next, end)
    {
      if Accepts(pi, vi) {
        var end := StayRunSplits(pi, vi, next);
      }
      if end :| vi <= end <= |value| && NoSlash(vi, end) && Accepts(next, end) {
        StayRunJoins(pi, vi, next, end);
      }
    }

    lemma {:induction false} StarToken(pi: nat)
      requires pi < |pattern| && pattern[pi] == '*' && (pi + 1 == |pattern| || pattern[pi + 1] != '*')
      ensures Tokens(pattern[pi..]) == [Run] + Tokens(pattern[pi + 1..])
    {
      assert pattern[pi..][1..] == pattern[pi + 1..];
    }

    lemma {:induction false} StayRunSplits(pi: nat, vi: nat, next: nat) returns (end: nat)
      requires next == pi + 1 <= |pattern| && pattern[pi] == '*' && (next == |pattern| || pattern[next] != '*')
      requires vi <= |value| && Accepts(pi, vi)
      ensures vi <= end <= |value| && NoSlash(vi, end) && Accepts(next, end)
    {
      StarToken(pi);
      var k := FirstPiece(Run, Tokens(pattern[next..]), value[vi..]);
      end := vi + k;
      assert value[vi..][k..] == value[end..];
      RunHasNoSlash(vi, k);
    }

    lemma {:induction false} RunHasNoSlash(vi: nat, k: nat)
      requires vi + k <= |value|
      ensures Stands(Run, value[vi..][..k]) <==> NoSlash(vi, vi + k)
    {
      assert forall i :: vi <= i < vi + k ==> value[i] == value[vi..][..k][i - vi];
    }

    lemma {:induction false} StayRunJoins(pi: nat, vi: nat, next: nat, end: nat)
      requires next == pi + 1 <= |pattern| && pattern[pi] == '*' && (next == |pattern| || pattern[next] != '*')
      requires vi <= end <= |value| && NoSlash(vi, end) && Accepts(next, end)
      ensures Accepts(pi, vi)
    {
      StarToken(pi);
      var rest, s := Tokens(pattern[next..]), value[vi..];
      assert ([Run] + rest)[1..] == rest;
      assert s[end - vi..] == value[end..];
      RunHasNoSlash(vi, end - vi);
    }

    /** A `**` that no slash follows. */
    lemma {:induction false} CrossRun(pi: nat, vi: nat, next: nat)
      requires next == pi + 2
      requires pi + 1 < |pattern| && pattern[pi] == pattern[pi + 1] == '*' && vi <= |value|
      requires pi + 2 == |pattern| || pattern[pi + 2] != '/'
      ensures Accepts(pi, vi) <==> exists end :: vi <= end <= |value| && Accepts(next, end)
    {
      assert pattern[pi..][2..] == pattern[next..];
      var rest, s := Tokens(pattern[next..]), value[vi..];
      assert Tokens(pattern[pi..]) == [Any] + rest;
      AnyUnfold(rest, s);
      if k :| 0 <= k <= |s| && Spells(rest, s[k..]) {
        assert s[k..] == value[vi + k..];
        assert Accepts(next, vi + k);
      }
      if end :| vi <= end <= |value| && Accepts(next, end) {
        assert s[end - vi..] == value[end..];
      }
    }

    /** A `**` with the slash after it. */
    lemma {:induction false} CrossGroup(pi: nat, vi: nat, next: nat)
      requires next == pi + 2
      requires pi + 2 < |pattern| && pattern[pi] == pattern[pi + 1] == '*' && pattern[pi + 2] == '/' && vi <= |value|
      ensures Accepts(pi, vi)
              <==> Accepts(pi + 3, vi) || exists end :: vi <= end <= |value| && Accepts(next, end)
    {
      assert pattern[pi..][3..] == pattern[pi + 3..] && pattern[pi + 2..][1..] == pattern[pi + 3..];
      var rest, s := Tokens(pattern[pi + 3..]), value[vi..];
      assert Tokens(pattern[pi..]) == [Directories] + rest;
      assert Tokens(pattern[pi + 2..]) == [Literal('/')] + rest;
      DirectoriesUnfold(rest, s);
      if k :| 0 <= k <= |s| && Spells([Literal('/')] + rest, s[k..]) {
        assert s[k..] == value[vi + k..];
        assert Accepts(next, vi + k);
      }
      if end :| vi <= end <= |value| && Accepts(next, end) {
        assert s[end - vi..] == value[end..];
      }
    }
  }

  /** pathGlobMatch: exactly the declared language. */
  method PathGlobMatch(pattern: string, value: string) returns (r: bool)
    ensures r <==> Spells(Tokens(pattern), value)
  {
    var matcher := Matcher(pattern, value);
    assert pattern[0..] == pattern && value[0..] == value;
    r := matcher.Match(0, 0);
  }

  // ---- what the language promises ---------------------------------------------

  function Slashes(s: string): nat {
    if s == "" then 0 else (if s[0] == '/' then 1 else 0) + Slashes(s[1..])
  }

  lemma {:induction false} SlashesSplit(s: string, k: nat)
    requires k <= |s|
    ensures Slashes(s) == Slashes(s[..k]) + Slashes(s[k..])
  {
    if k > 0 {
      SlashesSplit(s[1..], k - 1);
      assert s[..k][1..] == s[1..][..k - 1] && s[1..][k - 1..] == s[k..];
    } else {
      assert s[..0] == "" && s[0..] == s;
    }
  }

  lemma {:induction false} NoSlashes(s: string)
    requires '/' !in s
    ensures Slashes(s) == 0
  {
    if s != "" {
      NoSlashes(s[1..]);
    }
  }

  ghost predicate NoDoubleStar(pattern: string) {
    forall i :: 0 <= i < |pattern| - 1 ==> !(pattern[i] == pattern[i + 1] == '*')
  }

  /** A pattern without `**` keeps the depth of the path. */
  lemma {:induction false} DepthIsKept(pattern: string, value: string)
    requires NoDoubleStar(pattern) && Spells(Tokens(pattern), value)
    ensures Slashes(value) == Slashes(pattern)
  {
    if pattern != "" {
      var k := FirstStands(pattern, value);
      DepthIsKept(pattern[1..], value[k..]);
      SlashesSplit(value, k);
    }
  }

  /** The first token stands for as many slashes as its character. */
  lemma {:induction false} FirstStands(pattern: string, value: string) returns (k: nat)
    requires pattern != "" && NoDoubleStar(pattern) && Spells(Tokens(pattern), value)
    ensures k <= |value| && Spells(Tokens(pattern[1..]), value[k..]) && NoDoubleStar(pattern[1..])
    ensures Slashes(value[..k]) == if pattern[0] == '/' then 1 else 0
  {
    var tokens := Tokens(pattern);
    var t: Token :| tokens == [t] + Tokens(pattern[1..]) && t in {One, Run, Literal(pattern[0])};
    assert tokens[1..] == Tokens(pattern[1..]);
    var i :| 0 <= i <= |value| && Stands(t, value[..i]) && Spells(Tokens(pattern[1..]), value[i..]);
    k := i;
    assert forall i :: 0 <= i < |pattern[1..]| - 1 ==> pattern[1..][i] == pattern[i + 1];
    SlashesOf(t, value[..k]);
  }

  lemma {:induction false} SlashesOf(t: Token, text: string)
    requires t in {One, Run} || t.Literal?
    requires Stands(t, text)
    ensures Slashes(text) == if t == Literal('/') then 1 else 0
  {
    if t != Literal('/') {
      NoSlashes(text);
    }
  }

  /** A pattern without wildcards matches itself alone. */
  lemma {:induction false} PlainPatternMatchesItself(pattern: string, value: string)
    requires '*' !in pattern && '?' !in pattern
    ensures Spells(Tokens(pattern), value) <==> value == pattern
  {
    if pattern != "" {
      var rest := pattern[1..];
      assert pattern == [pattern[0]] + rest;
      assert Tokens(pattern)[0] == Literal(pattern[0]) && Tokens(pattern)[1..] == Tokens(rest);
      if value != "" {
        PlainPatternMatchesItself(rest, value[1..]);
        assert value == [value[0]] + value[1..];
        assert value[..1] == [value[0]];
      }
    }
  }

  /** Everything below a directory, at any depth. */
  lemma {:induction false} TreePattern(dir: string, value: string)
    requires '*' !in dir && '?' !in dir
    ensures Spells(Tokens(dir + "/**"), value) <==> dir + "/" <= value
  {
    PrefixThenAny(dir + "/", value);
    assert dir + "/**" == dir + "/" + "**";
  }

  lemma {:induction false} PrefixThenAny(plain: string, value: string)
    requires '*' !in plain && '?' !in plain
    ensures Spells(Tokens(plain + "**"), value) <==> plain <= value
  {
    var pattern := plain + "**";
    if plain == "" {
      assert pattern == "**" && Tokens(pattern) == [Any] + Tokens("");
      assert value[|value|..] == "" && Stands(Any, value[..|value|]);
      assert Tokens(pattern)[1..] == [];
      assert Spells([], value[|value|..]);
    } else {
      var rest := plain[1..];
      assert pattern[1..] == rest + "**" && pattern[0] == plain[0];
      assert plain[0] in plain;
      assert Tokens(pattern)[0] == Literal(plain[0]) && Tokens(pattern)[1..] == Tokens(rest + "**");
      if value != "" {
        PrefixThenAny(rest, value[1..]);
        assert value[..1] == [value[0]];
      }
    }
  }

  // ---- the rule decision ------------------------------------------------------

  datatype Kind = Exact | Glob | UnknownKind
  datatype PathPattern = PathPattern(kind: Kind, value: string)
  datatype Mode = ApprovedOnly | FlagAll | Monitor
  datatype Rules = Rules(mode: Mode, blocked: seq<PathPattern>, allowed: seq<PathPattern>)
  datatype Reason = BlockedMatch | NotAllowed | FlaggedAll | NoReason

  ghost predicate Covers(p: PathPattern, path: string) {
    match p.kind
    case Exact => path == p.value
    case Glob => Spells(Tokens(p.value), path)
    case UnknownKind => false
  }

  ghost predicate Listed(patterns: seq<PathPattern>, path: string) {
    exists k :: 0 <= k < |patterns| && Covers(patterns[k], path)
  }

  method MatchesPathPatterns(path: string, patterns: seq<PathPattern>) returns (r: bool)
    ensures r <==> Listed(patterns, path)
  {
    for n := 0 to |patterns|
      invariant forall k :: 0 <= k < n ==> !Covers(patterns[k], path)
    {
      if patterns[n].kind == Exact && path == patterns[n].value { return true; }
      if patterns[n].kind == Glob {
        var hit := PathGlobMatch(patterns[n].value, path);
        if hit { return true; }
      }
    }
    return false;
  }

  /** pathRuleDecision: a path escapes only if no blocked pattern covers it and the mode
      lets it; blocking outranks every allowance. */
  method PathRuleDecision(path: string, rules: Rules) returns (reason: Reason, flagged: bool)
    ensures !flagged <==> !Listed(rules.blocked, path)
                          && (rules.mode == Monitor || (rules.mode == ApprovedOnly && Listed(rules.allowed, path)))
    ensures reason == BlockedMatch <==> Listed(rules.blocked, path)
    ensures flagged && reason == NotAllowed ==> !Listed(rules.allowed, path)
    ensures flagged ==> reason != NoReason
  {
    var blocked := MatchesPathPatterns(path, rules.blocked);
    if blocked { return BlockedMatch, true; }
    match rules.mode
    case ApprovedOnly =>
      var allowed := MatchesPathPatterns(path, rules.allowed);
      return NotAllowed, !allowed;
    case FlagAll => return FlaggedAll, true;
    case Monitor => return NoReason, false;
  }
}

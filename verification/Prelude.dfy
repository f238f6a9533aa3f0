/** Small vocabulary shared by every module: optional values, whitespace
    trimming, and sequence filtering. */
module Prelude {

  datatype Option<+T> = None | Some(value: T)

  /** The values `f` yields along `xs`, in order, skipping the elements it declines. */
  function FilterMap<A, B>(f: A -> Option<B>, xs: seq<A>): (ys: seq<B>)
    ensures |ys| <= |xs|
  {
    if xs == [] then []
    else
      var rest := FilterMap(f, xs[..|xs| - 1]);
      match f(xs[|xs| - 1])
      case Some(y) => rest + [y]
      case None => rest
  }

  lemma {:induction false} FilterMapConcat<A, B>(f: A -> Option<B>, xs: seq<A>, ys: seq<A>)
    ensures FilterMap(f, xs + ys) == FilterMap(f, xs) + FilterMap(f, ys)
  {
    if ys == [] {
      assert xs + ys == xs;
    } else {
      var last := |ys| - 1;
      assert (xs + ys)[..|xs + ys| - 1] == xs + ys[..last];
      FilterMapConcat(f, xs, ys[..last]);
    }
  }

  lemma {:induction false} FilterMapStep<A, B>(f: A -> Option<B>, xs: seq<A>, n: nat)
    requires n < |xs|
    ensures FilterMap(f, xs[..n + 1])
            == FilterMap(f, xs[..n]) + (if f(xs[n]).Some? then [f(xs[n]).value] else [])
  {
    assert xs[..n + 1][..n] == xs[..n];
  }

  lemma {:induction false} Regroup<T>(a: seq<T>, b: seq<T>, c: seq<T>)
    ensures a + (b + c) == a + b + c
    ensures a + [] == a
  {}

  lemma {:induction false} FilterMapSnoc<A, B>(f: A -> Option<B>, xs: seq<A>, x: A)
    ensures FilterMap(f, xs + [x]) == FilterMap(f, xs) + if f(x).Some? then [f(x).value] else []
  {
    assert (xs + [x])[..|xs|] == xs;
  }

  lemma {:induction false} FilterMapTwo<A, B>(f: A -> Option<B>, a: A, b: A)
    ensures FilterMap(f, [a, b])
            == (if f(a).Some? then [f(a).value] else []) + (if f(b).Some? then [f(b).value] else [])
  {
    FilterMapStep(f, [a, b], 0);
    FilterMapStep(f, [a, b], 1);
    assert [a, b][..0] == [] && [a, b][..2] == [a, b];
  }

  lemma {:induction false} FilterMapNone<A, B>(f: A -> Option<B>, xs: seq<A>)
    requires forall x :: x in xs ==> f(x) == None
    ensures FilterMap(f, xs) == []
  {
    if xs != [] {
      FilterMapNone(f, xs[..|xs| - 1]);
    }
  }

  lemma {:induction false} FilterMapMember<A, B>(f: A -> Option<B>, xs: seq<A>, y: B)
    ensures y in FilterMap(f, xs) <==> exists x :: x in xs && f(x) == Some(y)
  {
    if xs != [] {
      var last := |xs| - 1;
      FilterMapMember(f, xs[..last], y);
      assert xs == xs[..last] + [xs[last]];
      if exists x :: x in xs && f(x) == Some(y) {
        var x :| x in xs && f(x) == Some(y);
        assert x in xs[..last] || x == xs[last];
      }
    }
  }

  ghost predicate NoRepeats<T>(s: seq<T>) {
    forall i, j :: 0 <= i < j < |s| ==> s[i] != s[j]
  }

  /** A text joined at a separator that its first part does not hold comes apart one way. */
  lemma {:induction false} JoinSplits(sep: char, p: string, t: string, p': string, t': string)
    requires sep !in p && sep !in p'
    requires p + [sep] + t == p' + [sep] + t'
    ensures p == p' && t == t'
  {
    var s := p + [sep] + t;
    assert s[|p|] == sep && s[|p'|] == sep;
    assert p == s[..|p|] && p' == s[..|p'|];
    assert forall i :: 0 <= i < |p| ==> s[i] != sep;
    assert forall i :: 0 <= i < |p'| ==> s[i] != sep;
    assert t == s[|p| + 1..] && t' == s[|p'| + 1..];
  }

  // ---- Go's strings.TrimSpace -------------------------------------------------

  /** Unicode White_Space, the set strings.TrimSpace removes. */
  predicate IsSpace(c: char) {
    || '\t' <= c <= '\r'
    || c in {' ', '\U{85}', '\U{A0}', '\U{1680}', '\U{2028}', '\U{2029}', '\U{202F}', '\U{205F}', '\U{3000}'}
    || '\U{2000}' <= c <= '\U{200A}'
  }

  function TrimLeft(s: string): string {
    if s != [] && IsSpace(s[0]) then TrimLeft(s[1..]) else s
  }

  function TrimRight(s: string): string {
    if s != [] && IsSpace(s[|s| - 1]) then TrimRight(s[..|s| - 1]) else s
  }

  function TrimSpace(s: string): string {
    TrimRight(TrimLeft(s))
  }

  /** strings.TrimSpace(s) == "" (lemma BlankTrimsToNothing) */
  predicate Blank(s: string) {
    forall c :: c in s ==> IsSpace(c)
  }

  lemma {:induction false} TrimLeftEdge(s: string)
    ensures TrimLeft(s) == [] || !IsSpace(TrimLeft(s)[0])
    ensures TrimLeft(s) == [] <==> Blank(s)
  {
    if s != [] {
      assert s == [s[0]] + s[1..];
      TrimLeftEdge(s[1..]);
    }
  }

  lemma {:induction false} TrimRightEdge(s: string)
    ensures TrimRight(s) == [] || !IsSpace(TrimRight(s)[|TrimRight(s)| - 1])
    ensures TrimRight(s) == [] <==> Blank(s)
    ensures TrimRight(s) <= s
  {
    if s != [] {
      assert s == s[..|s| - 1] + [s[|s| - 1]];
      TrimRightEdge(s[..|s| - 1]);
    }
  }

  lemma {:induction false} BlankTrimsToNothing(s: string)
    ensures Blank(s) <==> TrimSpace(s) == ""
  {
    TrimLeftEdge(s);
    TrimRightEdge(TrimLeft(s));
    if TrimLeft(s) != "" {
      assert TrimLeft(s)[0] in TrimLeft(s);
    }
  }

  /** The next key of a Go map traversal: any of those left. */
  method Pick<T(==)>(pending: set<T>) returns (x: T)
    requires pending != {}
    ensures x in pending
  {
    x :| x in pending;
  }

  function HasKey<K, V>(m: map<K, V>, k: K): Option<V> {
    if k in m then Some(m[k]) else None
  }
}

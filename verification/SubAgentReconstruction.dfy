/** ReconstructSubAgentRelations (subagent_relations.go): one relation per agent,
    whatever the order and redelivery of the spans. */
module SubAgentReconstruction {
  import opened Prelude
  import opened Ordering
  import opened Folds
  import opened SubAgents
  import opened SubAgentRelations

  function InGroup(key: Id, s: Span): Option<Span> {
    if s.agentId != "" && AgentKey(s) == key then Some(s) else None
  }

  /** One agent's spans, in the order given. */
  function Group(key: Id, spans: seq<Span>): seq<Span> {
    FilterMap((s: Span) => InGroup(key, s), spans)
  }

  function RelationKey(r: Relation): Id { (r.traceId, r.agentId) }

  /** What ReconstructSubAgentRelations returns for the spans it kept. */
  ghost predicate Reconstructs(kept: seq<Span>, index: SpanIndex, relations: seq<Relation>) {
    && Indexes(index, kept)
    && StrictlySortedBy(KeyLess, RelationKey, relations)
    && (forall r :: r in relations ==> RelationOf(kept, index, RelationKey(r), r))
    && forall key :: Group(key, kept) != [] ==> exists r :: r in relations && RelationKey(r) == key
  }

  ghost predicate Rolled(group: seq<Span>, index: SpanIndex, r: Relation) {
    RollsUp(SortBy(KeyLess, SpanOrder, group), index, r)
  }

  ghost predicate RelationOf(kept: seq<Span>, index: SpanIndex, key: Id, r: Relation) {
    Rolled(Group(key, kept), index, r)
  }

  method GroupByAgent(spans: seq<Span>) returns (groups: map<Id, seq<Span>>, order: seq<Id>)
    ensures forall key :: key in groups <==> Group(key, spans) != []
    ensures forall key :: key in groups ==> groups[key] == Group(key, spans)
    ensures forall key :: key in groups <==> key in order
    ensures NoRepeats(order)
  {
    groups, order := map[], [];
    for n := 0 to |spans|
      invariant forall key :: key in groups <==> Group(key, spans[..n]) != []
      invariant forall key :: key in groups ==> groups[key] == Group(key, spans[..n])
      invariant forall key :: key in groups <==> key in order
      invariant NoRepeats(order)
    {
      var span := spans[n];
      GroupStep(spans, n);
      if span.agentId == "" { continue; }
      var key := AgentKey(span);
      if key !in groups {
        order := order + [key];
      }
      groups := groups[key := (if key in groups then groups[key] else []) + [span]];
    }
    assert spans[..|spans|] == spans;
  }

  lemma {:induction false} GroupStep(spans: seq<Span>, n: nat)
    requires n < |spans|
    ensures forall key :: Group(key, spans[..n + 1])
                          == Group(key, spans[..n]) + (if InGroup(key, spans[n]).Some? then [spans[n]] else [])
  {
    forall key ensures Group(key, spans[..n + 1])
                       == Group(key, spans[..n]) + (if InGroup(key, spans[n]).Some? then [spans[n]] else []) {
      FilterMapStep((s: Span) => InGroup(key, s), spans, n);
    }
  }

  lemma {:induction false} GroupMember(key: Id, spans: seq<Span>, s: Span)
    ensures s in Group(key, spans) <==> s in spans && s.agentId != "" && AgentKey(s) == key
  {
    FilterMapMember((t: Span) => InGroup(key, t), spans, s);
  }

  /** A relation rolled up from a group carries the group's key. */
  lemma {:induction false} RelationCarriesKey(kept: seq<Span>, index: SpanIndex, key: Id, r: Relation)
    requires RelationOf(kept, index, key, r)
    ensures RelationKey(r) == key
  {
    var sorted := SortBy(KeyLess, SpanOrder, Group(key, kept));
    MembersOfSort(KeyLess, SpanOrder, Group(key, kept), sorted[0]);
    GroupMember(key, kept, sorted[0]);
  }

  method RelateGroups(index: SpanIndex, groups: map<Id, seq<Span>>, order: seq<Id>)
    returns (relations: seq<Relation>)
    requires forall id :: id in index ==> Identity(index[id]) == id
    requires forall k :: 0 <= k < |order| ==> order[k] in groups && groups[order[k]] != []
    ensures |relations| == |order|
    ensures forall k :: 0 <= k < |order| ==> Rolled(groups[order[k]], index, relations[k])
  {
    ghost var right := (key: Id, r: Relation) => key in groups && Rolled(groups[key], index, r);
    relations := RelateEach(index, groups, order, right);
  }

  /** The loop; what is right for a group's relation is left to the caller. */
  method RelateEach(index: SpanIndex, groups: map<Id, seq<Span>>, order: seq<Id>, ghost right: (Id, Relation) -> bool)
    returns (relations: seq<Relation>)
    requires forall id :: id in index ==> Identity(index[id]) == id
    requires forall k :: 0 <= k < |order| ==> order[k] in groups && groups[order[k]] != []
    requires forall key, r {:trigger Rolled(groups[key], index, r)} ::
               key in groups && Rolled(groups[key], index, r) ==> right(key, r)
    ensures |relations| == |order| && forall k :: 0 <= k < |order| ==> right(order[k], relations[k])
  {
    relations := [];
    for n := 0 to |order|
      invariant |relations| == n && forall k :: 0 <= k < n ==> right(order[k], relations[k])
    {
      var r := RelateGroup(index, groups[order[n]]);
      relations := relations + [r];
    }
  }

  method RelateGroup(index: SpanIndex, group: seq<Span>) returns (r: Relation)
    requires group != [] && forall id :: id in index ==> Identity(index[id]) == id
    ensures Rolled(group, index, r)
  {
    r := RelationFromGroup(group, index);
  }

  method Reconstruct(spans: seq<Span>) returns (relations: seq<Relation>)
    ensures exists index :: Reconstructs(Firsts(spans), index, relations)
  {
    var kept := CollectSpans(spans);
    var byId := IndexSpans(kept);
    var groups, order := GroupByAgent(kept);
    var unsorted := RelateGroups(byId, groups, order);
    relations := SortBy(KeyLess, RelationKey, unsorted);
    RelationsSorted(kept, byId, order, unsorted);
  }

  lemma {:induction false} SortedByKey(unsorted: seq<Relation>, relations: seq<Relation>)
    requires relations == SortBy(KeyLess, RelationKey, unsorted) && DistinctKeys(RelationKey, unsorted)
    ensures StrictlySortedBy(KeyLess, RelationKey, relations)
    ensures forall r :: r in relations <==> r in unsorted
  {
    KeyLessStrictTotal();
    SortForgetsOrder(KeyLess, RelationKey, unsorted, unsorted);
    forall r ensures r in relations <==> r in unsorted {
      MembersOfSort(KeyLess, RelationKey, unsorted, r);
    }
  }

  lemma {:induction false} RelationsSorted(kept: seq<Span>, index: SpanIndex, order: seq<Id>, unsorted: seq<Relation>)
    requires Indexes(index, kept)
    requires Related(kept, index, order, unsorted)
    requires forall key :: Group(key, kept) != [] ==> key in order
    requires NoRepeats(order)
    ensures Reconstructs(kept, index, SortBy(KeyLess, RelationKey, unsorted))
  {
    var relations := SortBy(KeyLess, RelationKey, unsorted);
    RelationsCarryKeys(kept, index, order, unsorted);
    SortedByKey(unsorted, relations);
    EveryAgentRelated(kept, order, unsorted, relations);
    EachIsRelated(kept, index, order, unsorted, relations);
  }

  ghost predicate Related(kept: seq<Span>, index: SpanIndex, order: seq<Id>, unsorted: seq<Relation>) {
    |unsorted| == |order| && forall k :: 0 <= k < |order| ==> RelationOf(kept, index, order[k], unsorted[k])
  }

  lemma {:induction false} EachIsRelated(
      kept: seq<Span>, index: SpanIndex, order: seq<Id>, unsorted: seq<Relation>, relations: seq<Relation>)
    requires Related(kept, index, order, unsorted)
    requires forall r :: r in relations <==> r in unsorted
    ensures forall r :: r in relations ==> RelationOf(kept, index, RelationKey(r), r)
  {
    forall r | r in relations ensures RelationOf(kept, index, RelationKey(r), r) {
      var k :| 0 <= k < |unsorted| && unsorted[k] == r;
      RelationCarriesKey(kept, index, order[k], r);
    }
  }

  lemma {:induction false} RelationsCarryKeys(kept: seq<Span>, index: SpanIndex, order: seq<Id>, unsorted: seq<Relation>)
    requires Related(kept, index, order, unsorted)
    ensures forall k :: 0 <= k < |order| ==> RelationKey(unsorted[k]) == order[k]
  {
    forall k | 0 <= k < |order| ensures RelationKey(unsorted[k]) == order[k] {
      RelationCarriesKey(kept, index, order[k], unsorted[k]);
    }
  }

  lemma {:induction false} EveryAgentRelated(
      kept: seq<Span>, order: seq<Id>, unsorted: seq<Relation>, relations: seq<Relation>)
    requires |unsorted| == |order| && forall k :: 0 <= k < |order| ==> RelationKey(unsorted[k]) == order[k]
    requires forall key :: Group(key, kept) != [] ==> key in order
    requires forall r :: r in relations <==> r in unsorted
    ensures forall key :: Group(key, kept) != [] ==> exists r :: r in relations && RelationKey(r) == key
  {
    forall key | Group(key, kept) != [] ensures exists r :: r in relations && RelationKey(r) == key {
      var k :| 0 <= k < |order| && order[k] == key;
      assert unsorted[k] in relations;
    }
  }

  // ---- the result is determined -----------------------------------------------

  /** Both lists put the same spans, in the same order, in every sorted group. */
  ghost predicate SameGroups(xs: seq<Span>, ys: seq<Span>) {
    forall key :: SortBy(KeyLess, SpanOrder, Group(key, xs)) == SortBy(KeyLess, SpanOrder, Group(key, ys))
  }

  lemma {:induction false} RelationsAreDetermined(xs: seq<Span>, ys: seq<Span>, index: SpanIndex, a: seq<Relation>, b: seq<Relation>)
    requires SameGroups(xs, ys)
    requires Reconstructs(xs, index, a) && Reconstructs(ys, index, b)
    ensures a == b
  {
    RelationsIncluded(xs, ys, index, a, b);
    RelationsIncluded(ys, xs, index, b, a);
    KeyLessStrictTotal();
    SortedUnique(KeyLess, RelationKey, a, b);
  }

  lemma {:induction false} RelationsIncluded(xs: seq<Span>, ys: seq<Span>, index: SpanIndex, a: seq<Relation>, b: seq<Relation>)
    requires SameGroups(xs, ys)
    requires Reconstructs(xs, index, a) && Reconstructs(ys, index, b)
    ensures forall r :: r in a ==> r in b
  {
    forall r | r in a ensures r in b {
      var key := RelationKey(r);
      var sorted := SortBy(KeyLess, SpanOrder, Group(key, xs));
      assert RelationOf(xs, index, key, r);
      assert |sorted| == |Group(key, ys)|;
      var other :| other in b && RelationKey(other) == key;
      assert RelationOf(ys, index, key, other);
      RollUpUnique(sorted, index, r, other);
    }
  }

  lemma {:induction false} GroupIsDistinct(key: Id, spans: seq<Span>)
    requires DistinctKeys(Identity, spans)
    ensures DistinctKeys(SpanOrder, Group(key, spans))
  {
    if spans != [] {
      var front, last := spans[..|spans| - 1], spans[|spans| - 1];
      GroupIsDistinct(key, front);
      forall i | 0 <= i < |Group(key, front)| && InGroup(key, last).Some?
        ensures SpanOrder(Group(key, front)[i]) != SpanOrder(last)
      {
        GroupMember(key, front, Group(key, front)[i]);
      }
    }
  }

  lemma {:induction false} PermutedGroupsAgree(xs: seq<Span>, ys: seq<Span>)
    requires multiset(xs) == multiset(ys) && DistinctKeys(Identity, xs)
    ensures SameGroups(xs, ys)
  {
    KeyLessStrictTotal();
    forall key ensures SortBy(KeyLess, SpanOrder, Group(key, xs)) == SortBy(KeyLess, SpanOrder, Group(key, ys)) {
      GroupIsDistinct(key, xs);
      FilterMapMultiset((s: Span) => InGroup(key, s), xs, ys);
      SortForgetsOrder(KeyLess, SpanOrder, Group(key, xs), Group(key, ys));
    }
  }

  lemma {:induction false} DistinctByIdentity(xs: seq<Span>, s: Span, t: Span)
    requires DistinctKeys(Identity, xs) && s in xs && t in xs && Identity(s) == Identity(t)
    ensures s == t
  {
    var i :| 0 <= i < |xs| && xs[i] == s;
    var j :| 0 <= j < |xs| && xs[j] == t;
    assert i == j;
  }

  lemma {:induction false} PermutationSurvives(
      xs: seq<Span>, ys: seq<Span>, xIndex: SpanIndex, yIndex: SpanIndex, a: seq<Relation>, b: seq<Relation>)
    requires multiset(xs) == multiset(ys) && DistinctKeys(Identity, xs)
    requires Reconstructs(xs, xIndex, a) && Reconstructs(ys, yIndex, b)
    ensures a == b
  {
    forall s ensures s in xs <==> s in ys {
      assert s in xs <==> s in multiset(xs);
      assert s in ys <==> s in multiset(ys);
    }
    forall s, t | s in xs && t in xs && Identity(s) == Identity(t) ensures s == t {
      DistinctByIdentity(xs, s, t);
    }
    IndexIsDetermined(xIndex, yIndex, xs, ys);
    PermutedGroupsAgree(xs, ys);
    RelationsAreDetermined(xs, ys, xIndex, a, b);
  }

  /** Spans with distinct identities may arrive in any order. */
  lemma {:induction false} OrderIsForgotten(
      xs: seq<Span>, ys: seq<Span>, xIndex: SpanIndex, yIndex: SpanIndex, a: seq<Relation>, b: seq<Relation>)
    requires multiset(xs) == multiset(ys) && DistinctKeys(Identity, xs)
    requires Reconstructs(Firsts(xs), xIndex, a) && Reconstructs(Firsts(ys), yIndex, b)
    ensures a == b
  {
    forall i, j | 0 <= i < j < |ys| ensures Identity(ys[i]) != Identity(ys[j]) {
      DistinctInPermutation(Identity, xs, ys, i, j);
    }
    DistinctSpansAreKept(xs);
    DistinctSpansAreKept(ys);
    PermutationSurvives(xs, ys, xIndex, yIndex, a, b);
  }

  /** A span whose identity was already seen changes nothing, even with other contents. */
  lemma {:induction false} RedeliveryIsAbsorbed(
      xs: seq<Span>, again: seq<Span>, xIndex: SpanIndex, yIndex: SpanIndex, a: seq<Relation>, b: seq<Relation>)
    requires forall s :: s in again ==> SeenIn(s, xs)
    requires Reconstructs(Firsts(xs), xIndex, a) && Reconstructs(Firsts(xs + again), yIndex, b)
    ensures a == b
  {
    RedeliveryIsIgnored(xs, again);
    KeptAreIdentified(xs);
    IndexIsDetermined(xIndex, yIndex, Firsts(xs), Firsts(xs));
    RelationsAreDetermined(Firsts(xs), Firsts(xs), xIndex, a, b);
  }

  lemma {:induction false} KeptAreIdentified(xs: seq<Span>)
    ensures forall s, t :: s in Firsts(xs) && t in Firsts(xs) && s.spanId != "" && Identity(s) == Identity(t) ==> s == t
  {
    var kept := Firsts(xs);
    forall s, t | s in kept && t in kept && s.spanId != "" && Identity(s) == Identity(t) ensures s == t {
      var i :| 0 <= i < |kept| && kept[i] == s;
      var j :| 0 <= j < |kept| && kept[j] == t;
      if i < j {
        FirstsDistinct(xs, i, j);
      } else if j < i {
        FirstsDistinct(xs, j, i);
      }
    }
  }

  /** Every span has an id, and copies of a span are equal. */
  ghost predicate Faithful(spans: seq<Span>) {
    && (forall s :: s in spans ==> s.spanId != "")
    && forall s, t :: s in spans && t in spans && Identity(s) == Identity(t) ==> s == t
  }

  /** Any delivery of the same spans, reordered and repeated at will, gives the same relations. */
  lemma {:induction false} DeliveryIsForgotten(
      xs: seq<Span>, ys: seq<Span>, xIndex: SpanIndex, yIndex: SpanIndex, a: seq<Relation>, b: seq<Relation>)
    requires Faithful(xs) && forall s :: s in xs <==> s in ys
    requires Reconstructs(Firsts(xs), xIndex, a) && Reconstructs(Firsts(ys), yIndex, b)
    ensures a == b
  {
    KeptOnce(xs);
    KeptOnce(ys);
    SameMembersOnce(Identity, Firsts(xs), Firsts(ys));
    PermutationSurvives(Firsts(xs), Firsts(ys), xIndex, yIndex, a, b);
  }

  lemma {:induction false} KeptOnce(xs: seq<Span>)
    requires Faithful(xs)
    ensures DistinctKeys(Identity, Firsts(xs))
    ensures forall s :: s in Firsts(xs) <==> s in xs
  {
    forall i, j | 0 <= i < j < |Firsts(xs)| ensures Identity(Firsts(xs)[i]) != Identity(Firsts(xs)[j]) {
      FirstsDistinct(xs, i, j);
      FirstsMembers(xs, Firsts(xs)[j]);
      assert Firsts(xs)[j] in xs;
    }
    forall s ensures s in Firsts(xs) <==> s in xs {
      FirstsMembers(xs, s);
      if s in xs {
        var t :| t in Firsts(xs) && Identity(t) == Identity(s);
        FirstsMembers(xs, t);
      }
    }
  }
}

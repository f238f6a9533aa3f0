/** The raw echo of a transcript record: what the typed homes do not store
    (internal/normalize/claude/jsonl_residual.go). */
module Residual {
  import opened Prelude

  /** A JSON value. Numbers keep their text; `JInt` is the Go int the residual adds. */
  datatype Raw =
    | JNull
    | JBool(b: bool)
    | JNum(text: string)
    | JInt(n: int)
    | JStr(s: string)
    | JArr(items: seq<Raw>)
    | JObj(fields: map<string, Raw>)

  /** scalarRule, objectRules and contentRules. */
  datatype Rule =
    | Scalar(stored: Raw -> bool)
    | Object(rules: map<string, Rule>)
    | Content(stringTyped: bool, blocks: map<string, map<string, Rule>>)

  /** transcriptBlockRequired */
  function Required(blockType: string): string {
    if blockType == "tool_use" then "id"
    else if blockType == "tool_result" then "tool_use_id"
    else if blockType == "text" || blockType == "thinking" then blockType
    else ""
  }

  // ---- reduce, as a function --------------------------------------------------

  /** What is left of `v` once its typed homes have taken what they store. */
  function Reduce(rule: Rule, v: Raw): Option<Raw>
    decreases v, 1
  {
    match rule
    case Scalar(stored) => if stored(v) then None else Some(v)
    case Object(rules) =>
      if !v.JObj? || v.fields == map[] then Some(v)
      else
        var left := LeftFields(rules, v);
        if left == map[] then None else Some(JObj(left))
    case Content(stringTyped, blocks) =>
      if v.JStr? then if stringTyped && !Blank(v.s) then None else Some(v)
      else if !v.JArr? || v.items == [] then Some(v)
      else
        var left := Entries(blocks, v, |v.items|);
        if left == [] then None else Some(JArr(left))
  }

  function LeftFields(rules: map<string, Rule>, v: Raw): map<string, Raw>
    requires v.JObj?
    decreases v, 0
  {
    map k | k in v.fields && (k !in rules || Reduce(rules[k], v.fields[k]).Some?) ::
      if k !in rules then v.fields[k] else Reduce(rules[k], v.fields[k]).value
  }

  function Entry(index: int, block: Raw): Raw {
    JObj(map["index" := JInt(index), "block" := block])
  }

  /** The entries of the first `n` blocks. */
  function Entries(blocks: map<string, map<string, Rule>>, v: Raw, n: nat): seq<Raw>
    requires v.JArr? && n <= |v.items|
    decreases v, 0, n
  {
    if n == 0 then []
    else
      var left := BlockResidual(blocks, v.items[n - 1]);
      var front := Entries(blocks, v, n - 1);
      if left.Some? then front + [Entry(n - 1, left.value)] else front
  }

  function BlockType(v: Raw): string {
    if v.JObj? && "type" in v.fields && v.fields["type"].JStr? then v.fields["type"].s else ""
  }

  /** A known block whose required key its typed home stores. Every block type the rules
      know is one of the four that have a required key. */
  predicate Accepted(blocks: map<string, map<string, Rule>>, v: Raw)
    decreases v, 2
  {
    var blockType := BlockType(v);
    && v.JObj? && blockType in blocks && Required(blockType) != ""
    && Required(blockType) in v.fields && Required(blockType) in blocks[blockType]
    && Reduce(blocks[blockType][Required(blockType)], v.fields[Required(blockType)]).None?
  }

  function BlockResidual(blocks: map<string, map<string, Rule>>, v: Raw): Option<Raw>
    decreases v, 3
  {
    if !Accepted(blocks, v) then Some(v)
    else
      var leftover := LeftFields(blocks[BlockType(v)], v) - {"type"};
      if leftover == map[] then None else Some(JObj(leftover["type" := JStr(BlockType(v))]))
  }

  // ---- reduce, as the code runs it --------------------------------------------

  method ReduceValue(rule: Rule, v: Raw) returns (left: Option<Raw>)
    ensures left == Reduce(rule, v)
    decreases v, 1
  {
    match rule
    case Scalar(stored) =>
      left := if stored(v) then None else Some(v);
    case Object(rules) =>
      left := ReduceObject(rules, v);
    case Content(stringTyped, blocks) =>
      left := ReduceContent(stringTyped, blocks, v);
  }

  method ReduceObject(rules: map<string, Rule>, v: Raw) returns (left: Option<Raw>)
    ensures left == Reduce(Object(rules), v)
    decreases v, 0
  {
    if !v.JObj? || v.fields == map[] { return Some(v); }
    var kept: map<string, Raw> := map[];
    var pending := v.fields.Keys;
    while pending != {}
      invariant pending <= v.fields.Keys
      invariant kept == map k | k in LeftFields(rules, v) && k !in pending :: LeftFields(rules, v)[k]
      decreases pending
    {
      var key := Pick(pending);
      pending := pending - {key};
      if key !in rules {
        kept := kept[key := v.fields[key]];
      } else {
        var residual := ReduceValue(rules[key], v.fields[key]);
        if residual.Some? {
          kept := kept[key := residual.value];
        }
      }
    }
    assert kept == LeftFields(rules, v);
    left := if kept == map[] then None else Some(JObj(kept));
  }

  method ReduceContent(stringTyped: bool, blocks: map<string, map<string, Rule>>, v: Raw) returns (left: Option<Raw>)
    ensures left == Reduce(Content(stringTyped, blocks), v)
    decreases v, 0
  {
    if v.JStr? {
      return if stringTyped && !Blank(v.s) then None else Some(v);
    }
    if !v.JArr? || v.items == [] { return Some(v); }
    var entries: seq<Raw> := [];
    for index := 0 to |v.items|
      invariant entries == Entries(blocks, v, index)
    {
      var residual := ReduceBlock(blocks, v.items[index]);
      if residual.Some? {
        entries := entries + [Entry(index, residual.value)];
      }
    }
    left := if entries == [] then None else Some(JArr(entries));
  }

  /** blockResidual: the leftover map is edited in place. */
  method ReduceBlock(blocks: map<string, map<string, Rule>>, v: Raw) returns (left: Option<Raw>)
    ensures left == BlockResidual(blocks, v)
    decreases v, 3
  {
    var blockType := BlockType(v);
    if !v.JObj? || blockType !in blocks { return Some(v); }
    var required := Required(blockType);
    if required == "" || required !in v.fields || required !in blocks[blockType] { return Some(v); }
    var rejected := ReduceValue(blocks[blockType][required], v.fields[required]);
    if rejected.Some? { return Some(v); }
    left := ReduceObject(blocks[blockType], v);
    if left.Some? {
      var leftover := left.value.fields - {"type"};
      if leftover == map[] { return None; }
      leftover := leftover["type" := JStr(blockType)];
      left := Some(JObj(leftover));
    }
  }

  // ---- what the typed homes took ----------------------------------------------

  /** The accepted leaves, by key and by block index. */
  datatype Leaves =
    | Nothing
    | Leaf(v: Raw)
    | Fields(at: map<string, Leaves>)
    | Block(blockType: string, within: map<string, Leaves>)
    | Blocks(slots: map<int, Leaves>)

  function Kept(rule: Rule, v: Raw): Leaves
    decreases v, 1
  {
    match rule
    case Scalar(stored) => if stored(v) then Leaf(v) else Nothing
    case Object(rules) => if !v.JObj? || v.fields == map[] then Nothing else Fields(KeptFields(rules, v))
    case Content(stringTyped, blocks) =>
      if v.JStr? then if stringTyped && !Blank(v.s) then Leaf(v) else Nothing
      else if !v.JArr? || v.items == [] then Nothing
      else Blocks(map i | 0 <= i < |v.items| && Accepted(blocks, v.items[i]) :: KeptBlock(blocks, v.items[i]))
  }

  function KeptFields(rules: map<string, Rule>, v: Raw): map<string, Leaves>
    requires v.JObj?
    decreases v, 0
  {
    map k | k in v.fields && k in rules :: Kept(rules[k], v.fields[k])
  }

  function KeptBlock(blocks: map<string, map<string, Rule>>, v: Raw): Leaves
    requires Accepted(blocks, v)
    decreases v, 3
  {
    Block(BlockType(v), KeptFields(blocks[BlockType(v)], v))
  }

  // ---- merging both sides -----------------------------------------------------

  function FieldsOf(left: Option<Raw>): map<string, Raw> {
    if left.Some? && left.value.JObj? then left.value.fields else map[]
  }

  /** The entries of a residual array, by index. */
  function ByIndex(entries: seq<Raw>): map<int, Raw> {
    if entries == [] then map[]
    else
      var rest, last := ByIndex(entries[..|entries| - 1]), FieldsOf(Some(entries[|entries| - 1]));
      if "index" in last && last["index"].JInt? && "block" in last then rest[last["index"].n := last["block"]] else rest
  }

  /** Puts a residual and the accepted leaves back together, without looking at the rules. */
  function Merge(left: Option<Raw>, kept: Leaves): Raw
    decreases kept, 1
  {
    match kept
    case Nothing => if left.Some? then left.value else JNull
    case Leaf(v) => v
    case Fields(at) => JObj(MergeFields(FieldsOf(left), kept, at))
    case Block(blockType, within) => JObj(MergeFields(FieldsOf(left), kept, within)["type" := JStr(blockType)])
    case Blocks(slots) =>
      var entries := if left.Some? && left.value.JArr? then ByIndex(left.value.items) else map[];
      JArr(seq(|entries.Keys + slots.Keys|, i => MergeSlot(entries, kept, slots, i)))
  }

  function MergeSlot(entries: map<int, Raw>, ghost whole: Leaves, slots: map<int, Leaves>, i: int): Raw
    requires whole.Blocks? && whole.slots == slots
    decreases whole, 0
  {
    if i in slots then Merge(HasKey(entries, i), slots[i])
    else if i in entries then entries[i]
    else JNull
  }

  function MergeFields(left: map<string, Raw>, ghost whole: Leaves, kept: map<string, Leaves>): map<string, Raw>
    requires (whole.Fields? && whole.at == kept) || (whole.Block? && whole.within == kept)
    decreases whole, 0
  {
    map k | k in left.Keys + kept.Keys :: if k in kept then Merge(HasKey(left, k), kept[k]) else left[k]
  }

  // ---- nothing is lost --------------------------------------------------------

  /** No field is lost: for every rule and value, the residual and the accepted leaves
      give the value back. */
  lemma {:induction false} NothingIsLost(rule: Rule, v: Raw)
    ensures Merge(Reduce(rule, v), Kept(rule, v)) == v
    decreases v, 2
  {
    match rule
    case Scalar(stored) =>
    case Object(rules) =>
      if v.JObj? && v.fields != map[] {
        FieldsComeBack(rules, v, LeftFields(rules, v), Kept(rule, v));
      }
    case Content(stringTyped, blocks) =>
      if v.JArr? && v.items != [] {
        BlocksComeBack(blocks, v, Kept(rule, v));
      }
  }

  lemma {:induction false} FieldsComeBack(rules: map<string, Rule>, v: Raw, left: map<string, Raw>, whole: Leaves)
    requires v.JObj? && left == LeftFields(rules, v)
    requires whole == Fields(KeptFields(rules, v)) || (whole.Block? && whole.within == KeptFields(rules, v))
    ensures MergeFields(left, whole, KeptFields(rules, v)) == v.fields
    decreases v, 0
  {
    forall k | k in v.fields && k in rules ensures Merge(HasKey(left, k), Kept(rules[k], v.fields[k])) == v.fields[k] {
      NothingIsLost(rules[k], v.fields[k]);
      assert HasKey(left, k) == Reduce(rules[k], v.fields[k]);
    }
  }

  lemma {:induction false} BlockComesBack(blocks: map<string, map<string, Rule>>, v: Raw)
    requires Accepted(blocks, v)
    ensures Merge(BlockResidual(blocks, v), KeptBlock(blocks, v)) == v
    decreases v, 2
  {
    var rules, kept := blocks[BlockType(v)], KeptBlock(blocks, v);
    FieldsComeBack(rules, v, LeftFields(rules, v), kept);
    TypeRidesBack(LeftFields(rules, v), FieldsOf(BlockResidual(blocks, v)), kept, v.fields, BlockType(v));
  }

  /** Taking the type out of the leftovers, and putting it back, loses nothing else. */
  lemma {:induction false} TypeRidesBack(
      left: map<string, Raw>, left': map<string, Raw>, kept: Leaves, fields: map<string, Raw>, blockType: string)
    requires kept.Block? && MergeFields(left, kept, kept.within) == fields
    requires "type" in fields && fields["type"] == JStr(blockType)
    requires forall k :: k != "type" ==> (k in left' <==> k in left) && (k in left ==> left'[k] == left[k])
    ensures MergeFields(left', kept, kept.within)["type" := JStr(blockType)] == fields
  {
    var after := MergeFields(left', kept, kept.within)["type" := JStr(blockType)];
    forall k ensures HasKey(after, k) == HasKey(fields, k) {
      if k != "type" {
        assert HasKey(left', k) == HasKey(left, k);
        FieldMerges(left, kept, kept.within, k);
        FieldMerges(left', kept, kept.within, k);
      }
    }
    SameFields(after, fields);
  }

  lemma {:induction false} FieldMerges(left: map<string, Raw>, whole: Leaves, kept: map<string, Leaves>, k: string)
    requires (whole.Fields? && whole.at == kept) || (whole.Block? && whole.within == kept)
    ensures HasKey(MergeFields(left, whole, kept), k) == if k in kept then Some(Merge(HasKey(left, k), kept[k])) else HasKey(left, k)
  {}

  lemma {:induction false} SameFields(a: map<string, Raw>, b: map<string, Raw>)
    requires forall k :: HasKey(a, k) == HasKey(b, k)
    ensures a == b
  {
    forall k ensures k in a <==> k in b {
      assert HasKey(a, k) == HasKey(b, k);
    }
    forall k | k in a ensures a[k] == b[k] {
      assert HasKey(a, k) == HasKey(b, k);
    }
  }

  lemma {:induction false} ByIndexSnoc(entries: seq<Raw>, i: int, block: Raw)
    ensures ByIndex(entries + [Entry(i, block)]) == ByIndex(entries)[i := block]
  {
    var all := entries + [Entry(i, block)];
    assert all[..|all| - 1] == entries;
  }

  /** The residual's entries, by index, are the blocks left over. */
  lemma {:induction false} EntryByIndex(blocks: map<string, map<string, Rule>>, v: Raw, n: nat, i: int)
    requires v.JArr? && n <= |v.items|
    ensures HasKey(ByIndex(Entries(blocks, v, n)), i)
            == if 0 <= i < n then BlockResidual(blocks, v.items[i]) else None
  {
    if n > 0 {
      EntryByIndex(blocks, v, n - 1, i);
      EntriesStep(blocks, v, n);
    } else {
      assert ByIndex([]) == map[];
    }
  }

  lemma {:induction false} EntriesStep(blocks: map<string, map<string, Rule>>, v: Raw, n: nat)
    requires v.JArr? && 0 < n <= |v.items|
    ensures var before, left := ByIndex(Entries(blocks, v, n - 1)), BlockResidual(blocks, v.items[n - 1]);
            ByIndex(Entries(blocks, v, n)) == if left.Some? then before[n - 1 := left.value] else before
  {
    var left := BlockResidual(blocks, v.items[n - 1]);
    if left.Some? {
      ByIndexSnoc(Entries(blocks, v, n - 1), n - 1, left.value);
    }
  }

  lemma {:induction false} CountUpTo(s: set<int>, n: nat)
    requires forall i :: i in s <==> 0 <= i < n
    ensures |s| == n
  {
    if n > 0 {
      CountUpTo(s - {n - 1}, n - 1);
    } else {
      assert forall i :: i !in s;
      assert s == {};
    }
  }

  lemma {:induction false} BlocksComeBack(blocks: map<string, map<string, Rule>>, v: Raw, kept: Leaves)
    requires v.JArr? && v.items != []
    requires kept.Blocks?
    requires kept.slots == map i | 0 <= i < |v.items| && Accepted(blocks, v.items[i]) :: KeptBlock(blocks, v.items[i])
    ensures var left := Entries(blocks, v, |v.items|);
            Merge(if left == [] then None else Some(JArr(left)), kept) == v
    decreases v, 1
  {
    var left := Entries(blocks, v, |v.items|);
    var entries := ByIndex(left);
    forall i | i in entries ensures 0 <= i < |v.items| {
      EntryByIndex(blocks, v, |v.items|, i);
    }
    forall i | 0 <= i < |v.items|
      ensures i in entries || i in kept.slots
      ensures MergeSlot(entries, kept, kept.slots, i) == v.items[i]
    {
      EntryByIndex(blocks, v, |v.items|, i);
      SlotComesBack(blocks, v, kept, i, HasKey(entries, i));
    }
    SlotsJoin(entries, kept, v.items);
    MergeOfEntries(left, kept);
  }

  lemma {:induction false} MergeOfEntries(left: seq<Raw>, kept: Leaves)
    requires kept.Blocks?
    ensures Merge(if left == [] then None else Some(JArr(left)), kept)
         == JArr(seq(|ByIndex(left).Keys + kept.slots.Keys|, i => MergeSlot(ByIndex(left), kept, kept.slots, i)))
  {
    assert ByIndex([]) == map[];
  }

  lemma {:induction false} SlotComesBack(
      blocks: map<string, map<string, Rule>>, v: Raw, kept: Leaves, i: nat, left: Option<Raw>)
    requires v.JArr? && i < |v.items| && kept.Blocks? && left == BlockResidual(blocks, v.items[i])
    requires i in kept.slots <==> Accepted(blocks, v.items[i])
    requires i in kept.slots ==> kept.slots[i] == KeptBlock(blocks, v.items[i])
    ensures i in kept.slots ==> Merge(left, kept.slots[i]) == v.items[i]
    ensures i !in kept.slots ==> left == Some(v.items[i])
    decreases v, 0
  {
    if Accepted(blocks, v.items[i]) {
      BlockComesBack(blocks, v.items[i]);
    }
  }

  lemma {:induction false} SlotsJoin(entries: map<int, Raw>, kept: Leaves, items: seq<Raw>)
    requires kept.Blocks?
    requires forall i :: i in entries || i in kept.slots <==> 0 <= i < |items|
    requires forall i :: 0 <= i < |items| ==> MergeSlot(entries, kept, kept.slots, i) == items[i]
    ensures seq(|entries.Keys + kept.slots.Keys|, i => MergeSlot(entries, kept, kept.slots, i)) == items
  {
    CountUpTo(entries.Keys + kept.slots.Keys, |items|);
  }
}

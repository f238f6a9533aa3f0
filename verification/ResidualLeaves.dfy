/** The residual echo is no larger than it has to be
    (internal/normalize/claude/jsonl_residual.go). */
module ResidualLeaves {
  import opened Prelude
  import opened Residual

  // ---- nothing is left --------------------------------------------------------

  /** Every leaf is stored by the rule it comes under. */
  ghost predicate Taken(rule: Rule, v: Raw)
    decreases v, 1
  {
    match rule
    case Scalar(stored) => stored(v)
    case Object(rules) => v.JObj? && v.fields != map[] && FieldsTaken(rules, v, {})
    case Content(stringTyped, blocks) =>
      || (v.JStr? && stringTyped && !Blank(v.s))
      || (v.JArr? && v.items != [] && forall i :: 0 <= i < |v.items| ==> BlockTaken(blocks, v.items[i]))
  }

  /** So is every field, but for these. */
  ghost predicate FieldsTaken(rules: map<string, Rule>, v: Raw, exempt: set<string>)
    requires v.JObj?
    decreases v, 0
  {
    forall k :: k in v.fields && k !in exempt ==> k in rules && Taken(rules[k], v.fields[k])
  }

  /** A block of a known type whose required key is stored. */
  ghost predicate Admitted(blocks: map<string, map<string, Rule>>, v: Raw)
    decreases v, 2
  {
    && v.JObj? && "type" in v.fields && v.fields["type"].JStr? && v.fields["type"].s in blocks
    && var rules := blocks[v.fields["type"].s];
    match v.fields["type"].s
    case "text" => KeyTaken(rules, v, "text")
    case "thinking" => KeyTaken(rules, v, "thinking")
    case "tool_use" => KeyTaken(rules, v, "id")
    case "tool_result" => KeyTaken(rules, v, "tool_use_id")
    case _ => false
  }

  ghost predicate KeyTaken(rules: map<string, Rule>, v: Raw, k: string)
    requires v.JObj?
    decreases v, 1
  {
    k in rules && k in v.fields && Taken(rules[k], v.fields[k])
  }

  ghost predicate BlockTaken(blocks: map<string, map<string, Rule>>, v: Raw)
    decreases v, 3
  {
    Admitted(blocks, v) && FieldsTaken(blocks[v.fields["type"].s], v, {"type"})
  }

  /** Nothing is left of a value exactly when every leaf is taken. */
  lemma {:induction false} NothingLeft(rule: Rule, v: Raw)
    ensures Reduce(rule, v) == None <==> Taken(rule, v)
    decreases v, 4
  {
    match rule
    case Scalar(stored) =>
    case Object(rules) =>
      if v.JObj? {
        NoFieldLeft(rules, v, {});
        assert LeftFields(rules, v) - {} == LeftFields(rules, v);
      }
    case Content(stringTyped, blocks) =>
      if v.JArr? {
        var taken := (i: int) => 0 <= i < |v.items| && BlockTaken(blocks, v.items[i]);
        forall i | 0 <= i < |v.items| ensures taken(i) <==> BlockResidual(blocks, v.items[i]) == None {
          BlockLeft(blocks, v.items[i]);
        }
        NoEntryLeft(blocks, v, |v.items|, taken);
      }
  }

  lemma {:induction false} NoFieldLeft(rules: map<string, Rule>, v: Raw, exempt: set<string>)
    requires v.JObj?
    ensures LeftFields(rules, v) - exempt == map[] <==> FieldsTaken(rules, v, exempt)
    decreases v, 3
  {
    forall k | k in v.fields && k in rules ensures Reduce(rules[k], v.fields[k]) == None <==> Taken(rules[k], v.fields[k]) {
      NothingLeft(rules[k], v.fields[k]);
    }
    forall k ensures k in LeftFields(rules, v) <==> k in v.fields && !(k in rules && Taken(rules[k], v.fields[k])) {}
    if LeftFields(rules, v) - exempt == map[] {
      forall k | k in v.fields && k !in exempt ensures k in rules && Taken(rules[k], v.fields[k]) {
        assert k !in LeftFields(rules, v) - exempt;
      }
    } else {
      var k :| k in LeftFields(rules, v) - exempt;
    }
  }

  lemma {:induction false} NoEntryLeft(blocks: map<string, map<string, Rule>>, v: Raw, n: nat, taken: int -> bool)
    requires v.JArr? && n <= |v.items|
    requires forall i {:trigger taken(i)} :: 0 <= i < n ==> (taken(i) <==> BlockResidual(blocks, v.items[i]) == None)
    ensures Entries(blocks, v, n) == [] <==> forall i :: 0 <= i < n ==> taken(i)
  {
    if n > 0 {
      NoEntryLeft(blocks, v, n - 1, taken);
      OneMoreEntry(blocks, v, n);
      assert taken(n - 1) <==> BlockResidual(blocks, v.items[n - 1]) == None;
    }
  }

  lemma {:induction false} OneMoreEntry(blocks: map<string, map<string, Rule>>, v: Raw, n: nat)
    requires v.JArr? && 0 < n <= |v.items|
    ensures Entries(blocks, v, n) == []
            <==> Entries(blocks, v, n - 1) == [] && BlockResidual(blocks, v.items[n - 1]) == None
  {}

  lemma {:induction false} AdmittedIsAccepted(blocks: map<string, map<string, Rule>>, v: Raw)
    ensures Accepted(blocks, v) <==> Admitted(blocks, v)
    ensures Admitted(blocks, v) ==> BlockType(v) == v.fields["type"].s
    decreases v, 5
  {
    if v.JObj? && BlockType(v) in blocks {
      var key := Required(BlockType(v));
      if key in v.fields && key in blocks[BlockType(v)] {
        NothingLeft(blocks[BlockType(v)][key], v.fields[key]);
      }
    }
  }

  lemma {:induction false} BlockLeft(blocks: map<string, map<string, Rule>>, v: Raw)
    ensures BlockResidual(blocks, v) == None <==> BlockTaken(blocks, v)
    decreases v, 6
  {
    AdmittedIsAccepted(blocks, v);
    if Admitted(blocks, v) {
      NoFieldLeft(blocks[BlockType(v)], v, {"type"});
    }
  }

  // ---- no stored leaf is echoed -----------------------------------------------

  datatype Step = Field(key: string) | Item(index: nat)

  /** At this path a rule stores the leaf. The type of a block rides back on its entry and
      is not counted. */
  ghost predicate StoredAt(rule: Rule, v: Raw, path: seq<Step>)
    decreases v
  {
    match rule
    case Scalar(stored) => path == [] && stored(v)
    case Object(rules) => v.JObj? && FieldStoredAt(rules, v, path)
    case Content(stringTyped, blocks) =>
      || (v.JStr? && path == [] && stringTyped && !Blank(v.s))
      || (v.JArr? && path != [] && path[0].Item? && path[0].index < |v.items|
          && Admitted(blocks, v.items[path[0].index]) && path[1..] != [] && path[1] != Field("type")
          && var block := v.items[path[0].index];
          FieldStoredAt(blocks[block.fields["type"].s], block, path[1..]))
  }

  ghost predicate FieldStoredAt(rules: map<string, Rule>, v: Raw, path: seq<Step>)
    requires v.JObj?
    decreases v, 0
  {
    && path != [] && path[0].Field? && path[0].key in v.fields && path[0].key in rules
    && StoredAt(rules[path[0].key], v.fields[path[0].key], path[1..])
  }

  /** What the residual holds at a path of the record: a block is under its index. */
  ghost predicate Echoes(left: Option<Raw>, path: seq<Step>)
    decreases |path|
  {
    && left.Some?
    && (path == [] || match path[0]
                      case Field(k) => left.value.JObj? && Echoes(HasKey(left.value.fields, k), path[1..])
                      case Item(i) => left.value.JArr? && Echoes(HasKey(ByIndex(left.value.items), i), path[1..]))
  }

  /** What a rule stores is not in the residual as well, at any path. */
  lemma {:induction false} StoredIsNotEchoed(rule: Rule, v: Raw, path: seq<Step>)
    requires StoredAt(rule, v, path)
    ensures !Echoes(Reduce(rule, v), path)
    decreases v, 1
  {
    match rule
    case Scalar(stored) =>
    case Object(rules) =>
      FieldIsNotEchoed(rules, v, path);
    case Content(stringTyped, blocks) =>
      if v.JArr? {
        var i := path[0].index;
        var block := v.items[i];
        AdmittedIsAccepted(blocks, block);
        EntryByIndex(blocks, v, |v.items|, i);
        FieldIsNotEchoed(blocks[BlockType(block)], block, path[1..]);
        assert path[1..][0] == path[1];
      }
  }

  lemma {:induction false} FieldIsNotEchoed(rules: map<string, Rule>, v: Raw, path: seq<Step>)
    requires v.JObj? && FieldStoredAt(rules, v, path)
    ensures !Echoes(HasKey(LeftFields(rules, v), path[0].key), path[1..])
    decreases v, 0
  {
    var k := path[0].key;
    StoredIsNotEchoed(rules[k], v.fields[k], path[1..]);
    assert HasKey(LeftFields(rules, v), k) == Reduce(rules[k], v.fields[k]);
  }
}

/** Re-shipping a transcript that has grown: which of the ids it emitted before it emits
    again. */
module TranscriptGrowth {
  import opened Prelude
  import opened Residual
  import opened ToolCalls
  import opened Transcript
  import opened TranscriptIds

  ghost predicate HasId(items: seq<Event>, id: string) {
    exists e :: e in items && e.id == id
  }

  /** Everything emitted before is emitted again, under its id. */
  ghost predicate KeepsIds(before: Emitted<Event>, after: Emitted<Event>)
    requires before.Emitted?
  {
    after.Emitted? && forall id :: HasId(before.items, id) ==> HasId(after.items, id)
  }

  /** A record with an event of its own has this id. */
  ghost predicate RecordHasId(decoded: seq<Decoded>, id: string) {
    exists d :: d in decoded && HasEvent(d) && RecordId(d.line) == id
  }

  /** The last use of some tool_use id makes the call's event have this id. */
  ghost predicate CallHasId(decoded: seq<Decoded>, categoryOf: string -> Category, id: string) {
    exists key :: LastUsed(decoded, categoryOf, key).Some? && CallEventId(LastUsed(decoded, categoryOf, key).value) == id
  }

  // ---- the ids emitted --------------------------------------------------------

  lemma {:induction false} CollapseKeepsIds(xs: seq<Event>, r: seq<Event>, id: string)
    requires Collapsed(EventLess, KeyOfEvent, IdOfEvent, xs, r)
    ensures HasId(r, id) <==> HasId(xs, id)
  {
    forall e | e in xs && e.id == id ensures HasId(r, id) {
      assert Represented(EventLess, KeyOfEvent, IdOfEvent, r, e);
      var k :| 0 <= k < |r| && IdOfEvent(r[k]) == IdOfEvent(e);
      assert r[k] in r;
    }
  }

  /** A transcript emits exactly the ids its records and the last uses in its lines have. */
  lemma {:induction false} EmittedIds(
      decoded: seq<Decoded>, receivedAt: int, categoryOf: string -> Category, r: Emitted<Event>, id: string)
    requires Normalizes(decoded, receivedAt, categoryOf, r) && r.Emitted?
    ensures HasId(r.items, id) <==> RecordHasId(decoded, id) || CallHasId(decoded, categoryOf, id)
  {
    var own, s := OwnEvents(decoded, receivedAt), CallsAfter(decoded, categoryOf);
    var calls := CallEvents(CallsOf(s), receivedAt);
    CollapseKeepsIds(own + calls, r.items, id);
    RecordIds(decoded, receivedAt, id);
    CallIds(decoded, receivedAt, categoryOf, id);
  }

  lemma {:induction false} RecordIds(decoded: seq<Decoded>, receivedAt: int, id: string)
    ensures HasId(OwnEvents(decoded, receivedAt), id) <==> RecordHasId(decoded, id)
  {
    forall e | e in OwnEvents(decoded, receivedAt) && e.id == id ensures RecordHasId(decoded, id) {
      OwnEventMember(decoded, receivedAt, e);
    }
    forall d | d in decoded && HasEvent(d) && RecordId(d.line) == id ensures HasId(OwnEvents(decoded, receivedAt), id) {
      OwnEventMember(decoded, receivedAt, OwnEvent(d, receivedAt).value);
    }
  }

  lemma {:induction false} CallIds(decoded: seq<Decoded>, receivedAt: int, categoryOf: string -> Category, id: string)
    requires Whole(CallsAfter(decoded, categoryOf))
    ensures HasId(CallEvents(CallsOf(CallsAfter(decoded, categoryOf)), receivedAt), id)
            <==> CallHasId(decoded, categoryOf, id)
  {
    var s := CallsAfter(decoded, categoryOf);
    forall e | e in CallEvents(CallsOf(s), receivedAt) && e.id == id ensures CallHasId(decoded, categoryOf, id) {
      CallEventMember(s, receivedAt, e);
      var key :| key in s.calls && CallEvent(s.calls[key], receivedAt) == e;
      CallsAreLastUses(decoded, categoryOf, key);
    }
    forall key | LastUsed(decoded, categoryOf, key).Some? && CallEventId(LastUsed(decoded, categoryOf, key).value) == id
      ensures HasId(CallEvents(CallsOf(s), receivedAt), id)
    {
      CallsAreLastUses(decoded, categoryOf, key);
      CallEventMember(s, receivedAt, CallEvent(s.calls[key], receivedAt));
    }
  }

  // ---- lines added ------------------------------------------------------------

  /** A use among the lines added replaces the earlier ones. */
  lemma {:induction false} LastUsedConcat(a: seq<Decoded>, b: seq<Decoded>, categoryOf: string -> Category, key: string)
    ensures LastUsed(a + b, categoryOf, key)
            == if LastUsed(b, categoryOf, key).Some? then LastUsed(b, categoryOf, key) else LastUsed(a, categoryOf, key)
  {
    if b == [] {
      assert a + b == a;
    } else {
      assert (a + b)[..|a + b| - 1] == a + b[..|b| - 1];
      LastUsedConcat(a, b[..|b| - 1], categoryOf, key);
    }
  }

  ghost predicate Reused(a: seq<Decoded>, b: seq<Decoded>, categoryOf: string -> Category, key: string) {
    LastUsed(a, categoryOf, key).Some? && LastUsed(b, categoryOf, key).Some?
  }

  /** A tool_use id used again gives its call the id it had, or that id passes to a record
      or to another call. */
  ghost predicate ReuseKeepsId(a: seq<Decoded>, b: seq<Decoded>, categoryOf: string -> Category, key: string)
    requires Reused(a, b, categoryOf, key)
  {
    var id := CallEventId(LastUsed(a, categoryOf, key).value);
    || CallEventId(LastUsed(b, categoryOf, key).value) == id
    || RecordHasId(a + b, id)
    || CallHasId(a + b, categoryOf, id)
  }

  /** A transcript re-shipped with more lines emits every id again exactly when no added
      line aborts the walk, and no tool_use id used again leaves its call's id to nobody. */
  lemma {:induction false} LongerTranscriptsKeepIds(
      a: seq<Decoded>, b: seq<Decoded>, categoryOf: string -> Category,
      first: int, before: Emitted<Event>, second: int, after: Emitted<Event>)
    requires Normalizes(a, first, categoryOf, before) && before.Emitted?
    requires Normalizes(a + b, second, categoryOf, after)
    ensures KeepsIds(before, after)
            <==> (forall d :: d in b ==> !Aborts(d))
                 && forall key :: Reused(a, b, categoryOf, key) ==> ReuseKeepsId(a, b, categoryOf, key)
  {
    assert after.Emitted? <==> forall d :: d in b ==> !Aborts(d);
    if after.Emitted? {
      forall id ensures HasId(before.items, id) ==> HasId(after.items, id) || CallHasId(a, categoryOf, id) {
        EmittedIds(a, first, categoryOf, before, id);
        EmittedIds(a + b, second, categoryOf, after, id);
      }
      forall key | LastUsed(a, categoryOf, key).Some?
        ensures var id := CallEventId(LastUsed(a, categoryOf, key).value);
                && HasId(before.items, id)
                && (HasId(after.items, id)
                    <==> !Reused(a, b, categoryOf, key) || ReuseKeepsId(a, b, categoryOf, key))
      {
        CallIdKept(a, b, categoryOf, first, before, second, after, key);
      }
    }
  }

  lemma {:induction false} CallIdKept(
      a: seq<Decoded>, b: seq<Decoded>, categoryOf: string -> Category,
      first: int, before: Emitted<Event>, second: int, after: Emitted<Event>, key: string)
    requires Normalizes(a, first, categoryOf, before) && before.Emitted?
    requires Normalizes(a + b, second, categoryOf, after) && after.Emitted?
    requires LastUsed(a, categoryOf, key).Some?
    ensures var id := CallEventId(LastUsed(a, categoryOf, key).value);
            && HasId(before.items, id)
            && (HasId(after.items, id)
                <==> !Reused(a, b, categoryOf, key) || ReuseKeepsId(a, b, categoryOf, key))
  {
    var id := CallEventId(LastUsed(a, categoryOf, key).value);
    EmittedIds(a, first, categoryOf, before, id);
    EmittedIds(a + b, second, categoryOf, after, id);
    LastUsedConcat(a, b, categoryOf, key);
  }

  // ---- transcripts whose sessions keep apart ----------------------------------

  /** The id used again names an MCP tool where it did before, and another where it did. */
  ghost predicate KindKept(a: seq<Decoded>, b: seq<Decoded>, categoryOf: string -> Category, key: string)
    requires Reused(a, b, categoryOf, key)
  {
    LastUsed(a, categoryOf, key).value.category == Mcp <==> LastUsed(b, categoryOf, key).value.category == Mcp
  }

  /** ... in the session it did. */
  ghost predicate SessionKept(a: seq<Decoded>, b: seq<Decoded>, categoryOf: string -> Category, key: string)
    requires Reused(a, b, categoryOf, key)
  {
    LastUsed(a, categoryOf, key).value.sessionId == LastUsed(b, categoryOf, key).value.sessionId
  }

  /** Where sessions keep apart and uuids are plain: exactly when no added line aborts the
      walk, and every tool_use id used again is used in the same session for a tool of the
      same kind. */
  lemma {:induction false} ApartSessionsKeepIds(
      a: seq<Decoded>, b: seq<Decoded>, categoryOf: string -> Category,
      first: int, before: Emitted<Event>, second: int, after: Emitted<Event>)
    requires SessionsApart(a + b) && PlainUuids(a + b)
    requires Normalizes(a, first, categoryOf, before) && before.Emitted?
    requires Normalizes(a + b, second, categoryOf, after)
    ensures KeepsIds(before, after)
            <==> (forall d :: d in b ==> !Aborts(d))
                 && forall key :: Reused(a, b, categoryOf, key) ==>
                      SessionKept(a, b, categoryOf, key) && KindKept(a, b, categoryOf, key)
  {
    LongerTranscriptsKeepIds(a, b, categoryOf, first, before, second, after);
    forall key | Reused(a, b, categoryOf, key)
      ensures ReuseKeepsId(a, b, categoryOf, key) <==> SessionKept(a, b, categoryOf, key) && KindKept(a, b, categoryOf, key)
    {
      ReuseApart(a, b, categoryOf, key);
    }
  }

  lemma {:induction false} ReuseApart(a: seq<Decoded>, b: seq<Decoded>, categoryOf: string -> Category, key: string)
    requires SessionsApart(a + b) && PlainUuids(a + b) && Reused(a, b, categoryOf, key)
    ensures ReuseKeepsId(a, b, categoryOf, key) <==> SessionKept(a, b, categoryOf, key) && KindKept(a, b, categoryOf, key)
  {
    var earlier, later := LastUsed(a, categoryOf, key).value, LastUsed(b, categoryOf, key).value;
    var d := RecordOfUse(a, categoryOf, key);
    var e := RecordOfUse(b, categoryOf, key);
    assert d in a + b && e in a + b;
    CallIdsDiffer(earlier, later);
    LastUsedConcat(a, b, categoryOf, key);
    forall x | x in a + b && HasEvent(x) ensures RecordId(x.line) != CallEventId(earlier) {
      PlainIsNotACall(x.line, earlier);
    }
    forall other | LastUsed(a + b, categoryOf, other).Some?
      ensures CallEventId(LastUsed(a + b, categoryOf, other).value) == CallEventId(earlier) ==> other == key
    {
      var x := RecordOfUse(a + b, categoryOf, other);
      CallIdsDiffer(LastUsed(a + b, categoryOf, other).value, earlier);
    }
  }

  /** In a one-session transcript: exactly when no added line aborts the walk, and no
      tool_use id is used again for a tool of the other kind. */
  lemma {:induction false} OneSessionKeepsIds(
      a: seq<Decoded>, b: seq<Decoded>, session: string, categoryOf: string -> Category,
      first: int, before: Emitted<Event>, second: int, after: Emitted<Event>)
    requires InSession(a + b, session) && PlainUuids(a + b)
    requires Normalizes(a, first, categoryOf, before) && before.Emitted?
    requires Normalizes(a + b, second, categoryOf, after)
    ensures KeepsIds(before, after)
            <==> (forall d :: d in b ==> !Aborts(d))
                 && forall key :: Reused(a, b, categoryOf, key) ==> KindKept(a, b, categoryOf, key)
  {
    OneSessionIsApart(a + b, session);
    ApartSessionsKeepIds(a, b, categoryOf, first, before, second, after);
    forall key | Reused(a, b, categoryOf, key) ensures SessionKept(a, b, categoryOf, key) {
      var d := RecordOfUse(a, categoryOf, key);
      var e := RecordOfUse(b, categoryOf, key);
      assert d in a + b && e in a + b;
    }
  }

  // ---- a transcript that loses an id ------------------------------------------

  const SHIPPED: seq<Decoded> := [UseLine("u1", "s", 0, "t", "Bash")]
  const ADDED: seq<Decoded> := [UseLine("u2", "s", 1, "t", "mcp__x__y")]

  /** A tool_use id used first for a plain tool, then for an MCP one: the id emitted for
      the call at first is not emitted again. */
  lemma {:induction false} ReuseLosesId(
      categoryOf: string -> Category, first: int, before: Emitted<Event>, second: int, after: Emitted<Event>)
    requires categoryOf("Bash") != Mcp && categoryOf("mcp__x__y") == Mcp
    requires Normalizes(SHIPPED, first, categoryOf, before) && Normalizes(SHIPPED + ADDED, second, categoryOf, after)
    ensures before.Emitted? && after.Emitted?
    ensures HasId(before.items, "claude:s:toolcall:t") && !HasId(after.items, "claude:s:toolcall:t")
  {
    ReuseIsOfOtherKind(categoryOf);
    BothAreOfOneSession();
    OneSessionIsApart(SHIPPED + ADDED, "claude:s");
    ReuseApart(SHIPPED, ADDED, categoryOf, "t");
    CallIdKept(SHIPPED, ADDED, categoryOf, first, before, second, after, "t");
  }

  lemma {:induction false} BothAreOfOneSession()
    ensures InSession(SHIPPED + ADDED, "claude:s") && PlainUuids(SHIPPED + ADDED)
    ensures forall d :: d in SHIPPED + ADDED ==> !Aborts(d)
  {
    PlainLineIsStructural("u1", "s", 0, [ToolUse("t", "Bash", JNull)]);
    PlainLineIsStructural("u2", "s", 1, [ToolUse("t", "mcp__x__y", JNull)]);
    TrimIsWhole("u1");
    TrimIsWhole("u2");
  }

  lemma {:induction false} ReuseIsOfOtherKind(categoryOf: string -> Category)
    requires categoryOf("Bash") != Mcp && categoryOf("mcp__x__y") == Mcp
    ensures Reused(SHIPPED, ADDED, categoryOf, "t") && !KindKept(SHIPPED, ADDED, categoryOf, "t")
    ensures CallEventId(LastUsed(SHIPPED, categoryOf, "t").value) == "claude:s:toolcall:t"
  {
    OneUse("u1", "s", 0, "t", "Bash", categoryOf, "t");
    OneUse("u2", "s", 1, "t", "mcp__x__y", categoryOf, "t");
    assert SHIPPED[..0] == [] && ADDED[..0] == [];
    assert LastUsed(SHIPPED, categoryOf, "t") == LastInLine(SHIPPED[0], categoryOf, "t");
    assert LastUsed(ADDED, categoryOf, "t") == LastInLine(ADDED[0], categoryOf, "t");
    assert "claude:" + "s" + ":toolcall:" + "t" == "claude:s:toolcall:t";
  }
}

/**
 The passes as the code runs them: loops over a list of message dictionaries that copy lazily,
 write into their copies and never into the history they were given. No method has a
 `modifies` clause for messages, so every dictionary the caller holds keeps its value.
 */
module ContextGovernor {
  import opened Text
  import opened Messages
  import opened HistoryRepair
  import opened BudgetPasses
  import opened HistorySnip
  import opened PreparedHistory

  class MessageDict {
    var v: Message

    constructor (v: Message)
      ensures this.v == v
    {
      this.v := v;
    }
  }

  /** The caller-owned set of tool call ids compacted so far. */
  class IdSet {
    var ids: set<string>

    constructor (ids: set<string>)
      ensures this.ids == ids
    {
      this.ids := ids;
    }
  }

  ghost function Values(ms: seq<MessageDict>): (r: seq<Message>)
    reads ms
    ensures |r| == |ms| && forall i :: 0 <= i < |ms| ==> r[i] == ms[i].v
  {
    seq(|ms|, i requires 0 <= i < |ms| reads ms => ms[i].v)
  }

  /** Pairwise different objects, so that a write through one position changes no other. */
  ghost predicate Unaliased(ms: seq<MessageDict>) {
    forall i, j :: 0 <= i < j < |ms| ==> ms[i] != ms[j]
  }

  /** `[dict(m) for m in messages]` */
  method CopyAll(messages: seq<MessageDict>) returns (copy: seq<MessageDict>)
    ensures Values(copy) == Values(messages) == old(Values(messages))
    ensures Unaliased(copy) && forall i :: 0 <= i < |copy| ==> fresh(copy[i])
  {
    copy := [];
    for i := 0 to |messages|
      invariant |copy| == i && Unaliased(copy) && forall k :: 0 <= k < i ==> fresh(copy[k])
      invariant forall k :: 0 <= k < i ==> copy[k].v == messages[k].v
    {
      var m := new MessageDict(messages[i].v);
      copy := copy + [m];
    }
  }

  lemma ValuesOfAppend(ms: seq<MessageDict>, m: MessageDict)
    ensures Values(ms + [m]) == Values(ms) + [m.v]
  {}

  lemma ValuesOfPrefix(ms: seq<MessageDict>, i: nat)
    requires i <= |ms|
    ensures Values(ms[..i]) == Values(ms)[..i]
  {}

  lemma PlaceholderStep(vs: seq<Message>, i: nat)
    requires i < |vs|
    ensures StripPlaceholders(vs[..i + 1]) ==
            if IsBarePlaceholder(vs[i]) then StripPlaceholders(vs[..i]) else StripPlaceholders(vs[..i]) + [vs[i]]
    ensures vs[..i + 1] == vs[..i] + [vs[i]]
  {
    assert vs[..i + 1][..i] == vs[..i];
  }

  /** `[dict(m) for m in messages[:count]]` */
  method CopyPrefix(messages: seq<MessageDict>, count: nat) returns (copy: seq<MessageDict>)
    requires count <= |messages|
    ensures Values(messages) == old(Values(messages))
    ensures Values(copy) == Values(messages)[..count]
  {
    copy := CopyAll(messages[..count]);
  }

  /** `updated.append(dict)` for a dictionary made on the spot. */
  method AppendNew(updated: seq<MessageDict>, v: Message) returns (r: seq<MessageDict>)
    ensures Values(updated) == old(Values(updated))
    ensures Values(r) == Values(updated) + [v]
  {
    var m := new MessageDict(v);
    r := updated + [m];
  }

  method StripPlaceholderMessages(messages: seq<MessageDict>) returns (updated: seq<MessageDict>)
    ensures Values(messages) == old(Values(messages))
    ensures Values(updated) == StripPlaceholders(Values(messages))
    ensures forall m :: m in updated ==> m in messages
  {
    ghost var vs := Values(messages);
    var copied := false;
    updated := [];
    for i := 0 to |messages|
      invariant forall m :: m in updated ==> m in messages
      invariant (if copied then Values(updated) else vs[..i]) == StripPlaceholders(vs[..i])
    {
      var m := messages[i];
      PlaceholderStep(vs, i);
      ValuesOfAppend(updated, m);
      var text := if m.v.content.Str? then m.v.content.text else "";
      assert |Strip("")| == 0;
      if m.v.role.Assistant? && Strip(text) == PLACEHOLDER_TEXT && m.v.calls == [] {
        if !copied {
          updated, copied := messages[..i], true;
          ValuesOfPrefix(messages, i);
        }
      } else if copied {
        updated := updated + [m];
      }
    }
    assert vs[..|messages|] == vs;
    if !copied {
      updated := messages;
    }
  }

  method KeepNamedCalls(calls: seq<ToolCall>) returns (kept: seq<ToolCall>)
    ensures kept == NamedCalls(calls)
  {
    kept := [];
    for k := 0 to |calls|
      invariant kept == NamedCalls(calls[..k])
    {
      assert calls[..k + 1][..k] == calls[..k];
      if HasValidName(calls[k]) {
        kept := kept + [calls[k]];
      }
    }
    assert calls[..|calls|] == calls;
  }

  lemma MalformedStep(vs: seq<Message>, i: nat, kept: seq<ToolCall>)
    requires i < |vs| && kept == NamedCalls(vs[i].calls)
    ensures vs[..i + 1] == vs[..i] + [vs[i]]
    ensures var before := StripMalformed(vs[..i]);
            StripMalformed(vs[..i + 1]) ==
            if !vs[i].role.Assistant? || vs[i].calls == [] || |kept| == |vs[i].calls| then before + [vs[i]]
            else if kept == [] && !vs[i].content.Truthy() then before
            else before + [vs[i].(calls := kept)]
  {
    assert vs[..i + 1][..i] == vs[..i];
    NamedCallsAreNamed(vs[i].calls);
    assert StripMalformed(vs[..i]) + [] == StripMalformed(vs[..i]);
  }

  lemma NothingMalformed()
    ensures StripMalformed([]) == []
  {}

  /** What a lazily copying loop has produced after `count` messages: its copy, or still the input. */
  ghost function Produced(messages: seq<MessageDict>, count: nat, copied: bool, updated: seq<MessageDict>): seq<Message>
    requires count <= |messages|
    reads messages, updated
  {
    if copied then Values(updated) else Values(messages)[..count]
  }

  /** `updated.append(dict)` once there is a copy; before that the message simply stays in place. */
  method Keep(messages: seq<MessageDict>, count: nat, copied: bool, updated: seq<MessageDict>)
    returns (r: seq<MessageDict>)
    requires count < |messages|
    ensures Values(messages) == old(Values(messages))
    ensures Produced(messages, count + 1, copied, r) ==
            old(Produced(messages, count, copied, updated)) + [Values(messages)[count]]
  {
    r := updated;
    if copied {
      r := AppendNew(updated, messages[count].v);
    }
  }

  /** Start the copy before the first message that is dropped or replaced. */
  method StartCopy(messages: seq<MessageDict>, count: nat, copied: bool, updated: seq<MessageDict>)
    returns (r: seq<MessageDict>)
    requires count <= |messages|
    ensures Values(messages) == old(Values(messages))
    ensures Values(r) == old(Produced(messages, count, copied, updated))
  {
    r := updated;
    if !copied {
      r := CopyPrefix(messages, count);
    }
  }

  /** `messages if updated is None else updated` */
  method CopyOrInput(messages: seq<MessageDict>, copied: bool, updated: seq<MessageDict>) returns (r: seq<MessageDict>)
    ensures Values(messages) == old(Values(messages))
    ensures Values(r) == Produced(messages, |messages|, copied, updated)
  {
    r := if copied then updated else messages;
  }

  method StripMalformedToolCalls(messages: seq<MessageDict>) returns (updated: seq<MessageDict>)
    ensures Values(messages) == old(Values(messages))
    ensures Values(updated) == StripMalformed(Values(messages))
  {
    hide Values, StripMalformed, NamedCalls;
    ghost var vs := Values(messages);
    var copied := false;
    updated := [];
    NothingMalformed();
    assert vs[..0] == [];
    for i := 0 to |messages|
      invariant Values(messages) == vs
      invariant Produced(messages, i, copied, updated) == StripMalformed(vs[..i])
    {
      var m := messages[i].v;
      var kept := KeepNamedCalls(m.calls);
      MalformedStep(vs, i, kept);
      if !m.role.Assistant? || m.calls == [] || |kept| == |m.calls| {
        updated := Keep(messages, i, copied, updated);
      } else {
        updated := StartCopy(messages, i, copied, updated);
        copied := true;
        if kept != [] || m.content.Truthy() {
          updated := AppendNew(updated, m.(calls := kept));
        }
      }
    }
    assert vs[..|messages|] == vs;
    if !copied {
      updated := messages;
    }
  }

  // ----- Pairing repair -----

  lemma IdSetsAdd(a: multiset<string>, b: multiset<string>)
    ensures IdSetOf(a + b) == IdSetOf(a) + IdSetOf(b)
  {}

  lemma DeclaredStep(before: seq<Message>, m: Message)
    ensures IdSetOf(Declared(before + [m])) ==
            IdSetOf(Declared(before)) + (if m.role.Assistant? then IdSetOf(CallIds(m.calls)) else {})
  {
    assert (before + [m])[..|before|] == before;
    IdSetsAdd(Declared(before), DeclaredBy(m));
  }

  lemma FulfilledStep(kept: seq<Message>, m: Message)
    requires m.role.Tool? ==> m.callId != ""
    ensures IdSetOf(Answered(kept + [m])) == IdSetOf(Answered(kept)) + (if m.role.Tool? then {m.callId} else {})
  {
    assert (kept + [m])[..|kept|] == kept;
    IdSetsAdd(Answered(kept), AnsweredBy(m));
  }

  lemma DropStep(vs: seq<Message>, i: nat)
    requires i < |vs|
    ensures vs[..i + 1] == vs[..i] + [vs[i]]
    ensures DropOrphans(vs[..i + 1]) ==
            if Stays(vs[..i], DropOrphans(vs[..i]), vs[i]) then DropOrphans(vs[..i]) + [vs[i]] else DropOrphans(vs[..i])
  {
    assert vs[..i + 1][..i] == vs[..i];
  }

  lemma CallIdsStep(calls: seq<ToolCall>, k: nat)
    requires k < |calls|
    ensures IdSetOf(CallIds(calls[..k + 1])) ==
            IdSetOf(CallIds(calls[..k])) + (if calls[k].Call? && calls[k].id != "" then {calls[k].id} else {})
  {
    assert calls[..k + 1][..k] == calls[..k];
  }

  lemma NoCallIds()
    ensures IdSetOf(CallIds([])) == {}
  {}

  method DeclareCalls(calls: seq<ToolCall>, declared: set<string>) returns (r: set<string>)
    ensures r == declared + IdSetOf(CallIds(calls))
  {
    hide CallIds, IdSetOf;
    r := declared;
    NoCallIds();
    assert calls[..0] == [];
    for k := 0 to |calls|
      invariant r == declared + IdSetOf(CallIds(calls[..k]))
    {
      CallIdsStep(calls, k);
      if calls[k].Call? && calls[k].id != "" {
        r := r + {calls[k].id};
      }
    }
    assert calls[..|calls|] == calls;
  }

  /** The id sets the loop keeps: what was declared so far, and what the kept results answer. */
  ghost predicate Tracked(before: seq<Message>, kept: seq<Message>, declared: set<string>, fulfilled: set<string>) {
    declared == IdSetOf(Declared(before)) && fulfilled == IdSetOf(Answered(kept))
  }

  lemma StaysByIds(
      before: seq<Message>, kept: seq<Message>, m: Message, declared: set<string>, fulfilled: set<string>)
    requires Tracked(before, kept, declared, fulfilled)
    ensures Stays(before, kept, m) <==>
            (m.role.Tool? ==> m.callId != "" && m.callId in declared && m.callId !in fulfilled)
  {
    hide Declared, Answered;
  }

  lemma TrackedKept(before: seq<Message>, kept: seq<Message>, m: Message, declared: set<string>, fulfilled: set<string>)
    requires Tracked(before, kept, declared, fulfilled) && (m.role.Tool? ==> m.callId != "")
    ensures Tracked(before + [m], kept + [m],
                    if m.role.Assistant? then declared + IdSetOf(CallIds(m.calls)) else declared,
                    if m.role.Tool? then fulfilled + {m.callId} else fulfilled)
  {
    hide Declared, Answered, CallIds, IdSetOf;
    DeclaredStep(before, m);
    FulfilledStep(kept, m);
  }

  lemma TrackedDropped(
      before: seq<Message>, kept: seq<Message>, m: Message, declared: set<string>, fulfilled: set<string>)
    requires Tracked(before, kept, declared, fulfilled) && m.role.Tool?
    ensures Tracked(before + [m], kept, declared, fulfilled)
  {
    hide Declared, Answered, CallIds, IdSetOf;
    DeclaredStep(before, m);
  }

  /** The two id sets after one more message, and whether it is an orphan. */
  method TrackIds(
      m: Message, declared: set<string>, fulfilled: set<string>, ghost before: seq<Message>, ghost kept: seq<Message>)
    returns (orphan: bool, declared': set<string>, fulfilled': set<string>)
    requires Tracked(before, kept, declared, fulfilled)
    ensures orphan <==> !Stays(before, kept, m)
    ensures Tracked(before + [m], if orphan then kept else kept + [m], declared', fulfilled')
  {
    hide Tracked, Stays, IdSetOf, CallIds;
    StaysByIds(before, kept, m, declared, fulfilled);
    declared', fulfilled' := declared, fulfilled;
    if m.role.Assistant? {
      declared' := DeclareCalls(m.calls, declared);
    }
    orphan := false;
    if m.role.Tool? {
      orphan := m.callId == "" || m.callId !in declared' || m.callId in fulfilled;
      if !orphan {
        fulfilled' := fulfilled + {m.callId};
      }
    }
    if orphan {
      TrackedDropped(before, kept, m, declared, fulfilled);
    } else {
      TrackedKept(before, kept, m, declared, fulfilled);
    }
  }

  /** One turn of the loop: the message is kept or, if it is an orphan, left out of the copy. */
  method DropOne(messages: seq<MessageDict>, i: nat, declared: set<string>, fulfilled: set<string>, copied: bool,
                 updated: seq<MessageDict>, ghost before: seq<Message>, ghost kept: seq<Message>)
    returns (declared': set<string>, fulfilled': set<string>, copied': bool, updated': seq<MessageDict>)
    requires i < |messages| && Tracked(before, kept, declared, fulfilled)
    requires Produced(messages, i, copied, updated) == kept
    ensures Values(messages) == old(Values(messages))
    ensures var m := Values(messages)[i];
            var kept' := if Stays(before, kept, m) then kept + [m] else kept;
            Tracked(before + [m], kept', declared', fulfilled') && Produced(messages, i + 1, copied', updated') == kept'
  {
    hide Tracked, Stays;
    var orphan;
    orphan, declared', fulfilled' := TrackIds(messages[i].v, declared, fulfilled, before, kept);
    copied' := copied || orphan;
    if orphan {
      updated' := StartCopy(messages, i, copied, updated);
    } else {
      updated' := Keep(messages, i, copied, updated);
    }
  }

  method DropOrphanToolResults(messages: seq<MessageDict>) returns (updated: seq<MessageDict>)
    ensures Values(messages) == old(Values(messages))
    ensures Values(updated) == DropOrphans(Values(messages))
  {
    ghost var vs := Values(messages);
    var declared, fulfilled: set<string> := {}, {};
    var copied := false;
    updated := [];
    assert vs[..0] == [] && DropOrphans([]) == [] && Tracked([], [], declared, fulfilled);
    assert Produced(messages, 0, copied, updated) == [];
    hide DropOrphans, Tracked, Stays, Values, Produced;
    for i := 0 to |messages|
      invariant Values(messages) == vs
      invariant Tracked(vs[..i], DropOrphans(vs[..i]), declared, fulfilled)
      invariant Produced(messages, i, copied, updated) == DropOrphans(vs[..i])
    {
      declared, fulfilled, copied, updated :=
        DropOne(messages, i, declared, fulfilled, copied, updated, vs[..i], DropOrphans(vs[..i]));
      DropStep(vs, i);
    }
    assert vs[..|messages|] == vs;
    updated := CopyOrInput(messages, copied, updated);
  }

  method CollectCallGaps(at: nat, calls: seq<ToolCall>) returns (gaps: seq<Gap>)
    ensures gaps == CallGaps(at, calls)
  {
    gaps := [];
    for k := 0 to |calls|
      invariant gaps == CallGaps(at, calls[..k])
    {
      assert calls[..k + 1][..k] == calls[..k];
      if calls[k].Call? && calls[k].id != "" {
        gaps := gaps + [Gap(at, calls[k].id, BackfillName(calls[k]))];
      }
    }
    assert calls[..|calls|] == calls;
  }

  lemma DeclaredGapsStep(vs: seq<Message>, i: nat)
    requires i < |vs|
    ensures DeclaredGaps(vs[..i + 1]) == DeclaredGaps(vs[..i]) + GapsOf(i, vs[i])
    ensures Answered(vs[..i + 1]) == Answered(vs[..i]) + AnsweredBy(vs[i])
  {
    assert vs[..i + 1][..i] == vs[..i];
  }

  /** The first two loops of back-filling: the calls without a result, in history order. */
  method CollectMissing(messages: seq<MessageDict>) returns (missing: seq<Gap>)
    ensures missing == MissingResults(Values(messages))
  {
    ghost var vs := Values(messages);
    var declared: seq<Gap>, fulfilled: set<string> := [], {};
    for i := 0 to |messages|
      invariant declared == DeclaredGaps(vs[..i])
      invariant forall id :: id in fulfilled <==> id in Answered(vs[..i])
    {
      DeclaredGapsStep(vs, i);
      var m := messages[i].v;
      if m.role.Assistant? {
        var gaps := CollectCallGaps(i, m.calls);
        declared := declared + gaps;
      } else if m.role.Tool? && m.callId != "" {
        fulfilled := fulfilled + {m.callId};
      }
    }
    assert vs[..|messages|] == vs;
    missing := [];
    for k := 0 to |declared|
      invariant missing == Unanswered(declared[..k], Answered(vs))
    {
      assert declared[..k + 1][..k] == declared[..k];
      if declared[k].id !in fulfilled {
        missing := missing + [declared[k]];
      }
    }
    assert declared[..|declared|] == declared;
  }

  lemma InsertionAt(vs: seq<Message>, gaps: seq<Gap>, k: nat) returns (q: nat)
    requires GapsFit(vs, gaps) && k < |gaps|
    ensures var filled := Fill(vs, 0, gaps[..k]);
            && q <= |filled| && IsRunEnd(filled, gaps[k].at + 1 + k, q)
            && Fill(vs, 0, gaps[..k + 1]) == InsertedAt(filled, q, Synthetic(gaps[k]))
  {
    assert gaps[..k + 1] == gaps[..k] + [gaps[k]];
    assert Fits(vs, gaps[k]);
    assert forall g :: g in gaps[..k] ==> g in gaps && Fits(vs, g);
    q := OneMoreGap(vs, gaps[..k], gaps[k]);
  }

  lemma RunEndIsUnique(ms: seq<Message>, i: int, q: int, r: int)
    requires IsRunEnd(ms, i, q) && IsRunEnd(ms, i, r)
    ensures q == r
  {}

  method SkipToolRun(updated: seq<MessageDict>, start: nat) returns (insertAt: nat)
    requires start <= |updated|
    ensures insertAt <= |updated| && IsRunEnd(Values(updated), start, insertAt)
  {
    insertAt := start;
    while insertAt < |updated| && updated[insertAt].v.role.Tool?
      invariant start <= insertAt <= |updated|
      invariant forall k :: start <= k < insertAt ==> updated[k].v.role.Tool?
    {
      insertAt := insertAt + 1;
    }
  }

  lemma ValuesOfInsert(ms: seq<MessageDict>, q: nat, m: MessageDict)
    requires q <= |ms|
    ensures Values(ms[..q] + [m] + ms[q..]) == InsertedAt(Values(ms), q, m.v)
  {}

  /** `updated.insert(insert_at, ...)` for one missing result, `offset` of them having been inserted before. */
  method InsertOne(updated: seq<MessageDict>, missing: seq<Gap>, offset: nat, ghost vs: seq<Message>)
    returns (r: seq<MessageDict>)
    requires GapsFit(vs, missing) && offset < |missing| && Values(updated) == Fill(vs, 0, missing[..offset])
    ensures Values(r) == Fill(vs, 0, missing[..offset + 1])
    ensures forall m :: m in r ==> m in updated || fresh(m)
  {
    hide Fill, GapsFit, IsRunEnd, InsertedAt, Values;
    ghost var q := InsertionAt(vs, missing, offset);
    var insertAt := SkipToolRun(updated, missing[offset].at + 1 + offset);
    RunEndIsUnique(Values(updated), missing[offset].at + 1 + offset, q, insertAt);
    var synthetic := new MessageDict(Synthetic(missing[offset]));
    ValuesOfInsert(updated, insertAt, synthetic);
    r := updated[..insertAt] + [synthetic] + updated[insertAt..];
  }

  method BackfillMissingToolResults(messages: seq<MessageDict>) returns (updated: seq<MessageDict>)
    ensures Values(messages) == old(Values(messages))
    ensures Values(updated) == Backfill(Values(messages))
    ensures forall m :: m in updated ==> m in messages || fresh(m)
  {
    ghost var vs := Values(messages);
    var missing := CollectMissing(messages);
    FillNothing(vs, 0, []);
    updated := messages;
    if missing == [] {
      return;
    }
    MissingResultsFit(vs);
    hide Fill, GapsFit, MissingResults, Values;
    var offset := 0;
    while offset < |missing|
      invariant 0 <= offset <= |missing| && Values(messages) == vs
      invariant Values(updated) == Fill(vs, 0, missing[..offset])
      invariant forall m :: m in updated ==> m in messages || fresh(m)
    {
      updated := InsertOne(updated, missing, offset, vs);
      offset := offset + 1;
    }
    assert missing[..|missing|] == missing;
  }

  // ----- Ageing and normalising -----

  lemma ToolCountStep(vs: seq<Message>, i: nat)
    requires i < |vs|
    ensures ToolCount(vs[..i + 1]) == ToolCount(vs[..i]) + (if vs[i].role.Tool? then 1 else 0)
  {
    assert vs[..i + 1][..i] == vs[..i];
  }

  /** The positions of the tool results among the first `count` messages, oldest first. */
  ghost predicate AreToolPositions(vs: seq<Message>, count: nat, positions: seq<nat>)
    requires count <= |vs|
  {
    && |positions| == ToolCount(vs[..count])
    && (forall k :: 0 <= k < |positions| ==> IsToolAt(vs, count, positions[k], k))
    && (forall j :: 0 <= j < count && vs[j].role.Tool? ==> j in positions)
  }

  /** Position `j` holds a tool result with `k` tool results before it. */
  ghost predicate IsToolAt(vs: seq<Message>, count: nat, j: nat, k: nat)
    requires count <= |vs|
  {
    j < count && vs[j].role.Tool? && ToolCount(vs[..j + 1]) == k + 1
  }

  lemma {:induction false} OneMorePosition(vs: seq<Message>, i: nat, positions: seq<nat>)
    requires i < |vs| && AreToolPositions(vs, i, positions)
    ensures AreToolPositions(vs, i + 1, if vs[i].role.Tool? then positions + [i] else positions)
  {
    ToolCountStep(vs, i);
    hide ToolCount;
    var after := if vs[i].role.Tool? then positions + [i] else positions;
    forall k | 0 <= k < |after|
      ensures IsToolAt(vs, i + 1, after[k], k)
    {
      assert k < |positions| ==> IsToolAt(vs, i, positions[k], k);
    }
    forall j | 0 <= j < i + 1 && vs[j].role.Tool?
      ensures j in after
    {
      assert j < i ==> j in positions;
      assert j == i ==> after[|positions|] == i;
    }
  }

  lemma {:induction false} OldPositionsAgedOut(vs: seq<Message>, positions: seq<nat>, i: nat)
    requires AreToolPositions(vs, |vs|, positions) && i < |vs|
    ensures AgedOut(vs, i) <==>
            |positions| > RECENT_TOOL_RESULTS_KEPT && i in positions[..|positions| - RECENT_TOOL_RESULTS_KEPT]
  {
    assert vs[..|vs|] == vs;
    if vs[i].role.Tool? {
      var k :| 0 <= k < |positions| && positions[k] == i;
      assert AgedOut(vs, i) <==> |positions| - (k + 1) >= RECENT_TOOL_RESULTS_KEPT;
      if k < |positions| - RECENT_TOOL_RESULTS_KEPT {
        assert positions[..|positions| - RECENT_TOOL_RESULTS_KEPT][k] == i;
      }
    }
  }

  lemma NoPositions(vs: seq<Message>)
    ensures AreToolPositions(vs, 0, [])
  {}

  method AgedOutIndices(messages: seq<MessageDict>) returns (aged: seq<nat>)
    ensures forall i: nat :: i < |messages| ==> (i in aged <==> AgedOut(Values(messages), i))
  {
    hide AreToolPositions, AgedOut, ToolCount, Values;
    ghost var vs := Values(messages);
    var positions: seq<nat> := [];
    NoPositions(vs);
    for i := 0 to |messages|
      invariant AreToolPositions(vs, i, positions)
    {
      OneMorePosition(vs, i, positions);
      if messages[i].v.role.Tool? {
        positions := positions + [i];
      }
    }
    aged := if |positions| <= RECENT_TOOL_RESULTS_KEPT then [] else positions[..|positions| - RECENT_TOOL_RESULTS_KEPT];
    OldestAgedOut(vs, positions, aged);
  }

  lemma OldestAgedOut(vs: seq<Message>, positions: seq<nat>, aged: seq<nat>)
    requires AreToolPositions(vs, |vs|, positions)
    requires aged == if |positions| <= RECENT_TOOL_RESULTS_KEPT then []
                     else positions[..|positions| - RECENT_TOOL_RESULTS_KEPT]
    ensures forall i: nat :: i < |vs| ==> (i in aged <==> AgedOut(vs, i))
  {
    hide AreToolPositions, AgedOut;
    forall i: nat | i < |vs|
      ensures i in aged <==> AgedOut(vs, i)
    {
      OldPositionsAgedOut(vs, positions, i);
    }
  }

  /** A copy that shares no dictionary with `messages` and holds no dictionary twice. */
  ghost predicate IsPrivate(messages: seq<MessageDict>, updated: seq<MessageDict>) {
    Unaliased(updated) && forall k :: 0 <= k < |updated| ==> updated[k] !in messages
  }

  /**
   `updated[idx]["content"] = content` if that changes anything, after copying the whole list
   if it is still the caller's own. Only a dictionary outside `messages` is ever written.
   */
  method WriteContent(messages: seq<MessageDict>, copied: bool, updated: seq<MessageDict>, idx: nat, content: Content)
    returns (copied': bool, r: seq<MessageDict>)
    requires idx < |updated| && if copied then IsPrivate(messages, updated) else updated == messages
    modifies if copied then {updated[idx]} else {}
    ensures Values(messages) == old(Values(messages))
    ensures Values(r) == old(Values(updated))[idx := old(updated[idx].v).(content := content)]
    ensures if copied' then IsPrivate(messages, r) else r == messages
    ensures copied ==> copied' && r == updated
    ensures copied' && !copied ==> forall k :: 0 <= k < |r| ==> fresh(r[k])
  {
    copied', r := copied, updated;
    if content != updated[idx].v.content {
      if !copied {
        r := CopyAll(messages);
        copied' := true;
      }
      r[idx].v := r[idx].v.(content := content);
    }
  }

  /** The list is still the input, or a private copy made of our own dictionaries. */
  ghost predicate Ours(messages: seq<MessageDict>, own: bool, r: seq<MessageDict>, mine: set<MessageDict>) {
    if own then IsPrivate(messages, r) && forall m :: m in r ==> m in mine else r == messages
  }

  lemma OursIsPrivate(messages: seq<MessageDict>, own: bool, r: seq<MessageDict>, mine: set<MessageDict>)
    requires Ours(messages, own, r, mine)
    ensures if own then IsPrivate(messages, r) else r == messages
    ensures own ==> forall k :: 0 <= k < |r| ==> r[k] in mine
  {}

  /** `WriteContent` for a list that is the input or our own. */
  method WriteOurs(
      messages: seq<MessageDict>, own: bool, r: seq<MessageDict>, idx: nat, content: Content,
      ghost mine: set<MessageDict>)
    returns (own': bool, r': seq<MessageDict>, ghost mine': set<MessageDict>)
    requires idx < |r| && Ours(messages, own, r, mine)
    modifies mine
    ensures Values(messages) == old(Values(messages))
    ensures Values(r') == old(Values(r))[idx := old(r[idx].v).(content := content)]
    ensures Ours(messages, own', r', mine') && fresh(mine' - mine)
  {
    hide IsPrivate, Values;
    mine' := mine;
    own', r' := WriteContent(messages, own, r, idx, content);
    if own' && !own {
      mine' := mine + set m | m in r';
    }
  }

  /** `ms` with the first `count` contents taken from `target`, which differs from it in contents only. */
  function Rewritten(ms: seq<Message>, target: seq<Message>, count: nat): seq<Message>
    requires count <= |ms| == |target|
  {
    target[..count] + ms[count..]
  }

  lemma RewriteStep(ms: seq<Message>, target: seq<Message>, i: nat)
    requires i < |ms| == |target|
    ensures Rewritten(ms, target, i + 1) == Rewritten(ms, target, i)[i := target[i]]
    ensures Rewritten(ms, target, i)[i] == ms[i]
    ensures target[i] == ms[i] ==> Rewritten(ms, target, i + 1) == Rewritten(ms, target, i)
  {}

  lemma RewriteEnds(ms: seq<Message>, target: seq<Message>)
    requires |ms| == |target|
    ensures Rewritten(ms, target, 0) == ms && Rewritten(ms, target, |ms|) == target
  {}

  function BudgetedWith(config: Config, aged: seq<nat>, ms: seq<Message>): (r: seq<Message>)
    ensures |r| == |ms|
    ensures forall i :: 0 <= i < |ms| ==> r[i] == ms[i].(content := BudgetedContent(config, i in aged, i, ms[i]))
  {
    seq(|ms|, i requires 0 <= i < |ms| => ms[i].(content := BudgetedContent(config, i in aged, i, ms[i])))
  }

  method RewriteToolResults(config: Config, messages: seq<MessageDict>, aged: seq<nat>)
    returns (updated: seq<MessageDict>)
    ensures Values(messages) == old(Values(messages))
    ensures Values(updated) == BudgetedWith(config, aged, Values(messages))
  {
    ghost var vs := Values(messages);
    ghost var target := BudgetedWith(config, aged, vs);
    updated := messages;
    var copied := false;
    ghost var mine: set<MessageDict> := {};
    RewriteEnds(vs, target);
    assert Ours(messages, copied, updated, mine);
    hide Values, Ours, Rewritten, BudgetedContent;
    for i := 0 to |messages|
      invariant |updated| == |messages| && Ours(messages, copied, updated, mine) && fresh(mine)
      invariant Values(messages) == vs
      invariant Values(updated) == Rewritten(vs, target, i)
    {
      RewriteStep(vs, target, i);
      var content := BudgetedContent(config, i in aged, i, messages[i].v);
      copied, updated, mine := WriteOurs(messages, copied, updated, i, content, mine);
    }
  }

  method ApplyToolResultBudget(config: Config, messages: seq<MessageDict>) returns (updated: seq<MessageDict>)
    ensures Values(messages) == old(Values(messages))
    ensures Values(updated) == Budgeted(config, Values(messages))
  {
    var aged := AgedOutIndices(messages);
    updated := RewriteToolResults(config, messages, aged);
  }

  // ----- In-flight compaction -----

  /** One message: its content becomes the notice when its id is recorded. */
  method RecompactOne(
      config: Config, messages: seq<MessageDict>, own: bool, r: seq<MessageDict>, i: nat, ids: set<string>,
      ghost mine: set<MessageDict>, ghost target: seq<Message>)
    returns (own': bool, r': seq<MessageDict>, ghost mine': set<MessageDict>)
    requires target == Recompacted(config, Values(messages), ids)
    requires i < |r| == |messages| && Ours(messages, own, r, mine)
    requires Values(r) == Rewritten(Values(messages), target, i)
    modifies mine
    ensures Values(messages) == old(Values(messages))
    ensures Values(r') == Rewritten(Values(messages), target, i + 1)
    ensures Ours(messages, own', r', mine') && fresh(mine' - mine)
  {
    hide Values, Ours, Rewritten;
    RewriteStep(Values(messages), target, i);
    own', r', mine' := own, r, mine;
    var m := messages[i].v;
    if m.role.Tool? && m.callId != "" && m.callId in ids {
      own', r', mine' := WriteOurs(messages, own, r, i, Str(config.notice(m)), mine);
    }
  }

  method ApplyRecordedCompactions(config: Config, messages: seq<MessageDict>, ids: set<string>)
    returns (copied: bool, updated: seq<MessageDict>)
    ensures Values(messages) == old(Values(messages))
    ensures Values(updated) == Recompacted(config, Values(messages), ids)
    ensures if copied then IsPrivate(messages, updated) else updated == messages
    ensures copied ==> forall k :: 0 <= k < |updated| ==> fresh(updated[k])
  {
    ghost var vs := Values(messages);
    ghost var target := Recompacted(config, vs, ids);
    copied, updated := false, messages;
    ghost var mine: set<MessageDict> := {};
    RewriteEnds(vs, target);
    assert Ours(messages, copied, updated, mine);
    hide Values, Ours, Rewritten, IsPrivate, Recompacted;
    for i := 0 to |messages|
      invariant |updated| == |messages| && Ours(messages, copied, updated, mine) && fresh(mine)
      invariant Values(messages) == vs
      invariant Values(updated) == Rewritten(vs, target, i)
    {
      copied, updated, mine := RecompactOne(config, messages, copied, updated, i, ids, mine, target);
    }
    OursIsPrivate(messages, copied, updated, mine);
  }

  lemma CandidatesStep(config: Config, vs: seq<Message>, ids: set<string>, i: nat)
    requires i < |vs|
    ensures Candidates(config, vs[..i + 1], ids) ==
            if IsCandidate(config, i, vs[i], ids) then Candidates(config, vs[..i], ids) + [i]
                else Candidates(config, vs[..i], ids)
  {
    assert vs[..i + 1][..i] == vs[..i];
  }

  method InflightCompactionCandidates(config: Config, messages: seq<MessageDict>, ids: set<string>)
    returns (compactable: seq<nat>)
    ensures compactable == Candidates(config, Values(messages), ids)
  {
    ghost var vs := Values(messages);
    compactable := [];
    for i := 0 to |messages|
      invariant compactable == Candidates(config, vs[..i], ids)
    {
      CandidatesStep(config, vs, ids, i);
      if IsCandidate(config, i, messages[i].v, ids) {
        compactable := compactable + [i];
      }
    }
    assert vs[..|messages|] == vs;
  }

  /**
   The list and the recorded ids are what they are once `k` candidates have been visited, and
   nothing stopped the loop.
   */
  ghost predicate Visiting(config: Config, base: seq<Message>, candidates: seq<nat>, ids: set<string>, k: nat,
      now: seq<Message>, seen: set<string>)
    requires InRange(base, candidates) && k <= |candidates|
  {
    && now == AfterVisits(config, base, candidates, ids, k)
    && seen == IdsAfter(base, candidates, ids, k)
    && VisitsFrom(config, base, candidates, ids, 0) == VisitsFrom(config, base, candidates, ids, k)
  }

  /** One more candidate: passed over when its id is recorded, compacted otherwise. */
  lemma VisitOne(
      config: Config, base: seq<Message>, candidates: seq<nat>, ids: set<string>, k: nat, now: seq<Message>,
      seen: set<string>)
    requires InRange(base, candidates) && k < |candidates| && Visiting(config, base, candidates, ids, k, now, seen)
    requires !StopsAfter(config, base, candidates, ids, k)
    ensures |now| == |base|
    ensures var c := candidates[k];
            if now[c].callId in seen then Visiting(config, base, candidates, ids, k + 1, now, seen)
            else Visiting(config, base, candidates, ids, k + 1, now[c := Compacted(config, now[c])],
                seen + {now[c].callId})
  {
    VisitedIdRecorded(config, base, candidates, ids, k, candidates[k]);
    assert now[candidates[k]].callId == base[candidates[k]].callId;
  }

  /** The two tests of the loop, on the estimate for the current list. */
  predicate MayStop(config: Config, count: nat, k: nat, estimate: nat) {
    || k == count
    || (k > 0 && estimate <= CompactTarget(InputBudget(config)))
    || (k == count - 1 && estimate <= InputBudget(config))
  }

  lemma StopTests(
      config: Config, base: seq<Message>, candidates: seq<nat>, ids: set<string>, k: nat, now: seq<Message>,
      seen: set<string>)
    requires InRange(base, candidates) && k <= |candidates| && Visiting(config, base, candidates, ids, k, now, seen)
    ensures StopsAfter(config, base, candidates, ids, k) <==> MayStop(config, |candidates|, k, config.promptTokens(now))
  {
  }

  /** Where the loop stops, the model stops. */
  lemma StopHere(
      config: Config, base: seq<Message>, candidates: seq<nat>, ids: set<string>, k: nat, now: seq<Message>,
      seen: set<string>)
    requires InRange(base, candidates) && k <= |candidates| && Visiting(config, base, candidates, ids, k, now, seen)
    requires MayStop(config, |candidates|, k, config.promptTokens(now))
    ensures var visits := VisitsFrom(config, base, candidates, ids, 0);
            now == AfterVisits(config, base, candidates, ids, visits) && seen == IdsAfter(base, candidates, ids, visits)
  {
  }

  /** Record one id and replace that result's content by the notice. */
  method CompactOne(
      config: Config, messages: seq<MessageDict>, copied: bool, updated: seq<MessageDict>, idx: nat, compacted: IdSet)
    returns (copied': bool, r: seq<MessageDict>)
    requires idx < |updated| && if copied then IsPrivate(messages, updated) else updated == messages
    modifies compacted, if copied then {updated[idx]} else {}
    ensures Values(messages) == old(Values(messages))
    ensures compacted.ids == old(compacted.ids) + {old(updated[idx].v.callId)}
    ensures Values(r) == old(Values(updated))[idx := Compacted(config, old(updated[idx].v))]
    ensures if copied' then IsPrivate(messages, r) else r == messages
    ensures copied ==> copied' && r == updated
    ensures copied' && !copied ==> forall k :: 0 <= k < |r| ==> fresh(r[k])
  {
    compacted.ids := compacted.ids + {updated[idx].v.callId};
    copied', r := WriteContent(messages, copied, updated, idx, Str(config.notice(updated[idx].v)));
  }

  /** Visit one candidate: pass it over when its id is recorded, compact it otherwise. */
  method VisitCandidate(
      config: Config, messages: seq<MessageDict>, own: bool, r: seq<MessageDict>, candidates: seq<nat>, k: nat,
      compacted: IdSet, ghost mine: set<MessageDict>, ghost base: seq<Message>, ghost ids: set<string>)
    returns (skipped: bool, own': bool, r': seq<MessageDict>, estimate: nat, ghost mine': set<MessageDict>)
    requires InRange(base, candidates) && k < |candidates| && |r| == |base|
    requires Ours(messages, own, r, mine)
    requires Visiting(config, base, candidates, ids, k, Values(r), compacted.ids) &&
        !StopsAfter(config, base, candidates, ids, k)
    modifies compacted, mine
    ensures Values(messages) == old(Values(messages))
    ensures Ours(messages, own', r', mine') && fresh(mine' - mine)
    ensures skipped ==>
        old(Values(r))[candidates[k]].callId in old(compacted.ids) && estimate == config.promptTokens(old(Values(r)))
    ensures estimate == config.promptTokens(Values(r'))
    ensures |r'| == |base| && Visiting(config, base, candidates, ids, k + 1, Values(r'), compacted.ids)
  {
    VisitOne(config, base, candidates, ids, k, Values(r), compacted.ids);
    hide Visiting, StopsAfter, IsPrivate;
    skipped, own', r', mine' := r[candidates[k]].v.callId in compacted.ids, own, r, mine;
    if !skipped {
      own', r' := CompactOne(config, messages, own, r, candidates[k], compacted);
      if own' && !own {
        mine' := mine + set m | m in r';
      }
    }
    estimate := EstimatePrompt(config, r');
  }

  /** The compaction loop, from a request that is over budget. */
  method CompactCandidates(config: Config, messages: seq<MessageDict>, copied: bool, updated: seq<MessageDict>,
                           candidates: seq<nat>, compacted: IdSet)
    returns (r: seq<MessageDict>)
    requires if copied then IsPrivate(messages, updated) else updated == messages
    requires InRange(Values(updated), candidates) && InputBudget(config) > 0
    requires candidates != [] ==> Values(updated)[candidates[0]].callId !in compacted.ids
    modifies compacted, if copied then updated else []
    ensures Values(messages) == old(Values(messages))
    ensures var base, ids := old(Values(updated)), old(compacted.ids);
            var k := VisitsFrom(config, base, candidates, ids, 0);
            Values(r) == AfterVisits(config, base, candidates, ids, k) &&
                compacted.ids == IdsAfter(base, candidates, ids, k)
  {
    ghost var vs, base, ids := Values(messages), Values(updated), compacted.ids;
    var budget := InputBudget(config);
    var target := CompactTarget(budget);
    r := updated;
    var own := copied;
    var estimate := EstimatePrompt(config, r);
    assert Visiting(config, base, candidates, ids, 0, base, ids);
    ghost var given: set<MessageDict> := if copied then set m | m in updated else {};
    ghost var mine := given;
    assert Ours(messages, own, r, mine);
    hide AfterVisits, IdsAfter, VisitsFrom, Visiting, StopsAfter, Ours, Values, CompactTarget, InputBudget, InRange,
        IsPrivate;
    var k, stopped := 0, false;
    while k < |candidates| && !stopped
      invariant 0 <= k <= |candidates|
      invariant Ours(messages, own, r, mine) && fresh(mine - given)
      invariant Values(messages) == vs
      invariant |r| == |base| && Visiting(config, base, candidates, ids, k, Values(r), compacted.ids)
      invariant estimate == config.promptTokens(Values(r))
      invariant k == 0 ==> Values(r) == base && compacted.ids == ids
      invariant if stopped then MayStop(config, |candidates|, k, estimate) else k > 0 ==> estimate > target
      decreases |candidates| - k, !stopped
    {
      if k == |candidates| - 1 && estimate <= budget {
        stopped := true;
      } else {
        StopTests(config, base, candidates, ids, k, Values(r), compacted.ids);
        var skipped;
        skipped, own, r, estimate, mine :=
          VisitCandidate(config, messages, own, r, candidates, k, compacted, mine, base, ids);
        k := k + 1;
        stopped := !skipped && estimate <= target;
      }
    }
    StopHere(config, base, candidates, ids, k, Values(r), compacted.ids);
  }

  method CompactInflightOverflow(config: Config, messages: seq<MessageDict>, compacted: IdSet)
    returns (updated: seq<MessageDict>)
    modifies compacted
    ensures Values(messages) == old(Values(messages))
    ensures Compaction(Values(updated), compacted.ids) ==
            CompactInflight(config, Values(messages), old(compacted.ids))
  {
    if InputBudget(config) <= 0 {
      return messages;
    }
    var copied;
    copied, updated := ApplyRecordedCompactions(config, messages, compacted.ids);
    var estimate := EstimatePrompt(config, updated);
    if estimate > InputBudget(config) {
      var candidates := InflightCompactionCandidates(config, updated, compacted.ids);
      updated := CompactCandidates(config, messages, copied, updated, candidates, compacted);
    }
  }

  method EstimatePrompt(config: Config, messages: seq<MessageDict>) returns (estimate: nat)
    ensures estimate == config.promptTokens(Values(messages))
  {
    var values: seq<Message> := [];
    for i := 0 to |messages|
      invariant values == Values(messages[..i])
    {
      ValuesOfAppend(messages[..i], messages[i]);
      assert messages[..i + 1] == messages[..i] + [messages[i]];
      values := values + [messages[i].v];
    }
    assert messages[..|messages|] == messages;
    estimate := config.promptTokens(values);
  }

  // ----- Cutting a prefix -----

  lemma FilterStep(vs: seq<Message>, i: nat)
    requires i < |vs|
    ensures Systems(vs[..i + 1]) == if vs[i].role.System? then Systems(vs[..i]) + [vs[i]] else Systems(vs[..i])
    ensures NonSystem(vs[..i + 1]) == if vs[i].role.System? then NonSystem(vs[..i]) else NonSystem(vs[..i]) + [vs[i]]
  {
    assert vs[..i + 1][..i] == vs[..i];
  }

  /** `[dict(m) for m in messages if (m["role"] == "system") is wanted]` */
  method CopyByRole(messages: seq<MessageDict>, systems: bool) returns (r: seq<MessageDict>)
    ensures Values(messages) == old(Values(messages))
    ensures Values(r) == if systems then Systems(Values(messages)) else NonSystem(Values(messages))
  {
    ghost var vs := Values(messages);
    r := [];
    for i := 0 to |messages|
      invariant Values(messages) == vs
      invariant Values(r) == if systems then Systems(vs[..i]) else NonSystem(vs[..i])
    {
      FilterStep(vs, i);
      if messages[i].v.role.System? == systems {
        r := AppendNew(r, messages[i].v);
      }
    }
    assert vs[..|messages|] == vs;
  }

  method SumTokens(config: Config, messages: seq<MessageDict>) returns (tokens: nat)
    ensures tokens == TokenSum(config, Values(messages))
  {
    ghost var vs := Values(messages);
    tokens := 0;
    for i := 0 to |messages|
      invariant tokens == TokenSum(config, vs[..i])
    {
      assert vs[..i + 1][..i] == vs[..i];
      tokens := tokens + config.messageTokens(messages[i].v);
    }
    assert vs[..|messages|] == vs;
  }

  lemma OneMoreMessage(config: Config, vs: seq<Message>, s: nat)
    requires 0 < s <= |vs|
    ensures TokenSum(config, vs[s - 1..]) == TokenSum(config, vs[s..]) + config.messageTokens(vs[s - 1])
  {
    assert vs[s - 1..] == [vs[s - 1]] + vs[s..];
    SumSplits(config, [vs[s - 1]], vs[s..]);
    assert [vs[s - 1]][..0] == [];
  }

  /** What the backward scan knows when it has kept the suffix from `s` on. */
  ghost predicate Fitting(config: Config, vs: seq<Message>, budget: nat, s: nat, tokens: nat) {
    s <= |vs| && tokens == TokenSum(config, vs[s..]) &&
        FitStart(config, vs, budget, |vs|) == FitStart(config, vs, budget, s)
  }

  lemma FittingStarts(config: Config, vs: seq<Message>, budget: nat)
    ensures Fitting(config, vs, budget, |vs|, 0)
  {
  }

  /** The next message back is kept when it is the last one or still fits, and ends the scan otherwise. */
  lemma FittingNext(config: Config, vs: seq<Message>, budget: nat, s: nat, tokens: nat)
    requires Fitting(config, vs, budget, s, tokens) && s > 0
    ensures var more := tokens + config.messageTokens(vs[s - 1]);
            if s < |vs| && more > budget then FitStart(config, vs, budget, |vs|) == s
            else Fitting(config, vs, budget, s - 1, more)
  {
    OneMoreMessage(config, vs, s);
  }

  lemma FittingEnds(config: Config, vs: seq<Message>, budget: nat, tokens: nat)
    requires Fitting(config, vs, budget, 0, tokens)
    ensures FitStart(config, vs, budget, |vs|) == 0
  {
  }

  /** The greedy backward scan; `kept` grows at its front where the code appends and reverses. */
  method ScanBackwards(config: Config, nonSystem: seq<MessageDict>, remaining: nat) returns (kept: seq<MessageDict>)
    ensures kept == nonSystem[FitStart(config, Values(nonSystem), remaining, |nonSystem|)..]
  {
    ghost var vs := Values(nonSystem);
    var s, keptTokens: nat := |nonSystem|, 0;
    kept := [];
    FittingStarts(config, vs, remaining);
    hide Fitting, FitStart;
    while s > 0
      invariant 0 <= s <= |nonSystem|
      invariant kept == nonSystem[s..]
      invariant Fitting(config, vs, remaining, s, keptTokens)
    {
      var tokens := config.messageTokens(nonSystem[s - 1].v);
      FittingNext(config, vs, remaining, s, keptTokens);
      if kept != [] && keptTokens + tokens > remaining {
        return;
      }
      kept := [nonSystem[s - 1]] + kept;
      keptTokens := keptTokens + tokens;
      s := s - 1;
    }
    FittingEnds(config, vs, remaining, keptTokens);
  }

  method UserTail(messages: seq<MessageDict>) returns (tail: seq<MessageDict>)
    ensures tail == messages[FirstUser(Values(messages), 0)..]
  {
    ghost var vs := Values(messages);
    for i := 0 to |messages|
      invariant FirstUser(vs, 0) == FirstUser(vs, i)
    {
      if messages[i].v.role.User? {
        return messages[i..];
      }
    }
    tail := [];
  }

  method LastUserTail(messages: seq<MessageDict>) returns (tail: seq<MessageDict>)
    ensures tail == messages[LastUser(Values(messages))..]
  {
    ghost var vs := Values(messages);
    var i := |messages|;
    while i > 0
      invariant 0 <= i <= |messages|
      invariant forall k :: i <= k < |messages| ==> !vs[k].role.User?
    {
      i := i - 1;
      if messages[i].v.role.User? {
        return messages[i..];
      }
    }
    tail := [];
  }

  lemma LegalStartStep(vs: seq<Message>, i: nat)
    requires i < |vs|
    ensures var s := LegalStart(vs[..i]);
            LegalStart(vs[..i + 1]) ==
            if vs[i].role.Tool? && vs[i].callId != "" && vs[i].callId !in Declared(vs[s..i]) then i + 1 else s
  {
    assert vs[..i + 1][..i] == vs[..i];
    assert vs[..i][LegalStart(vs[..i])..] == vs[LegalStart(vs[..i])..i];
  }

  lemma DeclaredSince(vs: seq<Message>, s: nat, i: nat)
    requires s <= i < |vs|
    ensures IdSetOf(Declared(vs[s..i + 1])) ==
            IdSetOf(Declared(vs[s..i])) + (if vs[i].role.Assistant? then IdSetOf(CallIds(vs[i].calls)) else {})
  {
    assert vs[s..i + 1] == vs[s..i] + [vs[i]];
    DeclaredStep(vs[s..i], vs[i]);
  }

  /** What the search for a legal start knows after `i` messages. */
  ghost predicate Scanned(vs: seq<Message>, i: nat, start: nat, declared: set<string>) {
    start <= i <= |vs| && start == LegalStart(vs[..i]) && declared == IdSetOf(Declared(vs[start..i]))
  }

  lemma ScanStart(vs: seq<Message>)
    ensures Scanned(vs, 0, 0, {})
  {
    assert vs[..0] == [] && vs[0..0] == [];
  }

  lemma ScanNext(vs: seq<Message>, i: nat, start: nat, declared: set<string>)
    requires i < |vs| && Scanned(vs, i, start, declared)
    ensures if vs[i].role.Assistant? then Scanned(vs, i + 1, start, declared + IdSetOf(CallIds(vs[i].calls)))
            else if vs[i].role.Tool? && vs[i].callId != "" && vs[i].callId !in declared
                then Scanned(vs, i + 1, i + 1, {})
            else Scanned(vs, i + 1, start, declared)
  {
    LegalStartStep(vs, i);
    DeclaredSince(vs, start, i);
    assert vs[i + 1..i + 1] == [];
  }

  lemma ScanEnd(vs: seq<Message>, start: nat, declared: set<string>)
    requires Scanned(vs, |vs|, start, declared)
    ensures start == LegalStart(vs)
  {
    assert vs[..|vs|] == vs;
  }

  method FindLegalMessageStart(messages: seq<MessageDict>) returns (start: nat)
    ensures start == LegalStart(Values(messages))
  {
    ghost var vs := Values(messages);
    hide Scanned, LegalStart;
    var declared: set<string> := {};
    start := 0;
    ScanStart(vs);
    for i := 0 to |messages|
      invariant Scanned(vs, i, start, declared)
    {
      ScanNext(vs, i, start, declared);
      var m := messages[i].v;
      if m.role.Assistant? {
        declared := DeclareCalls(m.calls, declared);
      } else if m.role.Tool? && m.callId != "" && m.callId !in declared {
        start := i + 1;
        declared := {};
      }
    }
    ScanEnd(vs, start, declared);
  }

  lemma TailOfSuffix(vs: seq<Message>, fit: nat)
    requires fit < |vs|
    ensures FirstUser(vs[fit..], 0) == FirstUser(vs, fit) - fit
  {
    FirstUserShifts(vs, fit, 0);
  }

  lemma {:induction false} FirstUserShifts(vs: seq<Message>, fit: nat, i: nat)
    requires fit + i <= |vs|
    ensures FirstUser(vs[fit..], i) == FirstUser(vs, fit + i) - fit
    decreases |vs| - fit - i
  {
    if fit + i < |vs| && !vs[fit + i].role.User? {
      FirstUserShifts(vs, fit, i + 1);
    }
  }

  method ChooseTail(kept: seq<MessageDict>, nonSystem: seq<MessageDict>, ghost fit: nat)
    returns (chosen: seq<MessageDict>)
    requires fit < |nonSystem| && kept == nonSystem[fit..]
    ensures chosen == nonSystem[TailStart(Values(nonSystem), fit)..]
  {
    hide Values, FirstUser, LastUser;
    ValuesOfSuffix(nonSystem, fit);
    TailOfSuffix(Values(nonSystem), fit);
    chosen := UserTail(kept);
    if chosen == [] {
      chosen := LastUserTail(nonSystem);
      if chosen == [] {
        chosen := kept;
      }
    }
  }

  method LegalHistoryTail(kept: seq<MessageDict>, nonSystem: seq<MessageDict>, ghost fit: nat)
    returns (tail: seq<MessageDict>)
    requires fit < |nonSystem| && kept == nonSystem[fit..]
    ensures var vs := Values(nonSystem);
            var t := TailStart(vs, fit);
            Values(tail) == vs[t + LegalStart(vs[t..])..]
  {
    hide Values, TailStart, LegalStart;
    var chosen := ChooseTail(kept, nonSystem, fit);
    ghost var t := TailStart(Values(nonSystem), fit);
    ValuesOfSuffix(nonSystem, t);
    var start := FindLegalMessageStart(chosen);
    tail := chosen[start..];
    ValuesOfSuffix(chosen, start);
    SuffixOfSuffix(Values(nonSystem), t, start);
  }

  lemma SuffixOfSuffix<T>(s: seq<T>, i: nat, j: nat)
    requires i + j <= |s|
    ensures s[i..][j..] == s[i + j..]
  {
  }

  method SnipHistory(config: Config, messages: seq<MessageDict>) returns (snipped: seq<MessageDict>)
    ensures Values(messages) == old(Values(messages))
    ensures Values(snipped) == Snipped(config, Values(messages))
  {
    hide Systems, NonSystem, CutPoint, RemainingBudget, InputBudget;
    NothingToSnip(config);
    if messages == [] || InputBudget(config) <= 0 {
      return messages;
    }
    var estimate := EstimatePrompt(config, messages);
    if estimate <= InputBudget(config) {
      return messages;
    }
    var systems := CopyByRole(messages, true);
    var nonSystem := CopyByRole(messages, false);
    if nonSystem == [] {
      return messages;
    }
    var remaining := RemainingTokens(config, systems);
    var tail := CutTail(config, nonSystem, remaining);
    ValuesOfConcat(systems, tail);
    snipped := systems + tail;
  }

  lemma NothingToSnip(config: Config)
    ensures Snipped(config, []) == []
  {}

  method RemainingTokens(config: Config, systems: seq<MessageDict>) returns (remaining: nat)
    ensures remaining == RemainingBudget(config, Values(systems))
  {
    var systemTokens := SumTokens(config, systems);
    var fixedTokens := EstimatePrompt(config, systems);
    var used := if systemTokens > fixedTokens then systemTokens else fixedTokens;
    remaining := if InputBudget(config) > used then InputBudget(config) - used else 0;
  }

  method CutTail(config: Config, nonSystem: seq<MessageDict>, remaining: nat) returns (tail: seq<MessageDict>)
    requires nonSystem != []
    ensures Values(tail) == Values(nonSystem)[CutPoint(config, Values(nonSystem), remaining)..]
  {
    hide FitStart, FirstUser, LastUser, LegalStart, TokenSum;
    var kept := ScanBackwards(config, nonSystem, remaining);
    ghost var vs := Values(nonSystem);
    FitStartIsInside(config, vs, remaining, |vs|);
    tail := LegalHistoryTail(kept, nonSystem, FitStart(config, vs, remaining, |vs|));
  }

  lemma ValuesOfSuffix(ms: seq<MessageDict>, i: nat)
    requires i <= |ms|
    ensures Values(ms[i..]) == Values(ms)[i..]
  {}

  lemma ValuesOfConcat(a: seq<MessageDict>, b: seq<MessageDict>)
    ensures Values(a + b) == Values(a) + Values(b)
  {}

  // ----- The pipeline -----

  method PrepareForModel(config: Config, messages: seq<MessageDict>, compacted: IdSet)
    returns (updated: seq<MessageDict>)
    modifies compacted
    ensures Values(messages) == old(Values(messages))
    ensures Compaction(Values(updated), compacted.ids) == Prepared(config, Values(messages), old(compacted.ids))
  {
    updated := StripPlaceholderMessages(messages);
    updated := StripMalformedToolCalls(updated);
    updated := DropOrphanToolResults(updated);
    updated := BackfillMissingToolResults(updated);
    updated := ApplyToolResultBudget(config, updated);
    updated := CompactInflightOverflow(config, updated, compacted);
    updated := SnipHistory(config, updated);
    updated := DropOrphanToolResults(updated);
    updated := BackfillMissingToolResults(updated);
  }
}

/**
 What the four repair passes over a message list compute, as functions on values, and why
 dropping orphans and back-filling leaves every call answered exactly once.
 */
module HistoryRepair {
  import opened Text
  import opened Messages

  const PLACEHOLDER_TEXT := "[Previous assistant message omitted.]"
  const BACKFILL_CONTENT := "[Tool result unavailable \U{2014} call was interrupted or lost]"

  // ----- Placeholder assistants -----

  predicate HasPlaceholderText(m: Message) {
    m.role.Assistant? && m.content.Str? && Strip(m.content.text) == PLACEHOLDER_TEXT
  }

  predicate IsBarePlaceholder(m: Message) {
    HasPlaceholderText(m) && m.calls == []
  }

  function StripPlaceholders(ms: seq<Message>): seq<Message> {
    if ms == [] then []
    else
      var kept := StripPlaceholders(ms[..|ms| - 1]);
      if IsBarePlaceholder(ms[|ms| - 1]) then kept else kept + [ms[|ms| - 1]]
  }

  // ----- Malformed calls -----

  function NamedCalls(calls: seq<ToolCall>): seq<ToolCall> {
    if calls == [] then []
    else
      var kept := NamedCalls(calls[..|calls| - 1]);
      if HasValidName(calls[|calls| - 1]) then kept + [calls[|calls| - 1]] else kept
  }

  /** One message after its nameless calls are gone; an assistant left with nothing vanishes. */
  function Repaired(m: Message): seq<Message> {
    if !m.role.Assistant? || |NamedCalls(m.calls)| == |m.calls| then [m]
    else if NamedCalls(m.calls) == [] && !m.content.Truthy() then []
    else [m.(calls := NamedCalls(m.calls))]
  }

  function StripMalformed(ms: seq<Message>): seq<Message> {
    if ms == [] then [] else StripMalformed(ms[..|ms| - 1]) + Repaired(ms[|ms| - 1])
  }

  ghost predicate AllCallsNamed(ms: seq<Message>) {
    forall i, k :: 0 <= i < |ms| && ms[i].role.Assistant? && 0 <= k < |ms[i].calls| ==> HasValidName(ms[i].calls[k])
  }

  lemma {:induction false} NamedCallsAreNamed(calls: seq<ToolCall>)
    ensures forall k :: 0 <= k < |NamedCalls(calls)| ==> HasValidName(NamedCalls(calls)[k])
    ensures |NamedCalls(calls)| <= |calls|
    ensures |NamedCalls(calls)| == |calls| ==> NamedCalls(calls) == calls
    ensures CallIds(NamedCalls(calls)) <= CallIds(calls)
  {
    NamedCallIds(calls);
    hide CallIds;
    if calls != [] {
      NamedCallsAreNamed(calls[..|calls| - 1]);
    }
  }

  lemma {:induction false} NamedCallIds(calls: seq<ToolCall>)
    ensures CallIds(NamedCalls(calls)) <= CallIds(calls)
  {
    hide HasValidName;
    if calls != [] {
      var init := calls[..|calls| - 1];
      NamedCallIds(init);
      if HasValidName(calls[|calls| - 1]) {
        assert NamedCalls(calls)[..|NamedCalls(calls)| - 1] == NamedCalls(init);
      }
    }
  }

  /** The ids declared by calls that carry a usable name. */
  function NamedDeclared(ms: seq<Message>): multiset<string> {
    if ms == [] then multiset{}
    else
      var m := ms[|ms| - 1];
      NamedDeclared(ms[..|ms| - 1]) + (if m.role.Assistant? then CallIds(NamedCalls(m.calls)) else multiset{})
  }

  /** Exactly the nameless calls disappear; every other call and every tool result stays. */
  lemma {:induction false} StripMalformedKeepsNamedCalls(ms: seq<Message>)
    ensures AllCallsNamed(StripMalformed(ms))
    ensures Declared(StripMalformed(ms)) == NamedDeclared(ms) <= Declared(ms)
    ensures Answered(StripMalformed(ms)) == Answered(ms)
  {
    if ms != [] {
      var init, m := ms[..|ms| - 1], ms[|ms| - 1];
      StripMalformedKeepsNamedCalls(init);
      NamedCallsAreNamed(m.calls);
      ConcatCounts(StripMalformed(init), Repaired(m));
      RepairedCounts(m);
    }
  }

  lemma RepairedCounts(m: Message)
    ensures Declared(Repaired(m)) == if m.role.Assistant? then CallIds(NamedCalls(m.calls)) else multiset{}
    ensures Answered(Repaired(m)) == AnsweredBy(m)
    ensures AllCallsNamed(Repaired(m))
  {
    NamedCallsAreNamed(m.calls);
    if Repaired(m) != [] {
      assert Repaired(m)[..0] == [];
    }
  }

  lemma {:induction false} StripPlaceholdersKeepsCalls(ms: seq<Message>)
    ensures Declared(StripPlaceholders(ms)) == Declared(ms)
    ensures Answered(StripPlaceholders(ms)) == Answered(ms)
  {
    if ms != [] {
      var kept, m := StripPlaceholders(ms[..|ms| - 1]), ms[|ms| - 1];
      StripPlaceholdersKeepsCalls(ms[..|ms| - 1]);
      if !IsBarePlaceholder(m) {
        assert (kept + [m])[..|kept|] == kept;
      }
    }
  }

  lemma {:induction false} StripPlaceholdersMembers(ms: seq<Message>)
    ensures forall m :: m in StripPlaceholders(ms) <==> m in ms && !IsBarePlaceholder(m)
  {
    if ms != [] {
      StripPlaceholdersMembers(ms[..|ms| - 1]);
      assert ms == ms[..|ms| - 1] + [ms[|ms| - 1]];
    }
  }

  lemma {:induction false} StripMalformedMembers(ms: seq<Message>, out: Message)
    ensures out in StripMalformed(ms) <==> exists m :: m in ms && out in Repaired(m)
  {
    if ms != [] {
      assert ms == ms[..|ms| - 1] + [ms[|ms| - 1]];
      StripMalformedMembers(ms[..|ms| - 1], out);
    }
  }

  lemma StrippedPlaceholder(m: Message)
    requires HasPlaceholderText(m) && m.calls != [] && NamedCalls(m.calls) == []
    ensures Repaired(m) == [m.(calls := [])] && IsBarePlaceholder(m.(calls := []))
  {
    assert m.content.text != "" by {
      assert |Strip("")| == 0;
    }
  }

  lemma BareOutput(m: Message, out: Message)
    requires out in Repaired(m) && IsBarePlaceholder(out) && !IsBarePlaceholder(m)
    ensures HasPlaceholderText(m) && m.calls != [] && NamedCalls(m.calls) == []
  {
    NamedCallsAreNamed(m.calls);
  }

  /**
   The first two passes do not always remove placeholders: one survives bare exactly when a
   placeholder message carried calls and none of them was usable.
   */
  lemma PlaceholderSurvivesIff(ms: seq<Message>)
    ensures (exists out :: out in StripMalformed(StripPlaceholders(ms)) && IsBarePlaceholder(out)) <==>
            (exists m :: m in ms && HasPlaceholderText(m) && m.calls != [] && NamedCalls(m.calls) == [])
  {
    var mid := StripPlaceholders(ms);
    StripPlaceholdersMembers(ms);
    if out :| out in StripMalformed(mid) && IsBarePlaceholder(out) {
      StripMalformedMembers(mid, out);
      var m :| m in mid && out in Repaired(m);
      BareOutput(m, out);
    }
    if m :| m in ms && HasPlaceholderText(m) && m.calls != [] && NamedCalls(m.calls) == [] {
      StrippedPlaceholder(m);
      StripMalformedMembers(mid, m.(calls := []));
    }
  }

  lemma PlaceholderIsStripped()
    ensures Strip(PLACEHOLDER_TEXT) == PLACEHOLDER_TEXT
  {
    var text := PLACEHOLDER_TEXT;
    assert text[0] == '[' && text[|text| - 1] == ']';
    AlreadyStripped(text);
  }

  const NAMELESS_CALL := Call("c", None, NoName)

  lemma NamelessCallGoes(m: Message)
    requires HasPlaceholderText(m) && m.calls == [NAMELESS_CALL]
    ensures StripMalformed(StripPlaceholders([m])) == [m.(calls := [])] && IsBarePlaceholder(m.(calls := []))
  {
    hide Strip;
    assert m.calls[..0] == [];
    assert NamedCalls(m.calls) == [];
    StrippedPlaceholder(m);
    assert [m][..0] == [];
    assert StripPlaceholders([m]) == [m];
  }

  /** A placeholder whose one call has no name keeps its place and loses the call. */
  lemma PlaceholderSurvives()
    ensures var m := Message(Assistant, Str(PLACEHOLDER_TEXT), [NAMELESS_CALL], "", None, "");
            var out := m.(calls := []);
            IsBarePlaceholder(out) && StripMalformed(StripPlaceholders([m])) == [out]
  {
    hide Strip, StripMalformed, StripPlaceholders;
    PlaceholderIsStripped();
    NamelessCallGoes(Message(Assistant, Str(PLACEHOLDER_TEXT), [NAMELESS_CALL], "", None, ""));
  }

  ghost predicate SaysNothing(content: Content) {
    content in {Missing, Str(""), Parts([])} || (content.Payload? && !content.truthy)
  }

  /** A call whose name is non-empty text, in its function where it has one. */
  ghost predicate CarriesAName(call: ToolCall) {
    && call.Call?
    && exists text: string :: text != "" &&
         (call.fn == Some(StringName(text)) || (call.fn.None? && call.topName == StringName(text)))
  }

  /** What the second pass leaves of a message: its calls with a usable name, in order, and all else as it was. */
  lemma {:induction false} StrippedMessagesKeepTheRest(ms: seq<Message>, out: Message)
    ensures out in StripMalformed(ms) <==>
              exists m :: m in ms && out == m.(calls := if m.role.Assistant? then NamedCalls(m.calls) else m.calls) &&
                (m.role.Assistant? && m.calls != [] && out.calls == [] ==> !SaysNothing(m.content))
  {
    StripMalformedMembers(ms, out);
    forall m | m in ms
      ensures out in Repaired(m) <==>
                out == m.(calls := if m.role.Assistant? then NamedCalls(m.calls) else m.calls) &&
                (m.role.Assistant? && m.calls != [] && out.calls == [] ==> !SaysNothing(m.content))
    {
      NamedCallsAreNamed(m.calls);
    }
  }

  /** The calls with a usable name, one by one and in order. */
  lemma {:induction false} NamedCallsSplit(a: seq<ToolCall>, b: seq<ToolCall>, c: ToolCall)
    ensures NamedCalls([c]) == if CarriesAName(c) then [c] else []
    ensures NamedCalls(a + b) == NamedCalls(a) + NamedCalls(b)
  {
    assert [c][..0] == [];
    assert HasValidName(c) ==> NameOf(c) == StringName(NameOf(c).text);
    if b == [] {
      assert a + b == a;
    } else {
      assert (a + b)[..|a + b| - 1] == a + b[..|b| - 1];
      NamedCallsSplit(a, b[..|b| - 1], c);
    }
  }

  // ----- Orphan results -----

  /** A message stays unless it is a result that no earlier call asked for or an earlier result already gave. */
  predicate Stays(before: seq<Message>, keptBefore: seq<Message>, m: Message) {
    m.role.Tool? ==> m.callId != "" && m.callId in Declared(before) && m.callId !in Answered(keptBefore)
  }

  function DropOrphans(ms: seq<Message>): seq<Message> {
    if ms == [] then []
    else
      var kept := DropOrphans(ms[..|ms| - 1]);
      if Stays(ms[..|ms| - 1], kept, ms[|ms| - 1]) then kept + [ms[|ms| - 1]] else kept
  }

  lemma {:induction false} DropOrphansIsLegal(ms: seq<Message>)
    ensures Legal(DropOrphans(ms))
    ensures Declared(DropOrphans(ms)) == Declared(ms)
    ensures Answered(DropOrphans(ms)) <= Answered(ms)
  {
    if ms != [] {
      var init, m := ms[..|ms| - 1], ms[|ms| - 1];
      DropOrphansIsLegal(init);
      if Stays(init, DropOrphans(init), m) {
        assert DropOrphans(ms)[..|DropOrphans(ms)| - 1] == DropOrphans(init);
      }
    }
  }

  /** The fixed points of orphan dropping are exactly the histories without orphans or repeats. */
  lemma {:induction false} DropOrphansFixesLegal(ms: seq<Message>)
    ensures DropOrphans(ms) == ms <==> Legal(ms)
  {
    if Legal(ms) {
      LegalIsKept(ms);
    } else {
      DropOrphansIsLegal(ms);
    }
  }

  lemma {:induction false} LegalSplits(init: seq<Message>, m: Message)
    requires Legal(init + [m])
    ensures Legal(init) && Stays(init, init, m)
  {
    var ms := init + [m];
    assert ms[..|ms| - 1] == init;
    assert Answered(ms) == Answered(init) + AnsweredBy(m);
    FewerRepeats(Answered(init), Answered(ms));
    assert m.role.Tool? ==> Answered(ms)[m.callId] == Answered(init)[m.callId] + 1;
  }

  lemma {:induction false} LegalIsKept(ms: seq<Message>)
    requires Legal(ms)
    ensures DropOrphans(ms) == ms
  {
    if ms != [] {
      var init, m := ms[..|ms| - 1], ms[|ms| - 1];
      assert ms == init + [m];
      LegalSplits(init, m);
      LegalIsKept(init);
    }
  }

  // ----- Missing results -----

  /** A declared call: the assistant's position, the call's id and the name a synthetic result gets. */
  datatype Gap = Gap(at: nat, id: string, name: string)

  function BackfillName(call: ToolCall): string {
    if call.Call? && call.fn.Some? then
      match call.fn.value
      case NoName => ""
      case StringName(text) => text
      case OtherName(rendered) => rendered
    else ""
  }

  function CallGaps(at: nat, calls: seq<ToolCall>): seq<Gap> {
    if calls == [] then []
    else
      var c := calls[|calls| - 1];
      var gaps := CallGaps(at, calls[..|calls| - 1]);
      if c.Call? && c.id != "" then gaps + [Gap(at, c.id, BackfillName(c))] else gaps
  }

  function GapsOf(at: nat, m: Message): seq<Gap> {
    if m.role.Assistant? then CallGaps(at, m.calls) else []
  }

  function DeclaredGaps(ms: seq<Message>): seq<Gap> {
    if ms == [] then [] else DeclaredGaps(ms[..|ms| - 1]) + GapsOf(|ms| - 1, ms[|ms| - 1])
  }

  function Unanswered(gaps: seq<Gap>, answered: multiset<string>): seq<Gap> {
    if gaps == [] then []
    else
      var missing := Unanswered(gaps[..|gaps| - 1], answered);
      if gaps[|gaps| - 1].id in answered then missing else missing + [gaps[|gaps| - 1]]
  }

  function MissingResults(ms: seq<Message>): seq<Gap> {
    Unanswered(DeclaredGaps(ms), Answered(ms))
  }

  function Synthetic(g: Gap): Message {
    Message(Tool, Str(BACKFILL_CONTENT), [], g.id, Some(g.name), "")
  }

  /** The synthetic results owed to the assistant at position `i`, in the order of its calls. */
  function SyntheticsAt(gaps: seq<Gap>, i: nat): seq<Message> {
    if gaps == [] then []
    else
      var owed := SyntheticsAt(gaps[..|gaps| - 1], i);
      if gaps[|gaps| - 1].at == i then owed + [Synthetic(gaps[|gaps| - 1])] else owed
  }

  /** `r` is the first position from `i` on that does not hold a tool result. */
  predicate IsRunEnd(ms: seq<Message>, i: int, r: int) {
    && 0 <= i <= r <= |ms|
    && (forall k :: i <= k < r ==> ms[k].role.Tool?)
    && (r < |ms| ==> !ms[r].role.Tool?)
  }

  function ToolRunEnd(ms: seq<Message>, i: nat): (r: nat)
    requires i <= |ms|
    ensures IsRunEnd(ms, i, r)
    decreases |ms| - i
  {
    if i < |ms| && ms[i].role.Tool? then ToolRunEnd(ms, i + 1) else i
  }

  /** An assistant together with the tool run behind it, or any other single message. */
  function BlockEnd(ms: seq<Message>, i: nat): (r: nat)
    requires i < |ms|
    ensures i < r <= |ms|
    ensures forall k :: i < k < r ==> ms[k].role.Tool?
  {
    if ms[i].role.Assistant? then ToolRunEnd(ms, i + 1) else i + 1
  }

  /** `ms` from position `i` on, each assistant's owed results placed right after the tool run that follows it. */
  function Fill(ms: seq<Message>, i: nat, gaps: seq<Gap>): seq<Message>
    requires i <= |ms|
    decreases |ms| - i
  {
    if i == |ms| then []
    else ms[i..BlockEnd(ms, i)] + SyntheticsAt(gaps, i) + Fill(ms, BlockEnd(ms, i), gaps)
  }

  function Backfill(ms: seq<Message>): seq<Message> {
    Fill(ms, 0, MissingResults(ms))
  }

  function GapIds(gaps: seq<Gap>): multiset<string> {
    if gaps == [] then multiset{} else GapIds(gaps[..|gaps| - 1]) + multiset{gaps[|gaps| - 1].id}
  }

  /** The gap sits at an assistant that really declares its id. */
  predicate Fits(ms: seq<Message>, g: Gap) {
    g.at < |ms| && g.id != "" && g.id in DeclaredBy(ms[g.at])
  }

  ghost predicate InOrder(gaps: seq<Gap>) {
    forall j, k :: 0 <= j < k < |gaps| ==> gaps[j].at <= gaps[k].at
  }

  ghost predicate GapsFit(ms: seq<Message>, gaps: seq<Gap>) {
    InOrder(gaps) && forall g :: g in gaps ==> Fits(ms, g)
  }

  /** How many gaps sit at position `i` or later. */
  function CountFrom(gaps: seq<Gap>, i: nat): nat {
    if gaps == [] then 0
    else CountFrom(gaps[..|gaps| - 1], i) + (if gaps[|gaps| - 1].at >= i then 1 else 0)
  }

  lemma {:induction false} CountSplits(gaps: seq<Gap>, i: nat, r: nat)
    requires i < r
    requires forall k :: 0 <= k < |gaps| ==> !(i < gaps[k].at < r)
    ensures CountFrom(gaps, i) == |SyntheticsAt(gaps, i)| + CountFrom(gaps, r)
  {
    if gaps != [] {
      CountSplits(gaps[..|gaps| - 1], i, r);
    }
  }

  lemma {:induction false} NoneFrom(gaps: seq<Gap>, i: nat)
    requires forall k :: 0 <= k < |gaps| ==> gaps[k].at < i
    ensures CountFrom(gaps, i) == 0 && SyntheticsAt(gaps, i) == []
  {
    if gaps != [] {
      NoneFrom(gaps[..|gaps| - 1], i);
    }
  }

  lemma {:induction false} CountAll(gaps: seq<Gap>)
    ensures CountFrom(gaps, 0) == |gaps|
  {
    if gaps != [] {
      CountAll(gaps[..|gaps| - 1]);
    }
  }

  lemma {:induction false} SyntheticsAreTools(gaps: seq<Gap>, i: nat)
    ensures forall k :: 0 <= k < |SyntheticsAt(gaps, i)| ==> SyntheticsAt(gaps, i)[k].role.Tool?
  {
    if gaps != [] {
      SyntheticsAreTools(gaps[..|gaps| - 1], i);
    }
  }

  /** Past its last gap the history is copied unchanged. */
  lemma {:induction false} FillNothing(ms: seq<Message>, i: nat, gaps: seq<Gap>)
    requires i <= |ms|
    requires forall k :: 0 <= k < |gaps| ==> gaps[k].at < i
    ensures Fill(ms, i, gaps) == ms[i..]
    decreases |ms| - i
  {
    if i < |ms| {
      NoneFrom(gaps, i);
      var r := BlockEnd(ms, i);
      FillNothing(ms, r, gaps);
      assert ms[i..r] + [] + ms[r..] == ms[i..];
    }
  }

  function InsertedAt(s: seq<Message>, q: nat, m: Message): seq<Message>
    requires q <= |s|
  {
    s[..q] + [m] + s[q..]
  }

  /** Position and result of inserting one more gap's synthetic result into an already filled list. */
  ghost predicate IsInsertion(filled: seq<Message>, start: int, q: nat, g: Gap, owner: Message, result: seq<Message>) {
    && q <= |filled| && IsRunEnd(filled, start, q)
    && result == InsertedAt(filled, q, Synthetic(g))
    && owner in filled[..q]
  }

  /** Messages put in front of an insertion shift it. */
  lemma InsertionBehind(
      head: seq<Message>, tail: seq<Message>, start: nat, q: nat, g: Gap, owner: Message, result: seq<Message>)
    requires IsInsertion(tail, start, q, g, owner, result)
    ensures IsInsertion(head + tail, |head| + start, |head| + q, g, owner, head + result)
  {
    assert (head + tail)[..|head| + q] == head + tail[..q];
    assert (head + tail)[|head| + q..] == tail[q..];
  }

  /** A gap at a later assistant leaves the block at position `i` alone. */
  lemma BlockBeforeGap(ms: seq<Message>, i: nat, gaps: seq<Gap>, g: Gap)
    requires i < g.at && Fits(ms, g) && forall x :: x in gaps ==> Fits(ms, x)
    ensures var r := BlockEnd(ms, i);
            var head := ms[i..r] + SyntheticsAt(gaps, i);
            && r <= g.at
            && Fill(ms, i, gaps) == head + Fill(ms, r, gaps)
            && Fill(ms, i, gaps + [g]) == head + Fill(ms, r, gaps + [g])
            && |head| + CountFrom(gaps, r) == r - i + CountFrom(gaps, i)
  {
    var r := BlockEnd(ms, i);
    assert ms[g.at].role.Assistant?;
    assert (gaps + [g])[..|gaps|] == gaps;
    forall k | 0 <= k < |gaps|
      ensures !(i < gaps[k].at < r)
    {
      assert gaps[k] in gaps && ms[gaps[k].at].role.Assistant?;
    }
    CountSplits(gaps, i, r);
  }

  /** Everything in front of the gap's assistant, whether the gap is filled or not. */
  lemma {:induction false} FillSplits(ms: seq<Message>, i: nat, gaps: seq<Gap>, g: Gap) returns (before: seq<Message>)
    requires i <= g.at && Fits(ms, g) && forall x :: x in gaps ==> Fits(ms, x)
    ensures Fill(ms, i, gaps) == before + Fill(ms, g.at, gaps)
    ensures Fill(ms, i, gaps + [g]) == before + Fill(ms, g.at, gaps + [g])
    ensures |before| + CountFrom(gaps, g.at) == g.at - i + CountFrom(gaps, i)
    decreases |ms| - i
  {
    hide Fill, SyntheticsAt, CountFrom;
    if i == g.at {
      before := [];
    } else {
      BlockBeforeGap(ms, i, gaps, g);
      var r := BlockEnd(ms, i);
      before := FillSplits(ms, r, gaps, g);
      before := ms[i..r] + SyntheticsAt(gaps, i) + before;
    }
  }

  /**
   One more gap is one insertion, and the offset arithmetic finds its place: starting right
   after the assistant, shifted by the number of results inserted so far, and skipping the
   tool run found there.
   */
  lemma {:induction false} OneMoreGap(ms: seq<Message>, gaps: seq<Gap>, g: Gap) returns (q: nat)
    requires InOrder(gaps + [g]) && Fits(ms, g) && forall x :: x in gaps ==> Fits(ms, x)
    ensures IsInsertion(Fill(ms, 0, gaps), g.at + 1 + |gaps|, q, g, ms[g.at], Fill(ms, 0, gaps + [g]))
  {
    hide Fill, SyntheticsAt, CountFrom, IsInsertion;
    CountAll(gaps);
    var before := FillSplits(ms, 0, gaps, g);
    var q' := GapAtHead(ms, gaps, g);
    InsertionBehind(before, Fill(ms, g.at, gaps), 1 + CountFrom(gaps, g.at), q', g, ms[g.at],
        Fill(ms, g.at, gaps + [g]));
    q := |before| + q';
    assert |before| + (1 + CountFrom(gaps, g.at)) == g.at + 1 + |gaps|;
  }

  /** Filling from an assistant on when no gap lies behind its tool run. */
  lemma FillLastBlock(ms: seq<Message>, i: nat, gaps: seq<Gap>)
    requires i < |ms| && forall k :: 0 <= k < |gaps| ==> gaps[k].at <= i
    ensures Fill(ms, i, gaps) == ms[i..BlockEnd(ms, i)] + SyntheticsAt(gaps, i) + ms[BlockEnd(ms, i)..]
  {
    FillNothing(ms, BlockEnd(ms, i), gaps);
  }

  /** The base case of `OneMoreGap`: the new gap belongs to the assistant at the front. */
  lemma {:induction false} GapAtHead(ms: seq<Message>, gaps: seq<Gap>, g: Gap) returns (q: nat)
    requires InOrder(gaps + [g]) && Fits(ms, g)
    ensures IsInsertion(Fill(ms, g.at, gaps), 1 + CountFrom(gaps, g.at), q, g, ms[g.at], Fill(ms, g.at, gaps + [g]))
  {
    hide Fill, CountFrom, SyntheticsAt, BlockEnd, IsRunEnd, InOrder;
    var i := g.at;
    var r := BlockEnd(ms, i);
    var owed := SyntheticsAt(gaps, i);
    HeadIsLast(ms, gaps, g);
    RunBehindAssistant(ms, i);
    q := r - i + |owed|;
    EndOfRun(ms, i, r, owed, gaps);
    InsertBetween(ms[i..r], owed, ms[r..], Synthetic(g));
  }

  /** No gap lies behind the newest one, so what follows its assistant's block is copied. */
  lemma HeadIsLast(ms: seq<Message>, gaps: seq<Gap>, g: Gap)
    requires InOrder(gaps + [g]) && Fits(ms, g)
    ensures var r, owed := BlockEnd(ms, g.at), SyntheticsAt(gaps, g.at);
            && CountFrom(gaps, g.at) == |owed|
            && Fill(ms, g.at, gaps) == ms[g.at..r] + owed + ms[r..]
            && Fill(ms, g.at, gaps + [g]) == ms[g.at..r] + (owed + [Synthetic(g)]) + ms[r..]
  {
    var i, more := g.at, gaps + [g];
    assert more[..|gaps|] == gaps && more[|gaps|] == g;
    assert forall k :: 0 <= k < |gaps| ==> gaps[k] == more[k] && gaps[k].at <= i;
    hide Fill, CountFrom, BlockEnd;
    NoneFrom(gaps, BlockEnd(ms, i));
    CountSplits(gaps, i, BlockEnd(ms, i));
    FillLastBlock(ms, i, gaps);
    FillLastBlock(ms, i, more);
  }

  lemma RunBehindAssistant(ms: seq<Message>, i: nat)
    requires i < |ms| && ms[i].role.Assistant?
    ensures IsRunEnd(ms, i + 1, BlockEnd(ms, i))
  {}

  lemma InsertBetween(run: seq<Message>, owed: seq<Message>, rest: seq<Message>, m: Message)
    requires run != []
    ensures var s := run + owed + rest;
            var q := |run| + |owed|;
            run + (owed + [m]) + rest == s[..q] + [m] + s[q..] && run[0] in s[..q]
  {
    var s := run + owed + rest;
    assert s[..|run| + |owed|] == run + owed;
    assert s[|run| + |owed|..] == rest;
    assert (run + owed)[0] == run[0];
  }

  lemma {:induction false} EndOfRun(ms: seq<Message>, i: nat, r: nat, owed: seq<Message>, gaps: seq<Gap>)
    requires i < |ms| && IsRunEnd(ms, i + 1, r) && owed == SyntheticsAt(gaps, i)
    ensures IsRunEnd(ms[i..r] + owed + ms[r..], 1 + |owed|, r - i + |owed|)
  {
    SyntheticsAreTools(gaps, i);
    var s := ms[i..r] + owed + ms[r..];
    var q := r - i + |owed|;
    assert forall k :: 1 <= k < q ==> s[k].role.Tool?;
    assert q < |s| ==> s[q] == ms[r];
  }

  lemma {:induction false} InsertionCounts(s: seq<Message>, q: nat, g: Gap)
    requires q <= |s| && g.id != ""
    ensures var t := s[..q] + [Synthetic(g)] + s[q..];
            Declared(t) == Declared(s) && Answered(t) == Answered(s) + multiset{g.id}
  {
    var more := s[..q] + [Synthetic(g)];
    assert s == s[..q] + s[q..];
    ConcatCounts(s[..q], s[q..]);
    ConcatCounts(more, s[q..]);
    assert more[..|more| - 1] == s[..q];
  }

  /** Filling adds one result per gap and nothing else. */
  lemma {:induction false} FillAddsTheGaps(ms: seq<Message>, gaps: seq<Gap>)
    requires GapsFit(ms, gaps)
    ensures Declared(Fill(ms, 0, gaps)) == Declared(ms)
    ensures Answered(Fill(ms, 0, gaps)) == Answered(ms) + GapIds(gaps)
    ensures |Fill(ms, 0, gaps)| == |ms| + |gaps|
  {
    hide Fill, Declared, Answered;
    if gaps == [] {
      FillNothing(ms, 0, gaps);
    } else {
      var init, g := gaps[..|gaps| - 1], gaps[|gaps| - 1];
      assert gaps == init + [g];
      assert Fits(ms, g);
      FillAddsTheGaps(ms, init);
      var q := OneMoreGap(ms, init, g);
      var filled := Fill(ms, 0, init);
      InsertionCounts(filled, q, g);
    }
  }

  lemma {:induction false} FillStaysLegal(ms: seq<Message>, gaps: seq<Gap>)
    requires GapsFit(ms, gaps) && AnswersEarlierCalls(multiset{}, ms)
    ensures AnswersEarlierCalls(multiset{}, Fill(ms, 0, gaps))
  {
    if gaps == [] {
      FillNothing(ms, 0, gaps);
    } else {
      var init, g := gaps[..|gaps| - 1], gaps[|gaps| - 1];
      assert gaps == init + [g] && Fits(ms, g);
      FillStaysLegal(ms, init);
      var q := OneMoreGap(ms, init, g);
      FilledStaysLegal(Fill(ms, 0, init), g.at + 1 + |init|, q, g, ms[g.at], Fill(ms, 0, gaps));
    }
  }

  lemma FilledStaysLegal(filled: seq<Message>, start: int, q: nat, g: Gap, owner: Message, result: seq<Message>)
    requires IsInsertion(filled, start, q, g, owner, result) && AnswersEarlierCalls(multiset{}, filled)
    requires g.id != "" && g.id in DeclaredBy(owner)
    ensures AnswersEarlierCalls(multiset{}, result)
  {
    assert filled == filled[..q] + filled[q..];
    InsertionStaysLegal(filled[..q], g, filled[q..], owner);
  }

  lemma {:induction false} InsertionStaysLegal(a: seq<Message>, g: Gap, b: seq<Message>, owner: Message)
    requires owner in a && g.id != "" && g.id in DeclaredBy(owner)
    requires AnswersEarlierCalls(multiset{}, a + b)
    ensures AnswersEarlierCalls(multiset{}, a + [Synthetic(g)] + b)
  {
    var more := a + [Synthetic(g)];
    var i :| 0 <= i < |a| && a[i] == owner;
    SplitAt(a, i);
    assert more[..|more| - 1] == a;
    assert Declared(more) == Declared(a);
    ConcatAnswersEarlier(multiset{}, a, b);
    ConcatAnswersEarlier(multiset{}, more, b);
  }

  // ----- Which gaps there are -----

  lemma {:induction false} CallGapsFit(at: nat, calls: seq<ToolCall>)
    ensures GapIds(CallGaps(at, calls)) == CallIds(calls)
    ensures forall g :: g in CallGaps(at, calls) ==> g.at == at && g.id != "" && g.id in CallIds(calls)
  {
    if calls != [] {
      var gaps, all := CallGaps(at, calls[..|calls| - 1]), CallGaps(at, calls);
      CallGapsFit(at, calls[..|calls| - 1]);
      if all != gaps {
        GapIdsSnoc(gaps, all[|gaps|]);
      }
    }
  }

  lemma GapIdsSnoc(gaps: seq<Gap>, g: Gap)
    ensures GapIds(gaps + [g]) == GapIds(gaps) + multiset{g.id}
  {
    assert (gaps + [g])[..|gaps|] == gaps;
  }

  lemma {:induction false} GapIdsConcat(a: seq<Gap>, b: seq<Gap>)
    ensures GapIds(a + b) == GapIds(a) + GapIds(b)
  {
    if b == [] {
      assert a + b == a;
    } else {
      assert (a + b)[..|a + b| - 1] == a + b[..|b| - 1];
      GapIdsConcat(a, b[..|b| - 1]);
    }
  }

  lemma {:induction false} DeclaredGapsFit(ms: seq<Message>)
    ensures forall g :: g in DeclaredGaps(ms) ==> Fits(ms, g)
    ensures GapIds(DeclaredGaps(ms)) == Declared(ms)
  {
    if ms != [] {
      var init, m := ms[..|ms| - 1], ms[|ms| - 1];
      DeclaredGapsFit(init);
      CallGapsFit(|ms| - 1, m.calls);
      var gaps, mine := DeclaredGaps(init), GapsOf(|ms| - 1, m);
      GapIdsConcat(gaps, mine);
      assert forall g :: g in gaps ==> Fits(init, g) && Fits(ms, g);
    }
  }

  lemma InOrderConcat(gaps: seq<Gap>, mine: seq<Gap>, at: nat)
    requires InOrder(gaps) && forall g :: g in gaps ==> g.at < at
    requires forall g :: g in mine ==> g.at == at
    ensures InOrder(gaps + mine)
  {
    assert forall k :: 0 <= k < |gaps| ==> gaps[k] in gaps;
    assert forall k :: 0 <= k < |mine| ==> mine[k] in mine;
  }

  lemma {:induction false} DeclaredGapsInOrder(ms: seq<Message>)
    ensures InOrder(DeclaredGaps(ms))
  {
    if ms != [] {
      var init, m := ms[..|ms| - 1], ms[|ms| - 1];
      DeclaredGapsInOrder(init);
      DeclaredGapsFit(init);
      CallGapsFit(|ms| - 1, m.calls);
      InOrderConcat(DeclaredGaps(init), GapsOf(|ms| - 1, m), |ms| - 1);
    }
  }

  lemma {:induction false} UnansweredCounts(gaps: seq<Gap>, answered: multiset<string>)
    ensures forall id :: GapIds(Unanswered(gaps, answered))[id] == if id in answered then 0 else GapIds(gaps)[id]
  {
    if gaps != [] {
      var missing := Unanswered(gaps[..|gaps| - 1], answered);
      UnansweredCounts(gaps[..|gaps| - 1], answered);
      assert (missing + [gaps[|gaps| - 1]])[..|missing|] == missing;
    }
  }

  lemma {:induction false} UnansweredInOrder(gaps: seq<Gap>, answered: multiset<string>)
    requires InOrder(gaps)
    ensures InOrder(Unanswered(gaps, answered))
    ensures forall g :: g in Unanswered(gaps, answered) ==> g in gaps
  {
    if gaps != [] {
      var init, g := gaps[..|gaps| - 1], gaps[|gaps| - 1];
      UnansweredInOrder(init, answered);
      var missing := Unanswered(init, answered);
      forall k | 0 <= k < |missing|
        ensures missing[k].at <= g.at
      {
        assert missing[k] in init;
      }
    }
  }

  lemma MissingResultsFit(ms: seq<Message>)
    ensures GapsFit(ms, MissingResults(ms))
    ensures forall id :: GapIds(MissingResults(ms))[id] == if id in Answered(ms) then 0 else Declared(ms)[id]
  {
    DeclaredGapsFit(ms);
    DeclaredGapsInOrder(ms);
    UnansweredCounts(DeclaredGaps(ms), Answered(ms));
    UnansweredInOrder(DeclaredGaps(ms), Answered(ms));
  }

  /** A call that declares the id of a result and names its tool, or names nothing the result could take. */
  ghost predicate NamesTheTool(call: ToolCall, id: string, name: string) {
    && call.Call? && call.id == id
    && name == if call.fn.None? || call.fn.value.NoName? then ""
               else if call.fn.value.StringName? then call.fn.value.text else call.fn.value.rendered
  }

  /** An inserted result: a tool message with the fixed text, for an unanswered call and under that call's name. */
  ghost predicate IsInserted(ms: seq<Message>, m: Message) {
    && m.role.Tool? && m.calls == [] && m.rest == "" && m.name.Some? && m.callId != "" && m.callId !in Answered(ms)
    && m.content == Str("[Tool result unavailable \U{2014} call was interrupted or lost]")
    && exists i, k :: 0 <= i < |ms| && ms[i].role.Assistant? && 0 <= k < |ms[i].calls| &&
                      NamesTheTool(ms[i].calls[k], m.callId, m.name.value)
  }

  ghost predicate ComesFromACall(ms: seq<Message>, g: Gap) {
    && g.id != ""
    && exists i, k :: 0 <= i < |ms| && ms[i].role.Assistant? && 0 <= k < |ms[i].calls| &&
                      NamesTheTool(ms[i].calls[k], g.id, g.name)
  }

  lemma {:induction false} CallGapsComeFromCalls(at: nat, calls: seq<ToolCall>, g: Gap)
    requires g in CallGaps(at, calls)
    ensures g.id != "" && exists k :: 0 <= k < |calls| && NamesTheTool(calls[k], g.id, g.name)
  {
    var n := |calls| - 1;
    if g in CallGaps(at, calls[..n]) {
      CallGapsComeFromCalls(at, calls[..n], g);
      var k :| 0 <= k < n && NamesTheTool(calls[..n][k], g.id, g.name);
      assert calls[k] == calls[..n][k];
    } else {
      assert NamesTheTool(calls[n], g.id, g.name);
    }
  }

  lemma {:induction false} GapsComeFromCalls(ms: seq<Message>, g: Gap)
    requires g in DeclaredGaps(ms)
    ensures ComesFromACall(ms, g)
  {
    hide NamesTheTool, CallGaps;
    var n := |ms| - 1;
    if g in DeclaredGaps(ms[..n]) {
      GapsComeFromCalls(ms[..n], g);
      var i, k :| 0 <= i < n && ms[..n][i].role.Assistant? && 0 <= k < |ms[..n][i].calls| &&
                  NamesTheTool(ms[..n][i].calls[k], g.id, g.name);
      assert ms[i] == ms[..n][i];
    } else {
      CallGapsComeFromCalls(n, ms[n].calls, g);
    }
  }

  lemma {:induction false} UnansweredAreGaps(gaps: seq<Gap>, answered: multiset<string>)
    ensures forall g :: g in Unanswered(gaps, answered) ==> g in gaps && g.id !in answered
  {
    if gaps != [] {
      UnansweredAreGaps(gaps[..|gaps| - 1], answered);
    }
  }

  lemma {:induction false} FilledIsOldOrSynthetic(ms: seq<Message>, i: nat, gaps: seq<Gap>, m: Message)
    requires i <= |ms| && m in Fill(ms, i, gaps)
    ensures m in ms || exists g :: g in gaps && m == Synthetic(g)
    decreases |ms| - i
  {
    var r := BlockEnd(ms, i);
    if m in SyntheticsAt(gaps, i) {
      SyntheticsComeFromGaps(gaps, i, m);
    } else if m in Fill(ms, r, gaps) {
      FilledIsOldOrSynthetic(ms, r, gaps, m);
    }
  }

  lemma {:induction false} SyntheticsComeFromGaps(gaps: seq<Gap>, i: nat, m: Message)
    requires m in SyntheticsAt(gaps, i)
    ensures exists g :: g in gaps && m == Synthetic(g)
  {
    var init, last := gaps[..|gaps| - 1], gaps[|gaps| - 1];
    if m in SyntheticsAt(init, i) {
      SyntheticsComeFromGaps(init, i, m);
      var g :| g in init && m == Synthetic(g);
      assert g in gaps;
    } else {
      assert last in gaps;
    }
  }

  /** Every message of a back-filled list was there before or is an inserted result. */
  lemma BackfilledIsOldOrInserted(ms: seq<Message>, m: Message)
    requires m in Backfill(ms)
    ensures m in ms || IsInserted(ms, m)
  {
    var gaps := MissingResults(ms);
    FilledIsOldOrSynthetic(ms, 0, gaps, m);
    if m !in ms {
      var g :| g in gaps && m == Synthetic(g);
      UnansweredAreGaps(DeclaredGaps(ms), Answered(ms));
      GapsComeFromCalls(ms, g);
    }
  }

  /**
   The whole effect of back-filling on the counts: an id nobody answered gets one result per
   declaration, every other id keeps the results it has, and the list grows by exactly the
   number of missing results.
   */
  lemma BackfillCounts(ms: seq<Message>)
    ensures Declared(Backfill(ms)) == Declared(ms)
    ensures forall id :: Answered(Backfill(ms))[id] ==
              if id in Answered(ms) then Answered(ms)[id] else Declared(ms)[id]
    ensures |Backfill(ms)| == |ms| + |MissingResults(ms)|
    ensures AnswersEarlierCalls(multiset{}, ms) ==> AnswersEarlierCalls(multiset{}, Backfill(ms))
  {
    MissingResultsFit(ms);
    FillAddsTheGaps(ms, MissingResults(ms));
    if AnswersEarlierCalls(multiset{}, ms) {
      FillStaysLegal(ms, MissingResults(ms));
    }
  }

  lemma {:induction false} NoIdsNoGaps(gaps: seq<Gap>)
    requires forall id :: GapIds(gaps)[id] == 0
    ensures gaps == []
  {
    if gaps != [] {
      assert GapIds(gaps)[gaps[|gaps| - 1].id] > 0;
    }
  }

  /** The fixed points of back-filling are exactly the histories in which every call is answered. */
  lemma BackfillFixesComplete(ms: seq<Message>)
    ensures Backfill(ms) == ms <==> Complete(ms)
    ensures Complete(Backfill(ms))
  {
    BackfillCounts(ms);
    if Complete(ms) {
      MissingResultsFit(ms);
      NoIdsNoGaps(MissingResults(ms));
      FillNothing(ms, 0, []);
    }
  }

  lemma RepairIsWellPaired(ms: seq<Message>)
    requires DistinctCalls(ms)
    ensures WellPaired(Backfill(DropOrphans(ms)))
    ensures Declared(Backfill(DropOrphans(ms))) == Declared(ms)
  {
    DropOrphansIsLegal(ms);
    BackfillCounts(DropOrphans(ms));
    BackfillFixesComplete(DropOrphans(ms));
  }

  /** Both passes leave a history alone exactly when it is well paired already. */
  lemma WellPairedIsFixed(ms: seq<Message>)
    ensures WellPaired(ms) <==> DropOrphans(ms) == ms && Backfill(ms) == ms
  {
    DropOrphansFixesLegal(ms);
    BackfillFixesComplete(ms);
  }

  /** Each pass is idempotent, and with distinct ids so is the pair. */
  lemma RepairIsIdempotent(ms: seq<Message>)
    ensures DropOrphans(DropOrphans(ms)) == DropOrphans(ms)
    ensures Backfill(Backfill(ms)) == Backfill(ms)
    ensures DistinctCalls(ms) ==>
              Backfill(DropOrphans(Backfill(DropOrphans(ms)))) == Backfill(DropOrphans(ms))
  {
    DropOrphansIsLegal(ms);
    DropOrphansFixesLegal(DropOrphans(ms));
    BackfillFixesComplete(ms);
    BackfillFixesComplete(Backfill(ms));
    if DistinctCalls(ms) {
      RepairIsWellPaired(ms);
      WellPairedIsFixed(Backfill(DropOrphans(ms)));
    }
  }

  // ----- Where the synthetic results go -----

  /** The synthetic results one assistant is owed. */
  function Owed(at: nat, m: Message, answered: multiset<string>): seq<Message> {
    SyntheticsAt(Unanswered(GapsOf(at, m), answered), at)
  }

  lemma {:induction false} UnansweredConcat(a: seq<Gap>, b: seq<Gap>, answered: multiset<string>)
    ensures Unanswered(a + b, answered) == Unanswered(a, answered) + Unanswered(b, answered)
  {
    if b == [] {
      assert a + b == a;
    } else {
      assert (a + b)[..|a + b| - 1] == a + b[..|b| - 1];
      UnansweredConcat(a, b[..|b| - 1], answered);
    }
  }

  lemma {:induction false} UnansweredMembers(gaps: seq<Gap>, answered: multiset<string>)
    ensures forall g :: g in Unanswered(gaps, answered) ==> g in gaps
  {
    if gaps != [] {
      UnansweredMembers(gaps[..|gaps| - 1], answered);
    }
  }

  lemma {:induction false} SyntheticsConcat(a: seq<Gap>, b: seq<Gap>, i: nat)
    ensures SyntheticsAt(a + b, i) == SyntheticsAt(a, i) + SyntheticsAt(b, i)
  {
    if b == [] {
      assert a + b == a;
    } else {
      assert (a + b)[..|a + b| - 1] == a + b[..|b| - 1];
      SyntheticsConcat(a, b[..|b| - 1], i);
    }
  }

  lemma {:induction false} SyntheticsElsewhere(gaps: seq<Gap>, i: nat)
    requires forall g :: g in gaps ==> g.at != i
    ensures SyntheticsAt(gaps, i) == []
  {
    if gaps != [] {
      SyntheticsElsewhere(gaps[..|gaps| - 1], i);
    }
  }

  lemma {:induction false} OwedAt(ms: seq<Message>, i: nat, answered: multiset<string>)
    requires i < |ms|
    ensures SyntheticsAt(Unanswered(DeclaredGaps(ms), answered), i) == Owed(i, ms[i], answered)
  {
    var init, m := ms[..|ms| - 1], ms[|ms| - 1];
    var mine := GapsOf(|ms| - 1, m);
    UnansweredConcat(DeclaredGaps(init), mine, answered);
    SyntheticsConcat(Unanswered(DeclaredGaps(init), answered), Unanswered(mine, answered), i);
    UnansweredMembers(DeclaredGaps(init), answered);
    UnansweredMembers(mine, answered);
    DeclaredGapsFit(init);
    CallGapsFit(|ms| - 1, m.calls);
    if i < |ms| - 1 {
      OwedAt(init, i, answered);
      SyntheticsElsewhere(Unanswered(mine, answered), i);
    } else {
      SyntheticsElsewhere(Unanswered(DeclaredGaps(init), answered), i);
    }
  }

  lemma {:induction false} FillReaches(ms: seq<Message>, i: nat, gaps: seq<Gap>, a: nat) returns (before: seq<Message>)
    requires i <= a < |ms| && ms[a].role.Assistant?
    ensures Fill(ms, i, gaps) == before + Fill(ms, a, gaps)
    decreases a - i
  {
    if i == a {
      before := [];
    } else {
      var r := BlockEnd(ms, i);
      before := FillReaches(ms, r, gaps, a);
      before := ms[i..r] + SyntheticsAt(gaps, i) + before;
    }
  }

  lemma FillAtAssistant(ms: seq<Message>, a: nat, gaps: seq<Gap>)
    requires a < |ms| && ms[a].role.Assistant?
    ensures Fill(ms, a, gaps) ==
            ms[a..ToolRunEnd(ms, a + 1)] + SyntheticsAt(gaps, a) + Fill(ms, ToolRunEnd(ms, a + 1), gaps)
  {
  }

  /**
   Each assistant is followed by its own tool run and then by exactly the results it is
   owed, in the order of its calls; what comes after continues with the next original message.
   */
  lemma OwedResultsFollowTheRun(ms: seq<Message>, a: nat) returns (before: seq<Message>)
    requires a < |ms| && ms[a].role.Assistant?
    ensures Backfill(ms) == before + ms[a..ToolRunEnd(ms, a + 1)] + Owed(a, ms[a], Answered(ms)) +
                            Fill(ms, ToolRunEnd(ms, a + 1), MissingResults(ms))
  {
    hide Fill, Owed, SyntheticsAt, Answered, ToolRunEnd;
    before := FillReaches(ms, 0, MissingResults(ms), a);
    FillAtAssistant(ms, a, MissingResults(ms));
    OwedAt(ms, a, Answered(ms));
  }

  /** A history without the results for the given ids. */
  function Without(ms: seq<Message>, ids: multiset<string>): seq<Message> {
    if ms == [] then []
    else
      var m := ms[|ms| - 1];
      var rest := Without(ms[..|ms| - 1], ids);
      if m.role.Tool? && m.callId in ids then rest else rest + [m]
  }

  lemma {:induction false} WithoutConcat(a: seq<Message>, b: seq<Message>, ids: multiset<string>)
    ensures Without(a + b, ids) == Without(a, ids) + Without(b, ids)
  {
    if b == [] {
      assert a + b == a;
    } else {
      assert (a + b)[..|a + b| - 1] == a + b[..|b| - 1];
      WithoutConcat(a, b[..|b| - 1], ids);
    }
  }

  lemma {:induction false} WithoutNone(ms: seq<Message>, ids: multiset<string>)
    requires forall id :: id in Answered(ms) ==> id !in ids
    requires "" !in ids
    ensures Without(ms, ids) == ms
  {
    if ms != [] {
      WithoutNone(ms[..|ms| - 1], ids);
    }
  }

  lemma {:induction false} InsertionVanishes(s: seq<Message>, q: nat, g: Gap, ids: multiset<string>)
    requires q <= |s| && g.id in ids
    ensures Without(s[..q] + [Synthetic(g)] + s[q..], ids) == Without(s, ids)
  {
    var more := s[..q] + [Synthetic(g)];
    assert s == s[..q] + s[q..];
    WithoutConcat(s[..q], s[q..], ids);
    WithoutConcat(more, s[q..], ids);
    assert more[..|more| - 1] == s[..q];
  }

  lemma {:induction false} FillWithoutGaps(ms: seq<Message>, gaps: seq<Gap>, ids: multiset<string>)
    requires GapsFit(ms, gaps) && forall g :: g in gaps ==> g.id in ids
    ensures Without(Fill(ms, 0, gaps), ids) == Without(ms, ids)
  {
    if gaps == [] {
      FillNothing(ms, 0, gaps);
    } else {
      var init, g := gaps[..|gaps| - 1], gaps[|gaps| - 1];
      assert gaps == init + [g];
      FillWithoutGaps(ms, init, ids);
      var q := OneMoreGap(ms, init, g);
      InsertionVanishes(Fill(ms, 0, init), q, g, ids);
    }
  }

  /** The original messages survive in order: taking the newly answered ids' results out gives them back. */
  lemma BackfillKeepsTheOriginals(ms: seq<Message>)
    ensures Without(Backfill(ms), GapIds(MissingResults(ms))) == ms
  {
    MissingResultsFit(ms);
    GapIdMembers(MissingResults(ms));
    FillWithoutGaps(ms, MissingResults(ms), GapIds(MissingResults(ms)));
    WithoutNone(ms, GapIds(MissingResults(ms)));
  }

  lemma {:induction false} GapIdMembers(gaps: seq<Gap>)
    ensures forall g :: g in gaps ==> g.id in GapIds(gaps)
    ensures (forall g :: g in gaps ==> g.id != "") ==> "" !in GapIds(gaps)
  {
    if gaps != [] {
      assert gaps == gaps[..|gaps| - 1] + [gaps[|gaps| - 1]];
      GapIdMembers(gaps[..|gaps| - 1]);
    }
  }
}

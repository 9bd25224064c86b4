/**
 Chat messages as the model-facing history holds them, and the bookkeeping of which tool
 calls a list of messages makes and which results it carries.
 */
module Messages {
  import opened Text

  datatype Role = System | User | Assistant | Tool | OtherRole(roleName: string)

  /** One element of a list-shaped content; only pure text parts can be flattened. */
  datatype Part = TextPart(text: string) | OtherPart(data: string)

  datatype Content = Missing | Str(text: string) | Parts(parts: seq<Part>) | Payload(data: string, truthy: bool) {
    predicate Truthy() {
      match this
      case Missing => false
      case Str(text) => text != ""
      case Parts(parts) => parts != []
      case Payload(_, truthy) => truthy
    }
  }

  /** The value stored under a call's `name` key; a non-string is kept as its `str()` rendering. */
  datatype NameField = NoName | StringName(text: string) | OtherName(rendered: string)

  /**
   One element of `tool_calls`. `id` is the `str()` of the stored id, or "" when the stored
   id is missing or falsy; `fn` is present when the `function` key holds a mapping.
   */
  datatype ToolCall = NotADict | Call(id: string, fn: Option<NameField>, topName: NameField)

  /**
   A message mapping. An absent `tool_calls` key and an empty list are one value, and so are
   an absent and a falsy `tool_call_id`: the code never tells them apart.
   */
  datatype Message = Message(
    role: Role, content: Content, calls: seq<ToolCall>, callId: string, name: Option<string>, rest: string)

  function NameOf(call: ToolCall): NameField
    requires call.Call?
  {
    if call.fn.Some? then call.fn.value else call.topName
  }

  predicate HasValidName(call: ToolCall) {
    call.Call? && NameOf(call).StringName? && NameOf(call).text != ""
  }

  /** The ids of a list of calls, with multiplicity; calls without an id do not count. */
  function CallIds(calls: seq<ToolCall>): multiset<string> {
    if calls == [] then multiset{}
    else
      CallIds(calls[..|calls| - 1]) +
      (var c := calls[|calls| - 1]; if c.Call? && c.id != "" then multiset{c.id} else multiset{})
  }

  function DeclaredBy(m: Message): multiset<string> {
    if m.role.Assistant? then CallIds(m.calls) else multiset{}
  }

  function AnsweredBy(m: Message): multiset<string> {
    if m.role.Tool? && m.callId != "" then multiset{m.callId} else multiset{}
  }

  /** Every call id a history declares, with multiplicity. */
  function Declared(ms: seq<Message>): multiset<string> {
    if ms == [] then multiset{} else Declared(ms[..|ms| - 1]) + DeclaredBy(ms[|ms| - 1])
  }

  /** Every call id a history carries a tool result for, with multiplicity. */
  function Answered(ms: seq<Message>): multiset<string> {
    if ms == [] then multiset{} else Answered(ms[..|ms| - 1]) + AnsweredBy(ms[|ms| - 1])
  }

  ghost predicate NoRepeats(ids: multiset<string>) {
    forall id :: ids[id] <= 1
  }

  lemma FewerRepeats(some: multiset<string>, all: multiset<string>)
    requires some <= all && NoRepeats(all)
    ensures NoRepeats(some)
  {
    forall id
      ensures some[id] <= 1
    {
      assert some[id] <= all[id];
    }
  }

  function IdSetOf(ids: multiset<string>): set<string> {
    set id | id in ids
  }

  ghost predicate DistinctCalls(ms: seq<Message>) {
    NoRepeats(Declared(ms))
  }

  /**
   No orphan: every result in `ms` has an id and answers a call declared before it, either
   in `ms` or among the ids `before`.
   */
  predicate AnswersEarlierCalls(before: multiset<string>, ms: seq<Message>) {
    ms == [] ||
    (AnswersEarlierCalls(before, ms[..|ms| - 1]) &&
     var m := ms[|ms| - 1];
     m.role.Tool? ==> m.callId != "" && m.callId in before + Declared(ms[..|ms| - 1]))
  }

  /** What the orphan-dropping pass establishes. */
  ghost predicate Legal(ms: seq<Message>) {
    AnswersEarlierCalls(multiset{}, ms) && NoRepeats(Answered(ms))
  }

  /** What the back-filling pass establishes. */
  ghost predicate Complete(ms: seq<Message>) {
    forall id :: id in Declared(ms) ==> id in Answered(ms)
  }

  ghost predicate WellPaired(ms: seq<Message>) {
    Legal(ms) && Complete(ms)
  }

  lemma {:induction false} ConcatCounts(a: seq<Message>, b: seq<Message>)
    ensures Declared(a + b) == Declared(a) + Declared(b)
    ensures Answered(a + b) == Answered(a) + Answered(b)
  {
    if b == [] {
      assert a + b == a;
    } else {
      assert (a + b)[..|a + b| - 1] == a + b[..|b| - 1];
      ConcatCounts(a, b[..|b| - 1]);
    }
  }

  lemma {:induction false} ConcatAnswersEarlier(before: multiset<string>, a: seq<Message>, b: seq<Message>)
    ensures AnswersEarlierCalls(before, a + b) <==>
            AnswersEarlierCalls(before, a) && AnswersEarlierCalls(before + Declared(a), b)
  {
    if b == [] {
      assert a + b == a;
    } else {
      var init := b[..|b| - 1];
      assert (a + b)[..|a + b| - 1] == a + init;
      ConcatAnswersEarlier(before, a, init);
      ConcatCounts(a, init);
      assert before + Declared(a) + Declared(init) == before + (Declared(a) + Declared(init));
    }
  }

  /** A result without an orphan answers something that was declared. */
  lemma {:induction false} AnsweredWereDeclared(before: multiset<string>, ms: seq<Message>, id: string)
    requires AnswersEarlierCalls(before, ms)
    requires id in Answered(ms)
    ensures id in before + Declared(ms)
  {
    if ms != [] && id in Answered(ms[..|ms| - 1]) {
      AnsweredWereDeclared(before, ms[..|ms| - 1], id);
    }
  }

  lemma {:induction false} AnswersEarlierAt(before: multiset<string>, ms: seq<Message>, j: nat)
    requires AnswersEarlierCalls(before, ms) && j < |ms| && ms[j].role.Tool?
    ensures ms[j].callId != "" && ms[j].callId in before + Declared(ms[..j])
  {
    assert ms[..j + 1] + ms[j + 1..] == ms;
    ConcatAnswersEarlier(before, ms[..j + 1], ms[j + 1..]);
    assert ms[..j + 1][..j] == ms[..j];
  }

  /** Declaring or answering an id happens at some position. */
  lemma {:induction false} DeclaredSomewhere(ms: seq<Message>, id: string) returns (i: nat)
    requires id in Declared(ms)
    ensures i < |ms| && id in DeclaredBy(ms[i])
  {
    if id in Declared(ms[..|ms| - 1]) {
      i := DeclaredSomewhere(ms[..|ms| - 1], id);
    } else {
      i := |ms| - 1;
    }
  }

  lemma {:induction false} AnsweredSomewhere(ms: seq<Message>, id: string) returns (j: nat)
    requires id in Answered(ms)
    ensures j < |ms| && id in AnsweredBy(ms[j])
  {
    if id in Answered(ms[..|ms| - 1]) {
      j := AnsweredSomewhere(ms[..|ms| - 1], id);
    } else {
      j := |ms| - 1;
    }
  }

  lemma {:induction false} SplitAt(ms: seq<Message>, i: nat)
    requires i < |ms|
    ensures Declared(ms) == Declared(ms[..i]) + DeclaredBy(ms[i]) + Declared(ms[i + 1..])
    ensures Answered(ms) == Answered(ms[..i]) + AnsweredBy(ms[i]) + Answered(ms[i + 1..])
  {
    assert ms == ms[..i + 1] + ms[i + 1..];
    ConcatCounts(ms[..i + 1], ms[i + 1..]);
    assert ms[..i + 1][..i] == ms[..i];
  }

  lemma {:induction false} TwoAnswers(ms: seq<Message>, i: nat, j: nat, id: string)
    requires i < j < |ms| && id in AnsweredBy(ms[i]) && id in AnsweredBy(ms[j])
    ensures Answered(ms)[id] >= 2
  {
    SplitAt(ms, j);
    SplitAt(ms[..j], i);
  }

  /** The tool results a reader would look for: position `j` answers a call made at position `i`. */
  predicate IsResultFor(m: Message, id: string) {
    m.role.Tool? && m.callId == id
  }

  /** Position `j` holds the one result for `id`, behind position `i`. */
  ghost predicate IsTheAnswer(ms: seq<Message>, i: nat, id: string, j: nat) {
    && i < j < |ms| && IsResultFor(ms[j], id)
    && forall k :: 0 <= k < |ms| && IsResultFor(ms[k], id) ==> k == j
  }

  /** Every call is answered exactly once, later than it is made. */
  ghost predicate AnsweredOnceLater(ms: seq<Message>) {
    forall i, id :: 0 <= i < |ms| && id in DeclaredBy(ms[i]) ==> exists j :: IsTheAnswer(ms, i, id, j)
  }

  /** Every tool result answers an earlier call. */
  ghost predicate ResultsAnswerEarlier(ms: seq<Message>) {
    forall j :: 0 <= j < |ms| && ms[j].role.Tool? ==> exists i :: 0 <= i < j && ms[j].callId in DeclaredBy(ms[i])
  }

  /**
   The multiset form of the pairing invariant in terms of positions: the positional form implies it
   for every list, and with pairwise distinct call ids the two are the same.
   */
  lemma WellPairedByPosition(ms: seq<Message>)
    ensures AnsweredOnceLater(ms) && ResultsAnswerEarlier(ms) ==> WellPaired(ms)
    ensures DistinctCalls(ms) ==> (WellPaired(ms) <==> AnsweredOnceLater(ms) && ResultsAnswerEarlier(ms))
  {
    if WellPaired(ms) && DistinctCalls(ms) {
      PairsHavePositions(ms);
    }
    if AnsweredOnceLater(ms) && ResultsAnswerEarlier(ms) {
      EarlierByPosition(ms);
      CompleteByPosition(ms);
      NoRepeatsByPosition(ms);
    }
  }

  lemma {:induction false} PairsHavePositions(ms: seq<Message>)
    requires WellPaired(ms) && DistinctCalls(ms)
    ensures AnsweredOnceLater(ms) && ResultsAnswerEarlier(ms)
  {
    forall i, id | 0 <= i < |ms| && id in DeclaredBy(ms[i])
      ensures exists j :: IsTheAnswer(ms, i, id, j)
    {
      var j := TheAnswer(ms, i, id);
      assert IsTheAnswer(ms, i, id, j);
    }
    forall j | 0 <= j < |ms| && ms[j].role.Tool?
      ensures exists i :: 0 <= i < j && ms[j].callId in DeclaredBy(ms[i])
    {
      AnswersEarlierAt(multiset{}, ms, j);
      var i := DeclaredSomewhere(ms[..j], ms[j].callId);
      assert ms[..j][i] == ms[i];
    }
  }

  lemma DeclaredAt(ms: seq<Message>, i: nat, id: string)
    requires i < |ms| && id in DeclaredBy(ms[i])
    ensures id in Declared(ms) && id != ""
  {
    SplitAt(ms, i);
    CallIdsAreNamed(ms[i].calls);
  }

  lemma {:induction false} EarlierByPosition(ms: seq<Message>)
    requires ResultsAnswerEarlier(ms)
    ensures AnswersEarlierCalls(multiset{}, ms)
  {
    if ms != [] {
      var init, n := ms[..|ms| - 1], |ms| - 1;
      forall j | 0 <= j < |init| && init[j].role.Tool?
        ensures exists i :: 0 <= i < j && init[j].callId in DeclaredBy(init[i])
      {
        var i :| 0 <= i < j && ms[j].callId in DeclaredBy(ms[i]);
        assert init[i] == ms[i];
      }
      EarlierByPosition(init);
      if ms[n].role.Tool? {
        var i :| 0 <= i < n && ms[n].callId in DeclaredBy(ms[i]);
        assert init[i] == ms[i];
        DeclaredAt(init, i, ms[n].callId);
      }
    }
  }

  lemma CompleteByPosition(ms: seq<Message>)
    requires AnsweredOnceLater(ms)
    ensures Complete(ms)
  {
    forall id | id in Declared(ms)
      ensures id in Answered(ms)
    {
      var i := DeclaredSomewhere(ms, id);
      var j :| IsTheAnswer(ms, i, id, j);
      DeclaredAt(ms, i, id);
      SplitAt(ms, j);
    }
  }

  lemma {:induction false} AnsweredTwice(ms: seq<Message>, id: string) returns (i: nat, j: nat)
    requires Answered(ms)[id] >= 2
    ensures i < j < |ms| && id in AnsweredBy(ms[i]) && id in AnsweredBy(ms[j])
  {
    var init := ms[..|ms| - 1];
    if Answered(init)[id] >= 2 {
      i, j := AnsweredTwice(init, id);
    } else {
      i := AnsweredSomewhere(init, id);
      j := |ms| - 1;
    }
  }

  lemma OneResultEach(ms: seq<Message>, i: nat, j: nat)
    requires AnsweredOnceLater(ms) && ResultsAnswerEarlier(ms)
    requires i < |ms| && j < |ms| && ms[i].role.Tool? && IsResultFor(ms[j], ms[i].callId)
    ensures i == j
  {
    hide DeclaredBy;
    var id := ms[i].callId;
    var d :| 0 <= d < i && id in DeclaredBy(ms[d]);
    var k :| IsTheAnswer(ms, d, id, k);
    assert IsResultFor(ms[i], id);
    assert i == k;
    assert j == k;
  }

  lemma NoRepeatsByPosition(ms: seq<Message>)
    requires AnsweredOnceLater(ms) && ResultsAnswerEarlier(ms)
    ensures NoRepeats(Answered(ms))
  {
    forall id
      ensures Answered(ms)[id] <= 1
    {
      if Answered(ms)[id] >= 2 {
        var i, j := AnsweredTwice(ms, id);
        OneResultEach(ms, i, j);
      }
    }
  }

  lemma {:induction false} CallIdsAreNamed(calls: seq<ToolCall>)
    ensures "" !in CallIds(calls)
  {
    if calls != [] {
      CallIdsAreNamed(calls[..|calls| - 1]);
    }
  }

  lemma {:induction false} DeclaredTwice(ms: seq<Message>, i: nat, j: nat, id: string)
    requires j <= i < |ms| && id in Declared(ms[..j]) && id in DeclaredBy(ms[i])
    ensures Declared(ms)[id] >= 2
  {
    assert ms[..i] == ms[..j] + ms[j..i];
    ConcatCounts(ms[..j], ms[j..i]);
    SplitAt(ms, i);
  }

  /** A call's result cannot stand before the call when nothing else declares the id. */
  lemma {:induction false} ResultsComeLater(ms: seq<Message>, i: nat, j: nat, id: string)
    requires AnswersEarlierCalls(multiset{}, ms) && DistinctCalls(ms)
    requires i < |ms| && id in DeclaredBy(ms[i])
    requires j < |ms| && IsResultFor(ms[j], id)
    ensures i < j
  {
    AnswersEarlierAt(multiset{}, ms, j);
    if j <= i {
      DeclaredTwice(ms, i, j, id);
    }
  }

  lemma {:induction false} TheAnswer(ms: seq<Message>, i: nat, id: string) returns (j: nat)
    requires WellPaired(ms) && DistinctCalls(ms)
    requires i < |ms| && id in DeclaredBy(ms[i])
    ensures i < j < |ms| && IsResultFor(ms[j], id)
    ensures forall k :: 0 <= k < |ms| && IsResultFor(ms[k], id) ==> k == j
  {
    CallIdsAreNamed(ms[i].calls);
    assert id in Declared(ms) by {
      SplitAt(ms, i);
    }
    j := AnsweredSomewhere(ms, id);
    ResultsComeLater(ms, i, j, id);
    forall k | 0 <= k < |ms| && IsResultFor(ms[k], id)
      ensures k == j
    {
      if k < j {
        TwoAnswers(ms, k, j, id);
      } else if j < k {
        TwoAnswers(ms, j, k, id);
      }
    }
  }

  /** Lists that agree on everything but the content of their tool results. */
  ghost predicate SameSkeleton(a: seq<Message>, b: seq<Message>) {
    |a| == |b| &&
    forall i :: 0 <= i < |a| ==>
      a[i] == b[i] || (a[i].role.Tool? && b[i] == a[i].(content := b[i].content))
  }

  /** Content rewrites cannot disturb the pairing. */
  lemma {:induction false} SkeletonKeepsPairing(before: multiset<string>, a: seq<Message>, b: seq<Message>)
    requires SameSkeleton(a, b)
    ensures Declared(a) == Declared(b) && Answered(a) == Answered(b)
    ensures AnswersEarlierCalls(before, a) == AnswersEarlierCalls(before, b)
  {
    if a != [] {
      var n := |a| - 1;
      assert b[..n] == b[..|b| - 1];
      SkeletonKeepsPairing(before, a[..n], b[..n]);
    }
  }
}

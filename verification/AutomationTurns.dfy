/**
 Coordination of session-bound automation turns: callers waiting for an answer, turns deferred
 behind a busy session, and completions. Each operation is one atomic step between two awaits;
 a run is any interleaving of them.
 */
module AutomationTurns {
  import opened Text

  datatype Message = Message(channel: string, chatId: string, keyOverride: Option<string>, content: string)

  function SessionKey(m: Message): string {
    if m.keyOverride.Some? && m.keyOverride.value != "" then m.keyOverride.value
    else m.channel + ":" + m.chatId
  }

  /** An exception: a turn error, a cancellation, another `Exception`, or one outside `Exception`. */
  datatype Error =
    | TurnError(text: string)
    | CancelledError(text: string)
    | OtherError(name: string, text: string)
    | FatalError(name: string, text: string)

  datatype Future = Pending | Result(response: Option<string>) | Exception(error: Error) | Cancelled

  datatype Outcome = Returned(response: Option<string>) | Raised(error: Error)

  /** Where a `submit` call is: handing its message over, awaiting its future, or finished. */
  datatype Phase = Sending | Waiting(mustCancel: bool) | Ended(outcome: Outcome)

  datatype Call = Call(turn: string, message: Message, onBus: bool, future: Future, phase: Phase)

  /** What the coordinator is built with. */
  datatype Callbacks = Callbacks(
    turnId: Message -> Option<string>,
    pendingId: Message -> Option<string>,
    shouldDefer: (Message, string, set<string>) -> bool)

  datatype Entry = Entry(session: string, message: Message)

  /** The two tables, the queues, every call ever made, and the logs of deferred and released turns. */
  datatype State = State(
    waiters: map<string, nat>, pending: map<string, Message>, queues: map<string, seq<Message>>,
    calls: seq<Call>, deferred: seq<Entry>, released: seq<Entry>)

  const INITIAL := State(map[], map[], map[], [], [], [])

  /** An id callback's answer; the empty string counts as no id. */
  function NonEmpty(id: Option<string>): Option<string> {
    if id == Some("") then None else id
  }

  function QueueOf(queues: map<string, seq<Message>>, session: string): seq<Message> {
    if session in queues then queues[session] else []
  }

  function OfSession(log: seq<Entry>, session: string): seq<Message> {
    if log == [] then []
    else
      var rest := OfSession(log[..|log| - 1], session);
      var e := log[|log| - 1];
      if e.session == session then rest + [e.message] else rest
  }

  predicate Live(c: Call) {
    !c.phase.Ended?
  }

  // ----- The steps -----

  datatype SubmitError = MissingId | DuplicateId(turn: string)

  function SubmitProblem(cb: Callbacks, s: State, m: Message): Option<SubmitError> {
    match NonEmpty(cb.turnId(m))
    case None => Some(MissingId)
    case Some(t) => if t in s.waiters then Some(DuplicateId(t)) else None
  }

  function Begin(cb: Callbacks, s: State, m: Message, running: bool): State {
    if SubmitProblem(cb, s, m).Some? then s
    else
      var t := cb.turnId(m).value;
      s.(waiters := s.waiters[t := |s.calls|], pending := s.pending[t := m],
         calls := s.calls + [Call(t, m, running, Pending, Sending)])
  }

  /** What awaiting a finished future gives `submit`'s caller. */
  function Delivered(f: Future): Outcome
    requires !f.Pending?
  {
    match f
    case Result(r) => Returned(r)
    case Cancelled => Raised(CancelledError(""))
    case Exception(OtherError(name, text)) => Raised(TurnError(if text != "" then text else name))
    case Exception(e) => Raised(e)
  }

  function End(s: State, k: nat, outcome: Outcome): State
    requires k < |s.calls|
  {
    s.(waiters := s.waiters - {s.calls[k].turn}, pending := s.pending - {s.calls[k].turn},
       calls := s.calls[k := s.calls[k].(phase := Ended(outcome))])
  }

  /** The message was handed over; the call goes on to await its future. */
  function Sent(s: State, k: nat): State {
    if k >= |s.calls| || !s.calls[k].phase.Sending? then s
    else if s.calls[k].future.Pending? then s.(calls := s.calls[k := s.calls[k].(phase := Waiting(false))])
    else End(s, k, Delivered(s.calls[k].future))
  }

  /** Handing the message over failed, or was cancelled. */
  function SendFailed(s: State, k: nat, e: Error): State {
    if k >= |s.calls| || !s.calls[k].phase.Sending? then s else End(s, k, Raised(e))
  }

  /** The waiting task is cancelled: its future with it, unless the answer is already there. */
  function Cancel(s: State, k: nat): State {
    if k >= |s.calls| || !s.calls[k].phase.Waiting? then s
    else if s.calls[k].future.Pending? then s.(calls := s.calls[k := s.calls[k].(future := Cancelled)])
    else s.(calls := s.calls[k := s.calls[k].(phase := Waiting(true))])
  }

  function Resume(s: State, k: nat): State {
    if k >= |s.calls| || !s.calls[k].phase.Waiting? || s.calls[k].future.Pending? then s
    else if s.calls[k].phase.mustCancel then End(s, k, Raised(CancelledError("")))
    else End(s, k, Delivered(s.calls[k].future))
  }

  /** The message as it is queued: it carries the session it was deferred for. */
  function Retargeted(m: Message, session: string): Message {
    if session == SessionKey(m) then m else m.(keyOverride := Some(session))
  }

  function Defer(cb: Callbacks, s: State, m: Message, session: string, active: set<string>): State {
    if !cb.shouldDefer(m, session, active) then s
    else
      var m' := Retargeted(m, session);
      s.(queues := s.queues[session := QueueOf(s.queues, session) + [m']],
         deferred := s.deferred + [Entry(session, m')])
  }

  function PublishNext(s: State, session: string): State {
    var q := QueueOf(s.queues, session);
    if q == [] then s
    else
      s.(queues := if |q| == 1 then s.queues - {session} else s.queues[session := q[1..]],
         released := s.released + [Entry(session, q[0])])
  }

  /** What a completion puts into the future; a cancellation becomes a turn error. */
  function Settled(response: Option<string>, error: Option<Error>): (f: Future)
    ensures !f.Pending? && !f.Cancelled?
    ensures f.Exception? ==> !f.error.CancelledError?
    ensures error.None? ==> f == Result(response)
    ensures error.Some? ==> f.Exception? && (error.value.CancelledError? ==> f.error.TurnError?)
    ensures error.Some? && !error.value.CancelledError? ==> f.error == error.value
  {
    match error
    case None => Result(response)
    case Some(CancelledError(text)) => Exception(TurnError(if text != "" then text else "CancelledError"))
    case Some(e) => Exception(e)
  }

  function Complete(cb: Callbacks, s: State, m: Message, response: Option<string>, error: Option<Error>): State {
    match NonEmpty(cb.turnId(m))
    case None => s
    case Some(t) =>
      if t !in s.waiters || s.waiters[t] >= |s.calls| || !s.calls[s.waiters[t]].future.Pending? then s
      else
        var k := s.waiters[t];
        s.(calls := s.calls[k := s.calls[k].(future := Settled(response, error))])
  }

  datatype Op =
    | OpBegin(message: Message, running: bool)
    | OpSent(call: nat)
    | OpSendFailed(call: nat, failure: Error)
    | OpCancel(call: nat)
    | OpResume(call: nat)
    | OpDefer(message: Message, session: string, active: set<string>)
    | OpPublishNext(session: string)
    | OpComplete(message: Message, response: Option<string>, error: Option<Error>)

  function Step(cb: Callbacks, s: State, op: Op): State {
    match op
    case OpBegin(m, running) => Begin(cb, s, m, running)
    case OpSent(k) => Sent(s, k)
    case OpSendFailed(k, e) => SendFailed(s, k, e)
    case OpCancel(k) => Cancel(s, k)
    case OpResume(k) => Resume(s, k)
    case OpDefer(m, session, active) => Defer(cb, s, m, session, active)
    case OpPublishNext(session) => PublishNext(s, session)
    case OpComplete(m, response, error) => Complete(cb, s, m, response, error)
  }

  function Run(cb: Callbacks, ops: seq<Op>): State {
    if ops == [] then INITIAL else Step(cb, Run(cb, ops[..|ops| - 1]), ops[|ops| - 1])
  }

  // ----- The tables -----

  /** Both tables hold exactly the live calls, one per turn id. */
  ghost predicate TablesAgree(s: State) {
    && s.waiters.Keys == s.pending.Keys
    && (forall t :: t in s.waiters ==> OwnsTurn(s, s.waiters[t], t))
    && (forall k :: 0 <= k < |s.calls| && Live(s.calls[k]) ==> RegisteredAs(s, k, s.calls[k].turn))
  }

  ghost predicate OwnsTurn(s: State, k: nat, t: string) {
    k < |s.calls| && Live(s.calls[k]) && s.calls[k].turn == t && t in s.pending && s.pending[t] == s.calls[k].message
  }

  ghost predicate RegisteredAs(s: State, k: nat, t: string) {
    t in s.waiters && s.waiters[t] == k
  }

  lemma BeginKeepsTables(cb: Callbacks, s: State, m: Message, running: bool)
    requires TablesAgree(s)
    ensures TablesAgree(Begin(cb, s, m, running))
  {
    if SubmitProblem(cb, s, m).None? {
      var after, t := Begin(cb, s, m, running), cb.turnId(m).value;
      forall u | u in after.waiters
        ensures OwnsTurn(after, after.waiters[u], u)
      {
        assert u != t ==> OwnsTurn(s, s.waiters[u], u);
      }
      forall k | 0 <= k < |after.calls| && Live(after.calls[k])
        ensures RegisteredAs(after, k, after.calls[k].turn)
      {
        assert k < |s.calls| ==> RegisteredAs(s, k, s.calls[k].turn);
      }
    }
  }

  /** Ending a live call takes its own entries out of the tables, never another call's. */
  lemma EndKeepsTables(s: State, k: nat, outcome: Outcome)
    requires TablesAgree(s) && k < |s.calls| && Live(s.calls[k])
    ensures TablesAgree(End(s, k, outcome))
    ensures s.calls[k].turn in s.waiters && s.waiters[s.calls[k].turn] == k
  {
    var after := End(s, k, outcome);
    assert RegisteredAs(s, k, s.calls[k].turn);
    forall u | u in after.waiters
      ensures OwnsTurn(after, after.waiters[u], u)
    {
      assert OwnsTurn(s, s.waiters[u], u);
    }
    forall j | 0 <= j < |after.calls| && Live(after.calls[j])
      ensures RegisteredAs(after, j, after.calls[j].turn)
    {
      assert RegisteredAs(s, j, s.calls[j].turn);
    }
  }

  /** A call may change its future or go from one live phase to another. */
  lemma LiveChangeKeepsTables(s: State, k: nat, c: Call)
    requires TablesAgree(s) && k < |s.calls| && Live(s.calls[k]) && Live(c)
    requires c.turn == s.calls[k].turn && c.message == s.calls[k].message
    ensures TablesAgree(s.(calls := s.calls[k := c]))
  {
    var after := s.(calls := s.calls[k := c]);
    forall u | u in after.waiters
      ensures OwnsTurn(after, after.waiters[u], u)
    {
      assert OwnsTurn(s, s.waiters[u], u);
    }
    forall j | 0 <= j < |after.calls| && Live(after.calls[j])
      ensures RegisteredAs(after, j, after.calls[j].turn)
    {
      assert RegisteredAs(s, j, s.calls[j].turn);
    }
  }

  lemma CallStepKeepsTables(s: State, op: Op, cb: Callbacks)
    requires TablesAgree(s) && (op.OpSent? || op.OpSendFailed? || op.OpCancel? || op.OpResume?)
    ensures TablesAgree(Step(cb, s, op))
  {
    var k := op.call;
    if k < |s.calls| && Live(s.calls[k]) {
      var c := s.calls[k];
      match op
      case OpSent(_) =>
        if c.phase.Sending? && c.future.Pending? {
          LiveChangeKeepsTables(s, k, c.(phase := Waiting(false)));
        } else if c.phase.Sending? {
          EndKeepsTables(s, k, Delivered(c.future));
        }
      case OpSendFailed(_, e) => EndKeepsTables(s, k, Raised(e));
      case OpCancel(_) =>
        LiveChangeKeepsTables(s, k, c.(future := Cancelled));
        LiveChangeKeepsTables(s, k, c.(phase := Waiting(true)));
      case OpResume(_) =>
        if !c.future.Pending? {
          EndKeepsTables(s, k, Raised(CancelledError("")));
          EndKeepsTables(s, k, Delivered(c.future));
        }
    }
  }

  lemma StepKeepsTables(cb: Callbacks, s: State, op: Op)
    requires TablesAgree(s)
    ensures TablesAgree(Step(cb, s, op))
  {
    match op
    case OpBegin(m, running) => BeginKeepsTables(cb, s, m, running);
    case OpDefer(m, session, active) => SameTables(s, Step(cb, s, op));
    case OpPublishNext(session) => SameTables(s, Step(cb, s, op));
    case OpComplete(m, response, error) =>
      var t := NonEmpty(cb.turnId(m));
      if t.Some? && t.value in s.waiters && s.calls[s.waiters[t.value]].future.Pending? {
        var k := s.waiters[t.value];
        assert OwnsTurn(s, k, t.value);
        LiveChangeKeepsTables(s, k, s.calls[k].(future := Settled(response, error)));
      }
    case _ => CallStepKeepsTables(s, op, cb);
  }

  lemma SameTables(s: State, after: State)
    requires TablesAgree(s) && after.waiters == s.waiters && after.pending == s.pending && after.calls == s.calls
    ensures TablesAgree(after)
  {
    forall u | u in after.waiters
      ensures OwnsTurn(after, after.waiters[u], u)
    {
      assert OwnsTurn(s, s.waiters[u], u);
    }
    forall j | 0 <= j < |after.calls| && Live(after.calls[j])
      ensures RegisteredAs(after, j, after.calls[j].turn)
    {
      assert RegisteredAs(s, j, s.calls[j].turn);
    }
  }

  // ----- The queues -----

  /**
   No empty queue is stored, a queued turn carries its queue's session (the empty key excepted),
   and per session the released turns followed by the queue are the deferred turns, in order.
   */
  ghost predicate QueuesAgree(s: State) {
    && (forall q :: q in s.queues ==> s.queues[q] != [])
    && (forall q :: q in s.queues ==> CarrySession(s.queues[q], q))
    && (forall q :: InOrder(s, q))
  }

  predicate CarrySession(queue: seq<Message>, session: string) {
    forall i :: 0 <= i < |queue| ==> (SessionKey(queue[i]) == session <==> session != "")
  }

  ghost predicate InOrder(s: State, session: string) {
    OfSession(s.released, session) + QueueOf(s.queues, session) == OfSession(s.deferred, session)
  }

  lemma LogGrows(log: seq<Entry>, e: Entry, session: string)
    ensures OfSession(log + [e], session) ==
            if e.session == session then OfSession(log, session) + [e.message] else OfSession(log, session)
  {
    assert (log + [e])[..|log|] == log;
  }

  lemma RetargetedCarries(m: Message, session: string)
    ensures SessionKey(Retargeted(m, session)) == session <==> session != ""
  {
    assert (m.channel + ":" + m.chatId)[|m.channel|] == ':';
  }

  lemma DeferKeepsQueues(cb: Callbacks, s: State, m: Message, session: string, active: set<string>)
    requires QueuesAgree(s)
    ensures QueuesAgree(Defer(cb, s, m, session, active))
  {
    if cb.shouldDefer(m, session, active) {
      var after := Defer(cb, s, m, session, active);
      RetargetedCarries(m, session);
      forall q
        ensures InOrder(after, q)
      {
        assert InOrder(s, q);
        LogGrows(s.deferred, Entry(session, Retargeted(m, session)), q);
      }
    }
  }

  /** The session of a message: the key it was given, or its channel and chat. */
  ghost predicate BelongsTo(m: Message, session: string) {
    if m.keyOverride in {None, Some("")} then session == m.channel + ":" + m.chatId
    else m.keyOverride == Some(session)
  }

  /**
   A deferred turn is the message itself, carrying the session it is deferred for, at the end of that
   session's queue; without a reason to defer nothing happens, and other queues stay in any case.
   */
  lemma DeferredTurnIsTheMessage(cb: Callbacks, s: State, m: Message, session: string, active: set<string>)
    ensures var after := Defer(cb, s, m, session, active);
            && (forall other :: other != session ==> QueueOf(after.queues, other) == QueueOf(s.queues, other))
            && (!cb.shouldDefer(m, session, active) ==> after == s)
            && (cb.shouldDefer(m, session, active) ==>
                  exists m': Message ::
                    && QueueOf(after.queues, session) == QueueOf(s.queues, session) + [m']
                    && after.deferred == s.deferred + [Entry(session, m')]
                    && m'.channel == m.channel && m'.chatId == m.chatId && m'.content == m.content
                    && (BelongsTo(m, session) ==> m' == m)
                    && (!BelongsTo(m, session) ==> m'.keyOverride == Some(session)))
  {
    assert cb.shouldDefer(m, session, active) ==>
             QueueOf(Defer(cb, s, m, session, active).queues, session) ==
             QueueOf(s.queues, session) + [Retargeted(m, session)];
  }

  lemma NextInOrder(s: State, session: string, other: string)
    requires InOrder(s, other)
    ensures InOrder(PublishNext(s, session), other)
  {
    var q := QueueOf(s.queues, session);
    if q != [] {
      LogGrows(s.released, Entry(session, q[0]), other);
      assert q == [q[0]] + q[1..];
      if other != session {
        assert QueueOf(PublishNext(s, session).queues, other) == QueueOf(s.queues, other);
      }
    }
  }

  lemma PublishNextKeepsQueues(s: State, session: string)
    requires QueuesAgree(s)
    ensures QueuesAgree(PublishNext(s, session))
  {
    var after := PublishNext(s, session);
    forall r
      ensures InOrder(after, r)
    {
      assert InOrder(s, r);
      NextInOrder(s, session, r);
    }
    forall q | q in after.queues
      ensures after.queues[q] != [] && CarrySession(after.queues[q], q)
    {
      assert q in s.queues && CarrySession(s.queues[q], q);
      assert q != session ==> after.queues[q] == s.queues[q];
    }
  }

  lemma StepKeepsQueues(cb: Callbacks, s: State, op: Op)
    requires QueuesAgree(s)
    ensures QueuesAgree(Step(cb, s, op))
  {
    match op
    case OpDefer(m, session, active) => DeferKeepsQueues(cb, s, m, session, active);
    case OpPublishNext(session) => PublishNextKeepsQueues(s, session);
    case _ =>
      var after := Step(cb, s, op);
      assert after.queues == s.queues && after.deferred == s.deferred && after.released == s.released;
      forall q
        ensures InOrder(after, q)
      {
        assert InOrder(s, q);
      }
  }

  /** Safety in every interleaving. */
  lemma {:induction false} RunsAgree(cb: Callbacks, ops: seq<Op>)
    ensures TablesAgree(Run(cb, ops)) && QueuesAgree(Run(cb, ops))
  {
    if ops == [] {
      forall q
        ensures InOrder(INITIAL, q)
      {
      }
    } else {
      RunsAgree(cb, ops[..|ops| - 1]);
      StepKeepsTables(cb, Run(cb, ops[..|ops| - 1]), ops[|ops| - 1]);
      StepKeepsQueues(cb, Run(cb, ops[..|ops| - 1]), ops[|ops| - 1]);
    }
  }

  // ----- Several coordinators, one set of queues -----

  /** What belongs to one coordinator alone. */
  datatype Tables = Tables(waiters: map<string, nat>, pending: map<string, Message>, calls: seq<Call>)

  /** The coordinators of one agent loop and the queues they share. */
  datatype Loop = Loop(
    tables: seq<Tables>, queues: map<string, seq<Message>>, deferred: seq<Entry>, released: seq<Entry>)

  /** A step taken by one of the coordinators; releasing a turn is the loop's own and takes any of them. */
  datatype Act = Act(who: nat, op: Op)

  function TablesOf(s: State): Tables {
    Tables(s.waiters, s.pending, s.calls)
  }

  /** The state as coordinator `i` sees it. */
  function Seen(l: Loop, i: nat): State
    requires i < |l.tables|
  {
    var t := l.tables[i];
    State(t.waiters, t.pending, l.queues, t.calls, l.deferred, l.released)
  }

  function LoopStep(cbs: seq<Callbacks>, l: Loop, act: Act): (after: Loop)
    requires |l.tables| == |cbs|
    ensures |after.tables| == |cbs|
  {
    if act.who >= |cbs| then l
    else
      var s := Step(cbs[act.who], Seen(l, act.who), act.op);
      Loop(l.tables[act.who := TablesOf(s)], s.queues, s.deferred, s.released)
  }

  function LoopRun(cbs: seq<Callbacks>, acts: seq<Act>): (l: Loop)
    ensures |l.tables| == |cbs|
  {
    if acts == [] then Loop(seq(|cbs|, _ => TablesOf(INITIAL)), map[], [], [])
    else LoopStep(cbs, LoopRun(cbs, acts[..|acts| - 1]), acts[|acts| - 1])
  }

  /** The steps coordinator `i` took itself. */
  function OpsOf(acts: seq<Act>, i: nat): seq<Op> {
    if acts == [] then []
    else
      var ops := OpsOf(acts[..|acts| - 1], i);
      if acts[|acts| - 1].who == i then ops + [acts[|acts| - 1].op] else ops
  }

  lemma EndIgnoresQueues(s: State, t: State, k: nat, outcome: Outcome)
    requires TablesOf(s) == TablesOf(t) && k < |s.calls|
    ensures TablesOf(End(s, k, outcome)) == TablesOf(End(t, k, outcome))
  {}

  lemma CallStepIgnoresQueues(cb: Callbacks, s: State, t: State, op: Op)
    requires TablesOf(s) == TablesOf(t) && (op.OpSent? || op.OpSendFailed? || op.OpCancel? || op.OpResume?)
    ensures TablesOf(Step(cb, s, op)) == TablesOf(Step(cb, t, op))
  {
    hide Delivered, End;
    var k := op.call;
    if k < |s.calls| {
      forall outcome
        ensures TablesOf(End(s, k, outcome)) == TablesOf(End(t, k, outcome))
      {
        EndIgnoresQueues(s, t, k, outcome);
      }
    }
  }

  /** No step reads the queues to change the tables. */
  lemma TablesIgnoreQueues(cb: Callbacks, s: State, t: State, op: Op)
    requires TablesOf(s) == TablesOf(t)
    ensures TablesOf(Step(cb, s, op)) == TablesOf(Step(cb, t, op))
  {
    hide Sent, SendFailed, Cancel, Resume, Settled, Retargeted, QueueOf;
    if op.OpSent? || op.OpSendFailed? || op.OpCancel? || op.OpResume? {
      CallStepIgnoresQueues(cb, s, t, op);
    }
  }

  /** Each coordinator's calls and tables are those of a run of its own. */
  lemma {:induction false} OwnRun(cbs: seq<Callbacks>, acts: seq<Act>, i: nat)
    requires i < |cbs|
    ensures LoopRun(cbs, acts).tables[i] == TablesOf(Run(cbs[i], OpsOf(acts, i)))
  {
    hide Step;
    if acts != [] {
      var init, act := acts[..|acts| - 1], acts[|acts| - 1];
      OwnRun(cbs, init, i);
      if act.who == i {
        var ops := OpsOf(init, i);
        assert (ops + [act.op])[..|ops|] == ops;
        TablesIgnoreQueues(cbs[i], Seen(LoopRun(cbs, init), i), Run(cbs[i], ops), act.op);
      }
    }
  }

  lemma QueuesSeenByAnother(l: Loop, i: nat, j: nat)
    requires i < |l.tables| && j < |l.tables| && QueuesAgree(Seen(l, i))
    ensures QueuesAgree(Seen(l, j))
  {
    forall q
      ensures InOrder(Seen(l, j), q)
    {
      assert InOrder(Seen(l, i), q);
    }
  }

  lemma {:induction false} SharedQueuesAgree(cbs: seq<Callbacks>, acts: seq<Act>, i: nat)
    requires i < |cbs|
    ensures QueuesAgree(Seen(LoopRun(cbs, acts), i))
  {
    hide Step;
    if acts == [] {
      forall q
        ensures InOrder(Seen(LoopRun(cbs, acts), i), q)
      {
      }
    } else {
      hide QueuesAgree;
      var before, act := LoopRun(cbs, acts[..|acts| - 1]), acts[|acts| - 1];
      if act.who < |cbs| {
        SharedQueuesAgree(cbs, acts[..|acts| - 1], act.who);
        StepKeepsQueues(cbs[act.who], Seen(before, act.who), act.op);
        assert Seen(LoopRun(cbs, acts), act.who) == Step(cbs[act.who], Seen(before, act.who), act.op);
        QueuesSeenByAnother(LoopRun(cbs, acts), act.who, i);
      } else {
        SharedQueuesAgree(cbs, acts[..|acts| - 1], i);
      }
    }
  }

  /**
   Any number of coordinators on one set of queues, in every interleaving: each one's tables hold
   exactly its own live calls and are those of a run of its own steps, and the queues all of them
   fill and empty stay in order.
   */
  lemma SharedRunsAgree(cbs: seq<Callbacks>, acts: seq<Act>, i: nat)
    requires i < |cbs|
    ensures var s := Seen(LoopRun(cbs, acts), i);
            && TablesAgree(s) && QueuesAgree(s)
            && TablesOf(s) == TablesOf(Run(cbs[i], OpsOf(acts, i)))
  {
    OwnRun(cbs, acts, i);
    SharedQueuesAgree(cbs, acts, i);
    RunsAgree(cbs[i], OpsOf(acts, i));
    TablesAreOwn(Run(cbs[i], OpsOf(acts, i)), Seen(LoopRun(cbs, acts), i));
  }

  lemma TablesAreOwn(s: State, t: State)
    requires TablesAgree(s) && TablesOf(t) == TablesOf(s)
    ensures TablesAgree(t)
  {
    SameTables(s, t);
  }

  /** A submit is refused exactly when it has no id or a live call holds its id, and then nothing changes. */
  lemma RefusedSubmitChangesNothing(cb: Callbacks, ops: seq<Op>, m: Message, running: bool)
    ensures var s := Run(cb, ops);
            var t := NonEmpty(cb.turnId(m));
            && (Begin(cb, s, m, running) == s <==>
                 t.None? || exists k :: 0 <= k < |s.calls| && Live(s.calls[k]) && s.calls[k].turn == t.value)
            && (SubmitProblem(cb, s, m).Some? <==> Begin(cb, s, m, running) == s)
  {
    var s := Run(cb, ops);
    var t := NonEmpty(cb.turnId(m));
    RunsAgree(cb, ops);
    if t.Some? {
      if t.value in s.waiters {
        assert OwnsTurn(s, s.waiters[t.value], t.value);
      } else {
        assert |Begin(cb, s, m, running).calls| == |s.calls| + 1;
        forall k | 0 <= k < |s.calls| && Live(s.calls[k])
          ensures s.calls[k].turn != t.value
        {
          assert RegisteredAs(s, k, s.calls[k].turn);
        }
      }
    }
  }

  // ----- Answers -----

  /** A call keeps its turn and message; a settled future and an outcome never change again. */
  ghost predicate CallAdvances(before: Call, after: Call) {
    && after.turn == before.turn && after.message == before.message && after.onBus == before.onBus
    && (!before.future.Pending? ==> after.future == before.future)
    && (before.phase.Ended? ==> after.phase == before.phase)
  }

  ghost predicate Advances(before: State, after: State) {
    && |before.calls| <= |after.calls|
    && forall k :: 0 <= k < |before.calls| ==> CallAdvances(before.calls[k], after.calls[k])
  }

  lemma CallsGrow(cb: Callbacks, s: State, op: Op)
    ensures |s.calls| <= |Step(cb, s, op).calls|
  {
    hide Settled, Delivered;
  }

  lemma StepAdvances(cb: Callbacks, s: State, op: Op)
    ensures Advances(s, Step(cb, s, op))
  {
    CallsGrow(cb, s, op);
    hide Step;
    forall k | 0 <= k < |s.calls|
      ensures CallAdvances(s.calls[k], Step(cb, s, op).calls[k])
    {
      CallStep(cb, s, op, k);
    }
  }

  /** Each waiter is resolved at most once, whatever comes after. */
  lemma {:induction false} RunsAdvance(cb: Callbacks, ops: seq<Op>, more: seq<Op>)
    ensures Advances(Run(cb, ops), Run(cb, ops + more))
  {
    if more == [] {
      assert ops + more == ops;
    } else {
      var shorter := ops + more[..|more| - 1];
      RunsAdvance(cb, ops, more[..|more| - 1]);
      assert (ops + more)[..|ops + more| - 1] == shorter;
      StepAdvances(cb, Run(cb, shorter), more[|more| - 1]);
    }
  }

  predicate CompletesTurn(cb: Callbacks, op: Op, t: string) {
    op.OpComplete? && cb.turnId(op.message) == Some(t)
  }

  ghost predicate NoCompletionBetween(cb: Callbacks, ops: seq<Op>, b: nat, i: nat, t: string) {
    forall j :: b < j < i && j < |ops| ==> !CompletesTurn(cb, ops[j], t)
  }

  /** Step `b` of the run began call `k`. */
  ghost predicate BeganAt(cb: Callbacks, ops: seq<Op>, b: nat, k: nat, c: Call) {
    && b < |ops| && ops[b] == OpBegin(c.message, c.onBus)
    && cb.turnId(c.message) == Some(c.turn) && c.turn != "" && |Run(cb, ops[..b]).calls| == k
  }

  /** Step `i` is the first completion of the call's turn after step `b`, and put `f` into its future. */
  ghost predicate SettledAt(cb: Callbacks, ops: seq<Op>, b: nat, i: nat, t: string, f: Future) {
    && b < i < |ops| && CompletesTurn(cb, ops[i], t) && Settled(ops[i].response, ops[i].error) == f
    && NoCompletionBetween(cb, ops, b, i, t)
  }

  /** Step `i` is the first completion of the turn after step `b`. */
  ghost predicate FirstCompletionAt(cb: Callbacks, ops: seq<Op>, b: nat, i: nat, t: string) {
    b < i < |ops| && CompletesTurn(cb, ops[i], t) && NoCompletionBetween(cb, ops, b, i, t)
  }

  /**
   What a caller gets for a completion: its response, or its turn error or fatal error as it is, or a turn
   error with the text of any other, or with the class name where the text is empty.
   */
  predicate IsAnswer(response: Option<string>, error: Option<Error>, outcome: Outcome) {
    if error.None? then outcome == Returned(response)
    else
      match error.value
      case TurnError(_) => outcome == Raised(error.value)
      case FatalError(_, _) => outcome == Raised(error.value)
      case CancelledError(text) => outcome == Raised(TurnError(if text == "" then "CancelledError" else text))
      case OtherError(name, text) => outcome == Raised(TurnError(if text == "" then name else text))
  }

  lemma SettledIsAnswered(response: Option<string>, error: Option<Error>)
    ensures IsAnswer(response, error, Delivered(Settled(response, error)))
  {}

  ghost predicate Answered(f: Future) {
    f.Result? || f.Exception?
  }

  ghost predicate Explained(cb: Callbacks, ops: seq<Op>, b: nat, k: nat, c: Call) {
    && BeganAt(cb, ops, b, k, c)
    && (c.future.Pending? && Live(c) ==> NoCompletionBetween(cb, ops, b, |ops|, c.turn))
    && (Answered(c.future) ==> exists i :: SettledAt(cb, ops, b, i, c.turn, c.future))
  }

  /** A later step either leaves the call's future alone or is the completion that answers it. */
  lemma ExplainedLater(cb: Callbacks, ops: seq<Op>, b: nat, k: nat, c: Call, op: Op, d: Call)
    requires Explained(cb, ops, b, k, c) && CallAdvances(c, d)
    requires d.future.Pending? && Live(d) ==> !CompletesTurn(cb, op, c.turn)
    requires Answered(d.future) && !Answered(c.future) ==>
               c.future.Pending? && Live(c) && CompletesTurn(cb, op, c.turn) &&
               d.future == Settled(op.response, op.error)
    ensures Explained(cb, ops + [op], b, k, d)
  {
    assert (ops + [op])[..b] == ops[..b];
    if Answered(c.future) {
      var i :| SettledAt(cb, ops, b, i, c.turn, c.future);
      assert SettledAt(cb, ops + [op], b, i, d.turn, d.future);
    } else if Answered(d.future) {
      assert SettledAt(cb, ops + [op], b, |ops|, d.turn, d.future);
    }
  }

  /** A completion of a live call's turn does not leave its future pending. */
  lemma PendingWasNotCompleted(cb: Callbacks, s: State, op: Op, k: nat)
    requires TablesAgree(s) && k < |s.calls| && |s.calls| <= |Step(cb, s, op).calls|
    requires CompletesTurn(cb, op, s.calls[k].turn) && s.calls[k].turn != "" && Live(s.calls[k])
    ensures !Step(cb, s, op).calls[k].future.Pending?
  {
    assert RegisteredAs(s, k, s.calls[k].turn);
  }

  /** Only a completion of a call's own turn answers it. */
  lemma SettlingStep(cb: Callbacks, s: State, op: Op, k: nat)
    requires TablesAgree(s) && k < |s.calls| && |s.calls| <= |Step(cb, s, op).calls|
    requires !Answered(s.calls[k].future) && Answered(Step(cb, s, op).calls[k].future)
    ensures CompletesTurn(cb, op, s.calls[k].turn) && s.calls[k].future.Pending? && Live(s.calls[k])
    ensures Step(cb, s, op).calls[k].future == Settled(op.response, op.error)
  {
    if op.OpComplete? {
      var t := NonEmpty(cb.turnId(op.message));
      assert OwnsTurn(s, s.waiters[t.value], t.value);
    }
  }

  lemma CallIsExplainedLater(cb: Callbacks, ops: seq<Op>, b: nat, k: nat, op: Op)
    requires var s := Run(cb, ops);
             && TablesAgree(s) && k < |s.calls| && Explained(cb, ops, b, k, s.calls[k]) && Advances(s, Step(cb, s, op))
    ensures Explained(cb, ops + [op], b, k, Step(cb, Run(cb, ops), op).calls[k])
  {
    var s := Run(cb, ops);
    var c, d := s.calls[k], Step(cb, s, op).calls[k];
    assert CallAdvances(c, d);
    if d.future.Pending? && Live(d) && CompletesTurn(cb, op, c.turn) {
      PendingWasNotCompleted(cb, s, op, k);
    }
    if Answered(d.future) && !Answered(c.future) {
      SettlingStep(cb, s, op, k);
    }
    ExplainedLater(cb, ops, b, k, c, op, d);
  }

  /** Every call has a beginning, and every answer is the first completion of its turn after that. */
  lemma {:induction false} CallsAreExplained(cb: Callbacks, ops: seq<Op>, k: nat) returns (b: nat)
    requires k < |Run(cb, ops).calls|
    ensures Explained(cb, ops, b, k, Run(cb, ops).calls[k])
  {
    var init, op := ops[..|ops| - 1], ops[|ops| - 1];
    assert ops == init + [op];
    var s := Run(cb, init);
    if k < |s.calls| {
      b := CallsAreExplained(cb, init, k);
      StepAdvances(cb, s, op);
      RunsAgree(cb, init);
      CallIsExplainedLater(cb, init, b, k, op);
    } else {
      b := |init|;
    }
  }

  // ----- Outcomes -----

  /** Step `i` made handing over call `k`'s message fail with `e`. */
  ghost predicate HandOverFailsAt(cb: Callbacks, ops: seq<Op>, i: nat, k: nat, e: Error) {
    && i < |ops| && ops[i] == OpSendFailed(k, e)
    && k < |Run(cb, ops[..i]).calls| && Run(cb, ops[..i]).calls[k].phase.Sending?
  }

  /** Step `i` cancelled call `k` while it waited. */
  ghost predicate CancelledAt(cb: Callbacks, ops: seq<Op>, i: nat, k: nat) {
    && i < |ops| && ops[i] == OpCancel(k)
    && k < |Run(cb, ops[..i]).calls| && Run(cb, ops[..i]).calls[k].phase.Waiting?
  }

  ghost predicate HandOverFailed(cb: Callbacks, ops: seq<Op>, k: nat, e: Error) {
    exists i :: HandOverFailsAt(cb, ops, i, k, e)
  }

  ghost predicate WasCancelled(cb: Callbacks, ops: seq<Op>, k: nat) {
    exists i :: CancelledAt(cb, ops, i, k)
  }

  predicate EndedByFuture(c: Call) {
    c.phase.Ended? && !c.future.Pending? && c.phase.outcome == Delivered(c.future)
  }

  /** How a call was cancelled and how it ended: by its future, a failed hand-over or a cancellation. */
  ghost predicate Accounted(cb: Callbacks, ops: seq<Op>, k: nat, c: Call) {
    && (c.phase == Waiting(true) ==> !c.future.Pending?)
    && (c.phase == Waiting(true) || c.future.Cancelled? ==> WasCancelled(cb, ops, k))
    && (c.phase.Ended? ==>
          || EndedByFuture(c)
          || (c.phase.outcome.Raised? && HandOverFailed(cb, ops, k, c.phase.outcome.error))
          || (c.phase.outcome == Raised(CancelledError("")) && WasCancelled(cb, ops, k)))
  }

  lemma StaysCancelled(cb: Callbacks, ops: seq<Op>, op: Op, k: nat)
    requires WasCancelled(cb, ops, k)
    ensures WasCancelled(cb, ops + [op], k)
  {
    var i: nat :| CancelledAt(cb, ops, i, k);
    assert (ops + [op])[..i] == ops[..i];
    assert CancelledAt(cb, ops + [op], i, k);
  }

  lemma StaysFailed(cb: Callbacks, ops: seq<Op>, op: Op, k: nat, e: Error)
    requires HandOverFailed(cb, ops, k, e)
    ensures HandOverFailed(cb, ops + [op], k, e)
  {
    var i: nat :| HandOverFailsAt(cb, ops, i, k, e);
    assert (ops + [op])[..i] == ops[..i];
    assert HandOverFailsAt(cb, ops + [op], i, k, e);
  }

  lemma AccountedStays(cb: Callbacks, ops: seq<Op>, op: Op, k: nat, c: Call)
    requires Accounted(cb, ops, k, c)
    ensures Accounted(cb, ops + [op], k, c)
  {
    if WasCancelled(cb, ops, k) {
      StaysCancelled(cb, ops, op, k);
    }
    if c.phase.Ended? && c.phase.outcome.Raised? && HandOverFailed(cb, ops, k, c.phase.outcome.error) {
      StaysFailed(cb, ops, op, k, c.phase.outcome.error);
    }
  }

  /** What one step can do to a call. */
  lemma CallStep(cb: Callbacks, s: State, op: Op, k: nat)
    requires k < |s.calls|
    ensures |s.calls| <= |Step(cb, s, op).calls|
    ensures var c, d := s.calls[k], Step(cb, s, op).calls[k];
            || d == c
            || (op == OpSent(k) && c.phase.Sending? &&
                d == c.(phase := if c.future.Pending? then Waiting(false) else Ended(Delivered(c.future))))
            || (op.OpSendFailed? && op.call == k && c.phase.Sending? && d == c.(phase := Ended(Raised(op.failure))))
            || (op == OpCancel(k) && c.phase.Waiting? &&
                d == if c.future.Pending? then c.(future := Cancelled) else c.(phase := Waiting(true)))
            || (op == OpResume(k) && c.phase.Waiting? && !c.future.Pending? &&
                d == c.(phase := Ended(if c.phase.mustCancel then Raised(CancelledError("")) else Delivered(c.future))))
            || (op.OpComplete? && c.future.Pending? && d == c.(future := Settled(op.response, op.error)))
  {
    hide Delivered, Settled;
  }

  lemma AccountedLater(cb: Callbacks, ops: seq<Op>, op: Op, k: nat)
    requires k < |Run(cb, ops).calls| && Accounted(cb, ops, k, Run(cb, ops).calls[k])
    ensures k < |Step(cb, Run(cb, ops), op).calls|
    ensures Accounted(cb, ops + [op], k, Step(cb, Run(cb, ops), op).calls[k])
  {
    var c := Run(cb, ops).calls[k];
    AccountedStays(cb, ops, op, k, c);
    CallStep(cb, Run(cb, ops), op, k);
    hide Step, Run;
    assert (ops + [op])[..|ops|] == ops;
    if op == OpCancel(k) && c.phase.Waiting? {
      assert CancelledAt(cb, ops + [op], |ops|, k);
    }
    if op.OpSendFailed? && op.call == k && c.phase.Sending? {
      assert HandOverFailsAt(cb, ops + [op], |ops|, k, op.failure);
    }
  }

  /** In every interleaving each call is accounted for. */
  lemma {:induction false} CallsAreAccounted(cb: Callbacks, ops: seq<Op>, k: nat)
    requires k < |Run(cb, ops).calls|
    ensures Accounted(cb, ops, k, Run(cb, ops).calls[k])
  {
    var init, op := ops[..|ops| - 1], ops[|ops| - 1];
    assert ops == init + [op];
    if k < |Run(cb, init).calls| {
      CallsAreAccounted(cb, init, k);
      AccountedLater(cb, init, op, k);
    } else {
      assert Run(cb, ops).calls[k].phase.Sending? && Run(cb, ops).calls[k].future.Pending?;
    }
  }

  /** The call began at step `b`, and the first completion of its turn after that, step `i`, is what it ended with. */
  ghost predicate AnsweredBy(cb: Callbacks, ops: seq<Op>, b: nat, i: nat, k: nat, c: Call) {
    && BeganAt(cb, ops, b, k, c) && FirstCompletionAt(cb, ops, b, i, c.turn)
    && EndedByFuture(c) && SettledAt(cb, ops, b, i, c.turn, c.future)
    && IsAnswer(ops[i].response, ops[i].error, c.phase.outcome)
  }

  /**
   A submit ends with what the first completion of its turn after it began put into its future, or with
   the failure of its hand-over, or with its own cancellation.
   */
  lemma OutcomesAreExplained(cb: Callbacks, ops: seq<Op>, k: nat)
    requires k < |Run(cb, ops).calls| && Run(cb, ops).calls[k].phase.Ended?
    ensures var c := Run(cb, ops).calls[k];
            || (exists b: nat, i: nat :: AnsweredBy(cb, ops, b, i, k, c))
            || (c.phase.outcome.Raised? && HandOverFailed(cb, ops, k, c.phase.outcome.error))
            || (c.phase.outcome == Raised(CancelledError("")) && WasCancelled(cb, ops, k))
  {
    CallsAreAccounted(cb, ops, k);
    var b := CallsAreExplained(cb, ops, k);
    var c := Run(cb, ops).calls[k];
    hide Run, Settled, Delivered, IsAnswer;
    hide Explained, BeganAt, SettledAt, WasCancelled, HandOverFailed;
    if EndedByFuture(c) && Answered(c.future) {
      var i := AnswerOf(cb, ops, b, k, c);
    } else if EndedByFuture(c) {
      CancelledIsRaised(c);
    }
  }

  lemma AnswerOf(cb: Callbacks, ops: seq<Op>, b: nat, k: nat, c: Call) returns (i: nat)
    requires Explained(cb, ops, b, k, c) && EndedByFuture(c) && Answered(c.future)
    ensures AnsweredBy(cb, ops, b, i, k, c)
  {
    hide Run, Settled, Delivered, IsAnswer, NoCompletionBetween;
    i :| SettledAt(cb, ops, b, i, c.turn, c.future);
    SettledIsAnswered(ops[i].response, ops[i].error);
  }

  lemma CancelledIsRaised(c: Call)
    requires EndedByFuture(c) && !Answered(c.future)
    ensures c.future.Cancelled? && c.phase.outcome == Raised(CancelledError(""))
  {}

  /** What a submit returns is the response of the first completion of its turn after it began. */
  lemma ReturnsItsFirstCompletion(cb: Callbacks, ops: seq<Op>, k: nat, response: Option<string>)
    requires k < |Run(cb, ops).calls| && Run(cb, ops).calls[k].phase == Ended(Returned(response))
    ensures var c := Run(cb, ops).calls[k];
            exists b: nat, i: nat ::
              BeganAt(cb, ops, b, k, c) && FirstCompletionAt(cb, ops, b, i, c.turn) &&
              ops[i].error == None && ops[i].response == response
  {
    OutcomesAreExplained(cb, ops, k);
    hide Run, BeganAt;
  }

  /** What a live call does once its future is done: finish its hand-over, or resume. */
  function NextStep(c: Call, k: nat): Op {
    if c.phase.Sending? then OpSent(k) else OpResume(k)
  }

  lemma CompleteThenNext(cb: Callbacks, s: State, m: Message, response: Option<string>, error: Option<Error>, k: nat)
    requires k < |s.calls| && (s.calls[k].phase.Sending? || s.calls[k].phase == Waiting(false))
    requires s.calls[k].future.Pending?
    requires s.calls[k].turn != "" && cb.turnId(m) == Some(s.calls[k].turn) && RegisteredAs(s, k, s.calls[k].turn)
    ensures Step(cb, Complete(cb, s, m, response, error), NextStep(s.calls[k], k)) ==
            s.(waiters := s.waiters - {s.calls[k].turn}, pending := s.pending - {s.calls[k].turn},
               calls := s.calls[k := s.calls[k].(future := Settled(response, error),
                                                 phase := Ended(Delivered(Settled(response, error))))])
  {
    hide Settled, Delivered;
    assert Complete(cb, s, m, response, error) ==
           s.(calls := s.calls[k := s.calls[k].(future := Settled(response, error))]);
  }

  /** A live call without an answer is tabled under its id and was not cancelled. */
  lemma UnansweredCall(cb: Callbacks, ops: seq<Op>, k: nat)
    requires k < |Run(cb, ops).calls| && Live(Run(cb, ops).calls[k]) && Run(cb, ops).calls[k].future.Pending?
    ensures var c := Run(cb, ops).calls[k];
            c.turn != "" && RegisteredAs(Run(cb, ops), k, c.turn) && (c.phase.Sending? || c.phase == Waiting(false))
  {
    RunsAgree(cb, ops);
    CallsAreAccounted(cb, ops, k);
    var b := CallsAreExplained(cb, ops, k);
    hide Run;
  }

  /**
   A live call without an answer, awaiting it or still handing its message over, gets the next completion of
   its turn and then frees its id.
   */
  lemma CompletionReachesItsWaiter(
      cb: Callbacks, ops: seq<Op>, m: Message, response: Option<string>, error: Option<Error>, k: nat)
    requires k < |Run(cb, ops).calls|
    requires var c := Run(cb, ops).calls[k];
             Live(c) && c.future.Pending? && cb.turnId(m) == Some(c.turn)
    ensures var c := Run(cb, ops).calls[k];
            var done := Step(cb, Step(cb, Run(cb, ops), OpComplete(m, response, error)), NextStep(c, k));
            && |done.calls| == |Run(cb, ops).calls|
            && done.calls[k].phase == Ended(Delivered(Settled(response, error)))
            && IsAnswer(response, error, done.calls[k].phase.outcome)
            && c.turn !in done.waiters && c.turn !in done.pending
            && (forall j :: 0 <= j < |done.calls| && j != k ==> done.calls[j] == Run(cb, ops).calls[j])
  {
    UnansweredCall(cb, ops, k);
    hide Run, Settled, Delivered, RegisteredAs, IsAnswer;
    SettledIsAnswered(response, error);
    CompleteThenNext(cb, Run(cb, ops), m, response, error, k);
  }

  /** What a step leaves when it ends the call `k` with `outcome`: its id is free, and no other call changes. */
  ghost predicate EndsAlone(s: State, k: nat, outcome: Outcome, done: State)
    requires k < |s.calls|
  {
    var t := s.calls[k].turn;
    && |done.calls| == |s.calls| && done.calls[k].phase == Ended(outcome)
    && done.waiters == s.waiters - {t} && done.pending == s.pending - {t}
    && done.queues == s.queues && done.deferred == s.deferred && done.released == s.released
    && forall j :: 0 <= j < |s.calls| && j != k ==> done.calls[j] == s.calls[j]
  }

  /** An accepted submit adds one call for its message, handed to the bus or dispatched at once, under its id. */
  lemma AcceptedSubmitIsTabled(cb: Callbacks, s: State, m: Message, running: bool)
    requires cb.turnId(m).Some? && cb.turnId(m) != Some("") && cb.turnId(m).value !in s.waiters
    ensures var after, t := Step(cb, s, OpBegin(m, running)), cb.turnId(m).value;
            && |after.calls| == |s.calls| + 1 && after.calls[..|s.calls|] == s.calls
            && after.waiters == s.waiters[t := |s.calls|] && after.pending == s.pending[t := m]
            && after == s.(waiters := after.waiters, pending := after.pending, calls := after.calls)
            && var c := after.calls[|s.calls|];
               && c.turn == t && c.message == m && c.onBus == running && c.future.Pending? && c.phase.Sending?
  {}

  lemma EndTouchesOne(s: State, k: nat, outcome: Outcome)
    requires k < |s.calls|
    ensures EndsAlone(s, k, outcome, End(s, k, outcome))
  {}

  /** A failed hand-over ends its call with that very error. */
  lemma FailedHandOverIsRaised(cb: Callbacks, s: State, k: nat, e: Error)
    requires k < |s.calls| && s.calls[k].phase.Sending?
    ensures EndsAlone(s, k, Raised(e), Step(cb, s, OpSendFailed(k, e)))
  {
    EndTouchesOne(s, k, Raised(e));
    hide End, EndsAlone;
  }

  /** A cancelled waiter ends with its cancellation once it is resumed, whatever its future holds. */
  lemma CancelledWaiterIsRaised(cb: Callbacks, s: State, k: nat)
    requires k < |s.calls| && s.calls[k].phase.Waiting?
    ensures EndsAlone(s, k, Raised(CancelledError("")), Step(cb, Step(cb, s, OpCancel(k)), OpResume(k)))
  {
    var mid := Cancel(s, k);
    CancelTouchesOne(s, k);
    EndTouchesOne(mid, k, Raised(CancelledError("")));
    hide Cancel, Resume, End;
  }

  lemma CancelTouchesOne(s: State, k: nat)
    requires k < |s.calls| && s.calls[k].phase.Waiting?
    ensures var mid := Cancel(s, k);
            && |mid.calls| == |s.calls| && mid == s.(calls := s.calls[k := mid.calls[k]])
            && mid.calls[k].turn == s.calls[k].turn
            && Resume(mid, k) == End(mid, k, Raised(CancelledError("")))
  {
    hide End;
  }

  /** A message handed over before its turn completes leaves the call waiting and everything else as it is. */
  lemma HandedOverCallWaits(cb: Callbacks, s: State, k: nat)
    requires k < |s.calls| && s.calls[k].phase.Sending? && s.calls[k].future.Pending?
    ensures var after := Step(cb, s, OpSent(k));
            && |after.calls| == |s.calls| && after == s.(calls := after.calls)
            && after.calls[k] == s.calls[k].(phase := Waiting(false))
            && forall j :: 0 <= j < |s.calls| && j != k ==> after.calls[j] == s.calls[j]
  {}

  // ----- Pending ids -----

  ghost predicate WithId(cb: Callbacks, messages: seq<Message>, p: string) {
    exists m :: m in messages && HasPendingId(cb, m, p)
  }

  lemma WithIdGrows(cb: Callbacks, messages: seq<Message>, m: Message, p: string)
    ensures WithId(cb, messages + [m], p) <==> WithId(cb, messages, p) || HasPendingId(cb, m, p)
  {
    assert m in messages + [m];
    if WithId(cb, messages, p) {
      var x :| x in messages && HasPendingId(cb, x, p);
      assert x in messages + [m];
    }
  }

  predicate HasPendingId(cb: Callbacks, m: Message, p: string) {
    p != "" && cb.pendingId(m) == Some(p)
  }

  ghost predicate QueuedWithId(cb: Callbacks, s: State, session: string, p: string) {
    WithId(cb, QueueOf(s.queues, session), p)
  }

  ghost predicate TabledWithId(cb: Callbacks, s: State, session: string, p: string) {
    exists t :: t in s.pending && SessionKey(s.pending[t]) == session && HasPendingId(cb, s.pending[t], p)
  }

  ghost predicate LiveWithId(cb: Callbacks, s: State, session: string, p: string) {
    exists k :: 0 <= k < |s.calls| && Live(s.calls[k]) && SessionKey(s.calls[k].message) == session
        && HasPendingId(cb, s.calls[k].message, p)
  }

  /** The tabled ids of a session are those of its live calls. */
  lemma TabledIsLive(cb: Callbacks, s: State, session: string, p: string)
    requires TablesAgree(s)
    ensures TabledWithId(cb, s, session, p) <==> LiveWithId(cb, s, session, p)
  {
    if TabledWithId(cb, s, session, p) {
      var t :| t in s.pending && SessionKey(s.pending[t]) == session && HasPendingId(cb, s.pending[t], p);
      assert t in s.waiters && OwnsTurn(s, s.waiters[t], t);
    }
    if LiveWithId(cb, s, session, p) {
      var k :| 0 <= k < |s.calls| && Live(s.calls[k]) && SessionKey(s.calls[k].message) == session
          && HasPendingId(cb, s.calls[k].message, p);
      assert RegisteredAs(s, k, s.calls[k].turn);
      assert OwnsTurn(s, s.waiters[s.calls[k].turn], s.calls[k].turn);
    }
  }

  // ----- The coordinator object -----

  /** The dictionary of queues, which several coordinators may hold. */
  class DeferredQueues {
    var table: map<string, seq<Message>>
    ghost var deferred: seq<Entry>
    ghost var released: seq<Entry>

    constructor ()
      ensures table == map[] && deferred == [] && released == []
    {
      table := map[];
      deferred, released := [], [];
    }

    ghost function View(): State
      reads this
    {
      State(map[], map[], table, [], deferred, released)
    }
  }

  /** The next deferred turn of a session, taken out of its queue to be published. */
  method PublishNextDeferredTurn(queues: DeferredQueues, session: string) returns (m: Option<Message>)
    modifies queues
    ensures queues.View() == PublishNext(old(queues.View()), session)
    ensures m.Some? ==> queues.released == old(queues.released) + [Entry(session, m.value)]
    ensures m.None? <==> QueueOf(old(queues.table), session) == []
  {
    if session !in queues.table || queues.table[session] == [] {
      return None;
    }
    var queue := queues.table[session];
    m := Some(queue[0]);
    queue := queue[1..];
    queues.table := queues.table[session := queue];
    if queue == [] {
      queues.table := queues.table - {session};
    }
    assert queues.table == PublishNext(old(queues.View()), session).queues;
    queues.released := queues.released + [Entry(session, m.value)];
  }

  class AutomationTurnCoordinator {
    const cb: Callbacks
    const deferredQueues: DeferredQueues
    var waiters: map<string, nat>
    var pendingMessagesByTurnId: map<string, Message>
    /** The futures and tasks of the event loop, one per accepted `submit`. */
    var calls: seq<Call>

    /** The queues are those handed in, or new ones. */
    constructor (cb: Callbacks, given: DeferredQueues?)
      ensures this.cb == cb && Own() == TablesOf(INITIAL)
      ensures given != null ==> deferredQueues == given
      ensures given == null ==> fresh(deferredQueues) && View() == INITIAL
    {
      this.cb := cb;
      waiters, pendingMessagesByTurnId, calls := map[], map[], [];
      if given != null {
        deferredQueues := given;
      } else {
        deferredQueues := new DeferredQueues();
      }
    }

    ghost function View(): State
      reads this, deferredQueues
    {
      State(waiters, pendingMessagesByTurnId, deferredQueues.table, calls, deferredQueues.deferred,
            deferredQueues.released)
    }

    ghost function Own(): Tables
      reads this
    {
      Tables(waiters, pendingMessagesByTurnId, calls)
    }

    /** `submit` up to its first await. */
    method Submit(m: Message, running: bool) returns (r: Result<nat, SubmitError>)
      modifies `waiters, `pendingMessagesByTurnId, `calls
      ensures View() == Step(cb, old(View()), OpBegin(m, running))
      ensures var problem := SubmitProblem(cb, old(View()), m);
              r == if problem.Some? then Err(problem.value) else Ok(old(|calls|))
    {
      var turn := NonEmpty(cb.turnId(m));
      if turn.None? {
        return Err(MissingId);
      }
      if turn.value in waiters {
        return Err(DuplicateId(turn.value));
      }
      r := Ok(|calls|);
      waiters := waiters[turn.value := |calls|];
      pendingMessagesByTurnId := pendingMessagesByTurnId[turn.value := m];
      calls := calls + [Call(turn.value, m, running, Pending, Sending)];
    }

    /** The `finally` of `submit`. */
    method Finish(k: nat, outcome: Outcome)
      requires k < |calls|
      modifies `waiters, `pendingMessagesByTurnId, `calls
      ensures View() == End(old(View()), k, outcome)
    {
      var turn := calls[k].turn;
      waiters := waiters - {turn};
      pendingMessagesByTurnId := pendingMessagesByTurnId - {turn};
      calls := calls[k := calls[k].(phase := Ended(outcome))];
    }

    method MessageSent(k: nat)
      requires k < |calls| && calls[k].phase.Sending?
      modifies `waiters, `pendingMessagesByTurnId, `calls
      ensures View() == Step(cb, old(View()), OpSent(k))
    {
      if calls[k].future.Pending? {
        calls := calls[k := calls[k].(phase := Waiting(false))];
      } else {
        Finish(k, Delivered(calls[k].future));
      }
    }

    method MessageLost(k: nat, e: Error)
      requires k < |calls| && calls[k].phase.Sending?
      modifies `waiters, `pendingMessagesByTurnId, `calls
      ensures View() == Step(cb, old(View()), OpSendFailed(k, e))
    {
      Finish(k, Raised(e));
    }

    method CancelWaiter(k: nat)
      requires k < |calls| && calls[k].phase.Waiting?
      modifies `calls
      ensures View() == Step(cb, old(View()), OpCancel(k))
    {
      if calls[k].future.Pending? {
        calls := calls[k := calls[k].(future := Cancelled)];
      } else {
        calls := calls[k := calls[k].(phase := Waiting(true))];
      }
    }

    /** `submit` after its future is done. */
    method WakeWaiter(k: nat) returns (outcome: Outcome)
      requires k < |calls| && calls[k].phase.Waiting? && !calls[k].future.Pending?
      modifies `waiters, `pendingMessagesByTurnId, `calls
      ensures View() == Step(cb, old(View()), OpResume(k))
      ensures calls[k].phase == Ended(outcome)
    {
      outcome := if calls[k].phase.mustCancel then Raised(CancelledError("")) else Delivered(calls[k].future);
      Finish(k, outcome);
    }

    method DeferIfActive(m: Message, session: string, active: set<string>) returns (r: bool)
      modifies deferredQueues
      ensures View() == Step(cb, old(View()), OpDefer(m, session, active))
      ensures r == cb.shouldDefer(m, session, active)
    {
      if !cb.shouldDefer(m, session, active) {
        return false;
      }
      var pendingMsg := m;
      if session != SessionKey(m) {
        pendingMsg := m.(keyOverride := Some(session));
      }
      if session !in deferredQueues.table {
        deferredQueues.table := deferredQueues.table[session := []];
      }
      deferredQueues.table := deferredQueues.table[session := deferredQueues.table[session] + [pendingMsg]];
      deferredQueues.deferred := deferredQueues.deferred + [Entry(session, pendingMsg)];
      return true;
    }

    method CompleteTurn(m: Message, response: Option<string>, error: Option<Error>)
      modifies `calls
      ensures View() == Step(cb, old(View()), OpComplete(m, response, error))
    {
      var turn := NonEmpty(cb.turnId(m));
      if turn.None? || turn.value !in waiters {
        return;
      }
      var k := waiters[turn.value];
      if k >= |calls| || !calls[k].future.Pending? {
        return;
      }
      var settled := Result(response);
      if error.Some? {
        var e := error.value;
        if e.CancelledError? {
          e := TurnError(if e.text != "" then e.text else "CancelledError");
        }
        settled := Exception(e);
      }
      calls := calls[k := calls[k].(future := settled)];
    }

    /** The ids waiting for or running in a session: those of its queue and of its live calls. */
    method PendingIdsForSession(session: string) returns (ids: set<string>)
      requires TablesAgree(View())
      ensures forall p :: p in ids <==> QueuedWithId(cb, View(), session, p) || LiveWithId(cb, View(), session, p)
    {
      ids := {};
      var queue := QueueOf(deferredQueues.table, session);
      for i := 0 to |queue|
        invariant forall p :: p in ids <==> WithId(cb, queue[..i], p)
      {
        var id := NonEmpty(cb.pendingId(queue[i]));
        if id.Some? {
          ids := ids + {id.value};
        }
        assert queue[..i + 1] == queue[..i] + [queue[i]];
        forall p
          ensures WithId(cb, queue[..i + 1], p) <==> WithId(cb, queue[..i], p) || HasPendingId(cb, queue[i], p)
        {
          WithIdGrows(cb, queue[..i], queue[i], p);
        }
      }
      assert queue[..|queue|] == queue;
      ghost var queued := ids;
      var turns := pendingMessagesByTurnId.Keys;
      while turns != {}
        invariant turns <= pendingMessagesByTurnId.Keys
        invariant forall p :: p in ids <==> p in queued || TabledOutside(turns, session, p)
        decreases turns
      {
        var t :| t in turns;
        var m := pendingMessagesByTurnId[t];
        ghost var before, left := ids, turns;
        turns := turns - {t};
        if SessionKey(m) == session {
          var id := NonEmpty(cb.pendingId(m));
          if id.Some? {
            ids := ids + {id.value};
          }
        }
        forall p
          ensures TabledOutside(turns, session, p) <==>
                  TabledOutside(left, session, p) || (SessionKey(m) == session && HasPendingId(cb, m, p))
        {
          OneMoreTabled(turns, left, t, session, p);
        }
      }
      forall p
        ensures p in ids <==> QueuedWithId(cb, View(), session, p) || LiveWithId(cb, View(), session, p)
      {
        TabledIsLive(cb, View(), session, p);
        assert TabledOutside({}, session, p) <==> TabledWithId(cb, View(), session, p);
      }
    }

    /** A tabled message outside `turns` has this session and pending id. */
    ghost predicate TabledOutside(turns: set<string>, session: string, p: string)
      reads this
    {
      exists t :: t in pendingMessagesByTurnId && t !in turns && SessionKey(pendingMessagesByTurnId[t]) == session &&
        HasPendingId(cb, pendingMessagesByTurnId[t], p)
    }

    lemma OneMoreTabled(turns: set<string>, left: set<string>, t: string, session: string, p: string)
      requires left == turns + {t} && t !in turns && t in pendingMessagesByTurnId
      ensures var m := pendingMessagesByTurnId[t];
              TabledOutside(turns, session, p) <==>
              TabledOutside(left, session, p) || (SessionKey(m) == session && HasPendingId(cb, m, p))
    {
    }
  }
}

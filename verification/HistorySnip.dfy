/** Cutting an over-budget history down to its system messages and a suffix of the rest. */
module HistorySnip {
  import opened Messages
  import opened BudgetPasses

  function Systems(ms: seq<Message>): seq<Message> {
    if ms == [] then []
    else
      var r := Systems(ms[..|ms| - 1]);
      if ms[|ms| - 1].role.System? then r + [ms[|ms| - 1]] else r
  }

  function NonSystem(ms: seq<Message>): seq<Message> {
    if ms == [] then []
    else
      var r := NonSystem(ms[..|ms| - 1]);
      if ms[|ms| - 1].role.System? then r else r + [ms[|ms| - 1]]
  }

  function TokenSum(config: Config, ms: seq<Message>): nat {
    if ms == [] then 0 else TokenSum(config, ms[..|ms| - 1]) + config.messageTokens(ms[|ms| - 1])
  }

  function RemainingBudget(config: Config, systems: seq<Message>): nat {
    var systemTokens, fixedTokens := TokenSum(config, systems), config.promptTokens(systems);
    var used := if systemTokens > fixedTokens then systemTokens else fixedTokens;
    if InputBudget(config) > used then InputBudget(config) - used else 0
  }

  /** The backward scan: from `s`, keep taking the message before while the suffix still fits. */
  function FitStart(config: Config, ms: seq<Message>, budget: nat, s: nat): (r: nat)
    requires s <= |ms|
    ensures r <= s
  {
    if s == 0 || (s < |ms| && TokenSum(config, ms[s - 1..]) > budget) then s
    else FitStart(config, ms, budget, s - 1)
  }

  /** The first user message from `s` on, or the end of the list. */
  function FirstUser(ms: seq<Message>, s: nat): (u: nat)
    requires s <= |ms|
    ensures s <= u <= |ms|
    ensures u < |ms| ==> ms[u].role.User?
    ensures forall k :: s <= k < u ==> !ms[k].role.User?
    decreases |ms| - s
  {
    if s == |ms| || ms[s].role.User? then s else FirstUser(ms, s + 1)
  }

  /** The last user message, or the end of the list. */
  function LastUser(ms: seq<Message>): (u: nat)
    ensures u <= |ms|
    ensures u < |ms| ==> ms[u].role.User? && forall k :: u < k < |ms| ==> !ms[k].role.User?
    ensures u == |ms| ==> forall k :: 0 <= k < |ms| ==> !ms[k].role.User?
  {
    if ms == [] then 0
    else if ms[|ms| - 1].role.User? then |ms| - 1
    else
      var u := LastUser(ms[..|ms| - 1]);
      if u == |ms| - 1 then |ms| else u
  }

  /** Past the last result that answers nothing declared since the previous such result. */
  function LegalStart(ms: seq<Message>): (s: nat)
    ensures s <= |ms|
  {
    if ms == [] then 0
    else
      var init, m := ms[..|ms| - 1], ms[|ms| - 1];
      var s := LegalStart(init);
      if m.role.Tool? && m.callId != "" && m.callId !in Declared(init[s..]) then |ms| else s
  }

  /** Where the tail starts before orphans at its front are skipped. */
  function TailStart(ms: seq<Message>, fit: nat): (t: nat)
    requires fit < |ms|
    ensures t < |ms|
  {
    if FirstUser(ms, fit) < |ms| then FirstUser(ms, fit)
    else if LastUser(ms) < |ms| then LastUser(ms)
    else fit
  }

  function CutPoint(config: Config, ms: seq<Message>, budget: nat): (c: nat)
    requires ms != []
    ensures c <= |ms|
  {
    FitStartIsInside(config, ms, budget, |ms|);
    var t := TailStart(ms, FitStart(config, ms, budget, |ms|));
    t + LegalStart(ms[t..])
  }

  lemma {:induction false} FitStartIsInside(config: Config, ms: seq<Message>, budget: nat, s: nat)
    requires ms != [] && s <= |ms|
    ensures FitStart(config, ms, budget, s) < |ms|
  {
    if s != 0 && !(s < |ms| && TokenSum(config, ms[s - 1..]) > budget) {
      FitStartIsInside(config, ms, budget, s - 1);
    }
  }

  predicate MustSnip(config: Config, ms: seq<Message>) {
    InputBudget(config) > 0 && config.promptTokens(ms) > InputBudget(config) && NonSystem(ms) != []
  }

  function Snipped(config: Config, ms: seq<Message>): seq<Message> {
    if !MustSnip(config, ms) then ms
    else
      Systems(ms) + NonSystem(ms)[CutPoint(config, NonSystem(ms), RemainingBudget(config, Systems(ms)))..]
  }

  // ----- The scan finds the longest fitting suffix -----

  lemma {:induction false} SumSplits(config: Config, a: seq<Message>, b: seq<Message>)
    ensures TokenSum(config, a + b) == TokenSum(config, a) + TokenSum(config, b)
  {
    if b == [] {
      assert a + b == a;
    } else {
      assert (a + b)[..|a + b| - 1] == a + b[..|b| - 1];
      SumSplits(config, a, b[..|b| - 1]);
    }
  }

  /** A list costs what its messages cost. */
  lemma TokensAddUp(config: Config, m: Message, b: seq<Message>)
    ensures TokenSum(config, []) == 0 && TokenSum(config, [m]) == config.messageTokens(m)
    ensures TokenSum(config, [m] + b) == config.messageTokens(m) + TokenSum(config, b)
  {
    SumSplits(config, [m], b);
    assert TokenSum(config, [m]) == TokenSum(config, []) + config.messageTokens(m);
  }

  lemma SuffixCostsLess(config: Config, ms: seq<Message>, s: nat, t: nat)
    requires s <= t <= |ms|
    ensures TokenSum(config, ms[t..]) <= TokenSum(config, ms[s..])
  {
    assert ms[s..] == ms[s..t] + ms[t..];
    SumSplits(config, ms[s..t], ms[t..]);
  }

  lemma {:induction false} FitStartFits(config: Config, ms: seq<Message>, budget: nat, s: nat)
    requires ms != [] && s <= |ms|
    requires s >= |ms| - 1 || TokenSum(config, ms[s..]) <= budget
    ensures var r := FitStart(config, ms, budget, s);
            && (r >= |ms| - 1 || TokenSum(config, ms[r..]) <= budget)
            && (0 < r ==> TokenSum(config, ms[r - 1..]) > budget)
  {
    if s != 0 && !(s < |ms| && TokenSum(config, ms[s - 1..]) > budget) {
      FitStartFits(config, ms, budget, s - 1);
    }
  }

  /** Every suffix that starts before `r` is over the budget. */
  ghost predicate NoLongerFits(config: Config, ms: seq<Message>, budget: nat, r: nat)
    requires r <= |ms|
  {
    forall s :: 0 <= s < r ==> TokenSum(config, ms[s..]) > budget
  }

  /**
   The scan keeps the longest suffix that fits the budget, or just the last message when not
   even that one fits.
   */
  lemma ScanFindsLongestFit(config: Config, ms: seq<Message>, budget: nat)
    requires ms != []
    ensures var r := FitStart(config, ms, budget, |ms|);
            && r < |ms|
            && (TokenSum(config, ms[|ms| - 1..]) <= budget ==> TokenSum(config, ms[r..]) <= budget)
            && (TokenSum(config, ms[|ms| - 1..]) > budget ==> r == |ms| - 1)
            && NoLongerFits(config, ms, budget, r)
  {
    hide FitStart, TokenSum, NoLongerFits;
    NothingLonger(config, ms, budget);
    var r := FitStart(config, ms, budget, |ms|);
    FitStartIsInside(config, ms, budget, |ms|);
    FitStartFits(config, ms, budget, |ms|);
    if 0 < r {
      LongerCostsMore(config, ms, budget, r);
    }
    if r < |ms| - 1 {
      SuffixCostsLess(config, ms, r, |ms| - 1);
    }
  }

  lemma NothingLonger(config: Config, ms: seq<Message>, budget: nat)
    ensures NoLongerFits(config, ms, budget, 0)
  {}

  lemma LongerCostsMore(config: Config, ms: seq<Message>, budget: nat, r: nat)
    requires 0 < r <= |ms| && TokenSum(config, ms[r - 1..]) > budget
    ensures NoLongerFits(config, ms, budget, r)
  {
    hide TokenSum;
    forall s | 0 <= s < r
      ensures TokenSum(config, ms[s..]) > budget
    {
      SuffixCostsLess(config, ms, s, r - 1);
    }
  }

  // ----- The tail starts legally -----

  lemma {:induction false} StartIsLegal(ms: seq<Message>)
    requires forall m :: m in ms && m.role.Tool? ==> m.callId != ""
    ensures AnswersEarlierCalls(multiset{}, ms[LegalStart(ms)..])
  {
    if ms != [] {
      var init, m := ms[..|ms| - 1], ms[|ms| - 1];
      StartIsLegal(init);
      var s := LegalStart(init);
      var tail := init[s..] + [m];
      assert tail[..|tail| - 1] == init[s..];
      assert ms[s..] == tail;
      assert ms[|ms|..] == [];
    }
  }

  lemma LaterStartDeclaresLess(ms: seq<Message>, s: nat, t: nat)
    requires s <= t <= |ms|
    ensures Declared(ms[t..]) <= Declared(ms[s..])
  {
    assert ms[s..] == ms[s..t] + ms[t..];
    ConcatCounts(ms[s..t], ms[t..]);
  }

  /** Whatever starts before `LegalStart` holds a result that answers nothing after that start. */
  lemma {:induction false} EarlierStartIsIllegal(ms: seq<Message>, s: nat)
    requires s < LegalStart(ms)
    ensures !AnswersEarlierCalls(multiset{}, ms[s..])
  {
    var init := ms[..|ms| - 1];
    assert ms[s..][..|ms[s..]| - 1] == init[s..];
    if s < LegalStart(init) {
      EarlierStartIsIllegal(init, s);
    } else {
      LaterStartDeclaresLess(init, LegalStart(init), s);
    }
  }

  /** The start is the first legal one: the longest tail without orphans is kept. */
  lemma TailIsLegal(ms: seq<Message>)
    requires forall m :: m in ms && m.role.Tool? ==> m.callId != ""
    ensures AnswersEarlierCalls(multiset{}, ms[LegalStart(ms)..])
    ensures forall s :: 0 <= s < LegalStart(ms) ==> !AnswersEarlierCalls(multiset{}, ms[s..])
  {
    StartIsLegal(ms);
    forall s | 0 <= s < LegalStart(ms)
      ensures !AnswersEarlierCalls(multiset{}, ms[s..])
    {
      EarlierStartIsIllegal(ms, s);
    }
  }

  // ----- Which tail is kept -----

  /** Every result that names a call answers one declared before it in the list. */
  ghost predicate NoOrphanResults(ms: seq<Message>) {
    forall j :: 0 <= j < |ms| && ms[j].role.Tool? && ms[j].callId != "" ==> ms[j].callId in Declared(ms[..j])
  }

  /** From `b` on, `c` is the first position whose suffix has no orphan at all. */
  ghost predicate IsFirstLegal(ms: seq<Message>, b: nat, c: nat) {
    && b <= c <= |ms| && NoOrphanResults(ms[c..])
    && forall s :: b <= s < c ==> !NoOrphanResults(ms[s..])
  }

  lemma NoOrphansSnoc(ms: seq<Message>, m: Message)
    ensures NoOrphanResults(ms + [m]) <==>
              NoOrphanResults(ms) && (m.role.Tool? && m.callId != "" ==> m.callId in Declared(ms))
  {
    var all := ms + [m];
    assert all[..|ms|] == ms;
    assert forall j :: 0 <= j < |ms| ==> all[..j] == ms[..j];
    if NoOrphanResults(all) {
      assert forall j :: 0 <= j < |ms| ==> all[j] == ms[j];
      assert all[|ms|] == m;
    }
  }

  lemma {:induction false} LegalStartIsFirst(ms: seq<Message>, s: nat)
    requires s <= LegalStart(ms)
    ensures NoOrphanResults(ms[s..]) <==> s == LegalStart(ms)
  {
    if ms != [] {
      hide NoOrphanResults;
      var init, m := ms[..|ms| - 1], ms[|ms| - 1];
      if s == |ms| {
        assert ms[s..] == [];
        assert NoOrphanResults([]) by {
          NoOrphansInNothing();
        }
      } else {
        assert ms[s..] == init[s..] + [m];
        NoOrphansSnoc(init[s..], m);
        if s <= LegalStart(init) {
          LegalStartIsFirst(init, s);
        } else {
          LaterStartDeclaresLess(init, LegalStart(init), s);
        }
      }
    }
  }

  lemma NoOrphansInNothing()
    ensures NoOrphanResults([])
  {}

  lemma CutIsFirstLegal(ms: seq<Message>, b: nat)
    requires b <= |ms|
    ensures IsFirstLegal(ms, b, b + LegalStart(ms[b..]))
  {
    var c := b + LegalStart(ms[b..]);
    hide NoOrphanResults, LegalStart;
    OnlyTheCutIsLegal(ms, b, c);
    forall s | b <= s < c
      ensures !NoOrphanResults(ms[s..])
    {
      OnlyTheCutIsLegal(ms, b, s);
    }
  }

  lemma OnlyTheCutIsLegal(ms: seq<Message>, b: nat, s: nat)
    requires b <= s <= |ms| && s - b <= LegalStart(ms[b..])
    ensures NoOrphanResults(ms[s..]) <==> s - b == LegalStart(ms[b..])
  {
    hide NoOrphanResults, LegalStart;
    LegalStartIsFirst(ms[b..], s - b);
    assert ms[b..][s - b..] == ms[s..];
  }

  ghost predicate UserAt(ms: seq<Message>, u: int) {
    0 <= u < |ms| && ms[u].role.User?
  }

  /** `f` is the first user message from `r` on. */
  ghost predicate FirstUserIs(ms: seq<Message>, r: nat, f: int) {
    UserAt(ms, f) && r <= f && forall u :: r <= u < f ==> !UserAt(ms, u)
  }

  /** `u` is the last user message, and stands before `r`. */
  ghost predicate LastUserIs(ms: seq<Message>, r: nat, u: int) {
    UserAt(ms, u) && u < r && forall v :: u < v < |ms| ==> !UserAt(ms, v)
  }

  /** `c` is where the kept part of `ms` starts when its longest fitting suffix starts at `r`. */
  ghost predicate StartsWithATurn(ms: seq<Message>, r: nat, c: nat) {
    && (forall f :: FirstUserIs(ms, r, f) ==> IsFirstLegal(ms, f, c))
    && (forall u :: LastUserIs(ms, r, u) ==> IsFirstLegal(ms, u, c))
    && ((forall u :: !UserAt(ms, u)) ==> IsFirstLegal(ms, r, c))
  }

  /**
   Where the kept part starts, given the start `r` of the longest fitting suffix: at the first user message
   from there on; without one at the last user message; without any at `r`; each time past the orphans.
   */
  lemma CutFollowsTheTurns(config: Config, ms: seq<Message>, budget: nat)
    requires ms != []
    ensures StartsWithATurn(ms, FitStart(config, ms, budget, |ms|), CutPoint(config, ms, budget))
  {
    var r := FitStart(config, ms, budget, |ms|);
    FitStartIsInside(config, ms, budget, |ms|);
    var t := TailStart(ms, r);
    var c := CutPoint(config, ms, budget);
    assert c == t + LegalStart(ms[t..]);
    TailStartsWithATurn(ms, r);
    hide IsFirstLegal, FitStart, LegalStart, TailStart, CutPoint, IsTurnStart, StartsWithATurn;
    CutIsFirstLegal(ms, t);
    LegalFromTheTurn(ms, r, t, c);
  }

  ghost predicate IsTurnStart(ms: seq<Message>, r: nat, t: nat) {
    && (forall f :: FirstUserIs(ms, r, f) ==> t == f)
    && (forall u :: LastUserIs(ms, r, u) ==> t == u)
    && ((forall u :: !UserAt(ms, u)) ==> t == r)
  }

  lemma LegalFromTheTurn(ms: seq<Message>, r: nat, t: nat, c: nat)
    requires IsTurnStart(ms, r, t) && IsFirstLegal(ms, t, c)
    ensures StartsWithATurn(ms, r, c)
  {
    hide FirstUserIs, LastUserIs, IsFirstLegal;
  }

  lemma TailStartsWithATurn(ms: seq<Message>, r: nat)
    requires r < |ms|
    ensures IsTurnStart(ms, r, TailStart(ms, r))
  {
    var first, last := FirstUser(ms, r), LastUser(ms);
    assert first < |ms| ==> UserAt(ms, first);
    assert last < |ms| ==> UserAt(ms, last);
    hide FirstUser, LastUser;
  }

  /**
   What an over-budget history becomes: its system messages and a suffix of the rest that starts with the
   first turn in the longest fitting suffix, or with the last turn when none starts there, orphans at its
   front left out. Hence every fitting turn that no orphan follows is kept.
   */
  lemma SnipKeepsFittingTurns(config: Config, ms: seq<Message>) returns (c: nat)
    requires InputBudget(config) > 0 && config.promptTokens(ms) > InputBudget(config) && NonSystem(ms) != []
    ensures var rest := NonSystem(ms);
            var r := FitStart(config, rest, RemainingBudget(config, Systems(ms)), |rest|);
            && c <= |rest| && Snipped(config, ms) == Systems(ms) + rest[c..]
            && StartsWithATurn(rest, r, c)
            && (forall u :: UserAt(rest, u) && r <= u && NoOrphanResults(rest[u..]) ==> c <= u)
  {
    var rest, budget := NonSystem(ms), RemainingBudget(config, Systems(ms));
    c := CutPoint(config, rest, budget);
    CutFollowsTheTurns(config, rest, budget);
    var r := FitStart(config, rest, budget, |rest|);
    hide CutPoint, FitStart, RemainingBudget, NoOrphanResults;
    forall u | UserAt(rest, u) && r <= u && NoOrphanResults(rest[u..])
      ensures c <= u
    {
      var f := FirstUserFrom(rest, r, u);
      assert IsFirstLegal(rest, f, c);
    }
  }

  lemma FirstUserFrom(ms: seq<Message>, r: nat, u: nat) returns (f: nat)
    requires r <= u && UserAt(ms, u)
    ensures f <= u && FirstUserIs(ms, r, f)
  {
    f := r;
    while !UserAt(ms, f)
      invariant r <= f <= u && forall v :: r <= v < f ==> !UserAt(ms, v)
      decreases u - f
    {
      f := f + 1;
    }
  }

  /** A history that fits, or has no budget set or nothing but system messages, is left alone. */
  lemma FittingHistoryStays(config: Config, ms: seq<Message>)
    requires InputBudget(config) == 0 || config.promptTokens(ms) <= InputBudget(config) || NonSystem(ms) == []
    ensures Snipped(config, ms) == ms
  {}

  /** The rest gets what the larger of the two estimates of the system part leaves. */
  lemma RestGetsTheRemainder(config: Config, systems: seq<Message>)
    ensures var sum, fixed := TokenSum(config, systems), config.promptTokens(systems);
            var left := RemainingBudget(config, systems);
            if sum >= InputBudget(config) || fixed >= InputBudget(config) then left == 0
            else left + sum <= InputBudget(config) && left + fixed <= InputBudget(config) &&
                 (left + sum == InputBudget(config) || left + fixed == InputBudget(config))
  {}

  lemma OneRole(m: Message)
    ensures Systems([m]) == if m.role.System? then [m] else []
    ensures NonSystem([m]) == if m.role.System? then [] else [m]
  {
    assert [m][..0] == [];
  }

  /** The two filters split a history in order; `OneRole` says what they do to one message. */
  lemma {:induction false} RolesSplit(a: seq<Message>, b: seq<Message>)
    ensures Systems(a + b) == Systems(a) + Systems(b) && NonSystem(a + b) == NonSystem(a) + NonSystem(b)
  {
    if b == [] {
      assert a + b == a;
    } else {
      assert (a + b)[..|a + b| - 1] == a + b[..|b| - 1];
      RolesSplit(a, b[..|b| - 1]);
    }
  }

  /** A suffix that starts legally keeps every call's result: nothing after the cut is lost. */
  lemma SuffixStaysPaired(p: seq<Message>, q: seq<Message>)
    requires WellPaired(p + q) && DistinctCalls(p + q) && AnswersEarlierCalls(multiset{}, q)
    ensures WellPaired(q) && DistinctCalls(q)
  {
    ConcatCounts(p, q);
    ConcatAnswersEarlier(multiset{}, p, q);
    FewerRepeats(Answered(q), Answered(p + q));
    FewerRepeats(Declared(q), Declared(p + q));
    forall id | id in Declared(q)
      ensures id in Answered(q)
    {
      if id in Answered(p) {
        AnsweredWereDeclared(multiset{}, p, id);
      }
    }
  }

  lemma {:induction false} SystemsAreInert(ms: seq<Message>)
    ensures Declared(Systems(ms)) == multiset{} && Answered(Systems(ms)) == multiset{}
    ensures AnswersEarlierCalls(multiset{}, Systems(ms))
  {
    if ms != [] {
      var r, m := Systems(ms[..|ms| - 1]), ms[|ms| - 1];
      SystemsAreInert(ms[..|ms| - 1]);
      assert (r + [m])[..|r|] == r;
    }
  }

  lemma {:induction false} NonSystemKeepsPairing(ms: seq<Message>)
    ensures Declared(NonSystem(ms)) == Declared(ms) && Answered(NonSystem(ms)) == Answered(ms)
    ensures AnswersEarlierCalls(multiset{}, NonSystem(ms)) == AnswersEarlierCalls(multiset{}, ms)
  {
    if ms != [] {
      var r, m := NonSystem(ms[..|ms| - 1]), ms[|ms| - 1];
      NonSystemKeepsPairing(ms[..|ms| - 1]);
      assert (r + [m])[..|r|] == r;
    }
  }

  lemma NamedResults(ms: seq<Message>)
    requires AnswersEarlierCalls(multiset{}, ms)
    ensures forall m :: m in ms && m.role.Tool? ==> m.callId != ""
  {
    forall j | 0 <= j < |ms| && ms[j].role.Tool?
      ensures ms[j].callId != ""
    {
      AnswersEarlierAt(multiset{}, ms, j);
    }
  }

  lemma CutIsLegal(config: Config, ms: seq<Message>, budget: nat)
    requires ms != [] && AnswersEarlierCalls(multiset{}, ms)
    ensures AnswersEarlierCalls(multiset{}, ms[CutPoint(config, ms, budget)..])
  {
    NamedResults(ms);
    FitStartIsInside(config, ms, budget, |ms|);
    var t := TailStart(ms, FitStart(config, ms, budget, |ms|));
    TailIsLegal(ms[t..]);
    assert ms[t..][LegalStart(ms[t..])..] == ms[t + LegalStart(ms[t..])..];
  }

  lemma InertPrefix(systems: seq<Message>, rest: seq<Message>)
    requires Declared(systems) == multiset{} && Answered(systems) == multiset{} &&
        AnswersEarlierCalls(multiset{}, systems)
    requires WellPaired(rest) && DistinctCalls(rest)
    ensures WellPaired(systems + rest) && DistinctCalls(systems + rest)
  {
    ConcatCounts(systems, rest);
    ConcatAnswersEarlier(multiset{}, systems, rest);
    assert multiset{} + Declared(systems) == multiset{};
  }

  lemma NonSystemWellPaired(ms: seq<Message>)
    requires WellPaired(ms) && DistinctCalls(ms)
    ensures WellPaired(NonSystem(ms)) && DistinctCalls(NonSystem(ms))
  {
    NonSystemKeepsPairing(ms);
  }

  lemma CutKeepsPairing(config: Config, ms: seq<Message>, budget: nat)
    requires ms != [] && WellPaired(ms) && DistinctCalls(ms)
    ensures var tail := ms[CutPoint(config, ms, budget)..]; WellPaired(tail) && DistinctCalls(tail)
  {
    var c := CutPoint(config, ms, budget);
    CutIsLegal(config, ms, budget);
    assert ms == ms[..c] + ms[c..];
    SuffixStaysPaired(ms[..c], ms[c..]);
  }

  /** The cut never separates a surviving call from its result. */
  lemma SnipKeepsPairing(config: Config, ms: seq<Message>)
    requires WellPaired(ms) && DistinctCalls(ms)
    ensures WellPaired(Snipped(config, ms)) && DistinctCalls(Snipped(config, ms))
  {
    if MustSnip(config, ms) {
      var budget := RemainingBudget(config, Systems(ms));
      NonSystemWellPaired(ms);
      CutKeepsPairing(config, NonSystem(ms), budget);
      SystemsAreInert(ms);
      InertPrefix(Systems(ms), NonSystem(ms)[CutPoint(config, NonSystem(ms), budget)..]);
    }
  }

  lemma {:induction false} SystemsSubset(ms: seq<Message>)
    ensures forall m :: m in Systems(ms) ==> m in ms
    ensures forall m :: m in NonSystem(ms) ==> m in ms
  {
    if ms != [] {
      SystemsSubset(ms[..|ms| - 1]);
    }
  }

  lemma SnippedSubset(config: Config, ms: seq<Message>)
    ensures forall m :: m in Snipped(config, ms) ==> m in ms
  {
    SystemsSubset(ms);
  }

  // ----- What the cut costs -----

  /**
   When a user message lies within the longest fitting suffix and both the last message and
   the system part fit, the summed estimates of the snipped list stay within the budget.
   */
  lemma SnipFitsBudget(config: Config, ms: seq<Message>)
    requires MustSnip(config, ms)
    requires var rest := NonSystem(ms);
             var budget := RemainingBudget(config, Systems(ms));
             && TokenSum(config, rest[|rest| - 1..]) <= budget
             && FirstUser(rest, FitStart(config, rest, budget, |rest|)) < |rest|
    requires TokenSum(config, Systems(ms)) <= InputBudget(config) &&
        config.promptTokens(Systems(ms)) <= InputBudget(config)
    ensures TokenSum(config, Snipped(config, ms)) <= InputBudget(config)
  {
    var systems, rest := Systems(ms), NonSystem(ms);
    var budget := RemainingBudget(config, systems);
    ScanFindsLongestFit(config, rest, budget);
    var fit := FitStart(config, rest, budget, |rest|);
    var c := CutPoint(config, rest, budget);
    SuffixCostsLess(config, rest, fit, c);
    SumSplits(config, systems, rest[c..]);
  }
}

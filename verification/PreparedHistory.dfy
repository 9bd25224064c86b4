/** The nine passes in sequence, and what survives all of them. */
module PreparedHistory {
  import opened Messages
  import opened HistoryRepair
  import opened BudgetPasses
  import opened HistorySnip

  /** The history the budget passes get to see: stripped, without orphans and with every call answered. */
  function RepairedHistory(ms: seq<Message>): seq<Message> {
    Backfill(DropOrphans(StripMalformed(StripPlaceholders(ms))))
  }

  /** After ageing and compaction. */
  function Condensed(config: Config, ms: seq<Message>, ids: set<string>): Compaction {
    CompactInflight(config, Budgeted(config, RepairedHistory(ms)), ids)
  }

  function Prepared(config: Config, ms: seq<Message>, ids: set<string>): Compaction {
    var condensed := Condensed(config, ms, ids);
    Compaction(Backfill(DropOrphans(Snipped(config, condensed.messages))), condensed.ids)
  }

  lemma StrippedDeclares(ms: seq<Message>)
    ensures Declared(StripMalformed(StripPlaceholders(ms))) <= Declared(ms)
    ensures AllCallsNamed(StripMalformed(StripPlaceholders(ms)))
  {
    StripPlaceholdersKeepsCalls(ms);
    StripMalformedKeepsNamedCalls(StripPlaceholders(ms));
  }

  lemma RepairedIsPaired(ms: seq<Message>)
    requires DistinctCalls(ms)
    ensures WellPaired(RepairedHistory(ms)) && DistinctCalls(RepairedHistory(ms))
  {
    var stripped := StripMalformed(StripPlaceholders(ms));
    StrippedDeclares(ms);
    FewerRepeats(Declared(stripped), Declared(ms));
    RepairIsWellPaired(stripped);
  }

  lemma CondensedSkeleton(config: Config, ms: seq<Message>, ids: set<string>)
    ensures SameSkeleton(RepairedHistory(ms), Condensed(config, ms, ids).messages)
  {
    var repaired := RepairedHistory(ms);
    var budgeted := Budgeted(config, repaired);
    BudgetedSkeleton(config, repaired);
    CompactionSkeleton(config, budgeted, ids);
    SkeletonTransitive(repaired, budgeted, Condensed(config, ms, ids).messages);
  }

  lemma CondensedIsPaired(config: Config, ms: seq<Message>, ids: set<string>)
    requires DistinctCalls(ms)
    ensures WellPaired(Condensed(config, ms, ids).messages) && DistinctCalls(Condensed(config, ms, ids).messages)
  {
    RepairedIsPaired(ms);
    CondensedSkeleton(config, ms, ids);
    SkeletonKeepsPairing(multiset{}, RepairedHistory(ms), Condensed(config, ms, ids).messages);
  }

  /** The over-budget request as compaction gets to see it. */
  ghost predicate CompactsInflight(config: Config, ms: seq<Message>, ids: set<string>) {
    OverBudget(config, Budgeted(config, RepairedHistory(ms)), ids)
  }

  /**
   In the whole sequence of passes too: with distinct call ids exactly an oldest-first prefix of the
   candidates is compacted and recorded, and the text shrinks by at least one character for each.
   */
  lemma CondensedTakesAPrefix(config: Config, ms: seq<Message>, ids: set<string>)
    requires DistinctCalls(ms) && CompactsInflight(config, ms, ids)
    ensures var base := Recompacted(config, Budgeted(config, RepairedHistory(ms)), ids);
            var k := Visits(config, Budgeted(config, RepairedHistory(ms)), ids);
            var visited := Candidates(config, base, ids)[..k];
            var out := Condensed(config, ms, ids);
            && CompactedAt(config, base, visited, out.messages)
            && out.ids == IdsAfter(base, visited, ids, |visited|)
            && (NoticesAreShort(config.notice) ==> TextSize(out.messages) + |visited| <= TextSize(base))
  {
    var repaired := RepairedHistory(ms);
    RepairedIsPaired(ms);
    BudgetedSkeleton(config, repaired);
    SkeletonKeepsPairing(multiset{}, repaired, Budgeted(config, repaired));
    CompactionTakesAPrefix(config, Budgeted(config, repaired), ids);
  }

  /**
   With distinct call ids the last two passes find nothing to do: no orphan is left to drop
   and no result is missing after the cut.
   */
  lemma LastPassesChangeNothing(config: Config, ms: seq<Message>, ids: set<string>)
    requires DistinctCalls(ms)
    ensures var snipped := Snipped(config, Condensed(config, ms, ids).messages);
            DropOrphans(snipped) == snipped && MissingResults(snipped) == [] &&
            Prepared(config, ms, ids).messages == snipped
  {
    var snipped := Snipped(config, Condensed(config, ms, ids).messages);
    CondensedIsPaired(config, ms, ids);
    SnipKeepsPairing(config, Condensed(config, ms, ids).messages);
    WellPairedIsFixed(snipped);
    BackfillCounts(snipped);
    assert |MissingResults(snipped)| == 0;
  }

  // ----- Results that are neither compacted nor cut -----

  /** `after` is what the repaired result at position `i` is allowed to become by its age. */
  ghost predicate BudgetedByAge(config: Config, ms: seq<Message>, i: nat, after: Message)
    requires i < |ms|
  {
    if |LaterResults(ms, i)| >= 6 then IsCondensed(config, ms[i], after) else IsNormalized(config, i, ms[i], after)
  }

  lemma CondensedKeepsBudgeted(config: Config, ms: seq<Message>, ids: set<string>, i: nat)
    requires i < |RepairedHistory(ms)| && RepairedHistory(ms)[i].role.Tool?
    ensures |Condensed(config, ms, ids).messages| == |RepairedHistory(ms)|
    ensures Condensed(config, ms, ids).messages[i].callId == RepairedHistory(ms)[i].callId
    ensures RepairedHistory(ms)[i].callId !in Condensed(config, ms, ids).ids ==>
              BudgetedByAge(config, RepairedHistory(ms), i, Condensed(config, ms, ids).messages[i])
  {
    var repaired := RepairedHistory(ms);
    CondensedSkeleton(config, ms, ids);
    BudgetActsByAge(config, repaired, i);
    hide CompactInflight, IsCondensed, IsNormalized, LaterResults, RepairedHistory;
    CompactedOrUntouched(config, Budgeted(config, repaired), ids, i);
  }

  /**
   With distinct call ids every result that reaches the model without being recorded as compacted is what
   its age allows: untouched or normalised while fewer than six results follow it, condensed otherwise.
   */
  lemma PreparedResultsActTheirAge(config: Config, ms: seq<Message>, ids: set<string>, m: Message) returns (i: nat)
    requires DistinctCalls(ms)
    requires var out := Prepared(config, ms, ids); m in out.messages && m.role.Tool? && m.callId !in out.ids
    ensures i < |RepairedHistory(ms)| && RepairedHistory(ms)[i].role.Tool?
    ensures RepairedHistory(ms)[i].callId == m.callId && BudgetedByAge(config, RepairedHistory(ms), i, m)
  {
    var condensed := Condensed(config, ms, ids);
    LastPassesChangeNothing(config, ms, ids);
    SnippedSubset(config, condensed.messages);
    CondensedSkeleton(config, ms, ids);
    hide Condensed, Snipped, RepairedHistory, BudgetedByAge;
    i :| 0 <= i < |condensed.messages| && condensed.messages[i] == m;
    CondensedKeepsBudgeted(config, ms, ids, i);
  }

  // ----- Usable calls only -----

  lemma {:induction false} DropOrphansSubset(ms: seq<Message>)
    ensures forall m :: m in DropOrphans(ms) ==> m in ms
  {
    if ms != [] {
      DropOrphansSubset(ms[..|ms| - 1]);
    }
  }

  lemma {:induction false} FillMembers(ms: seq<Message>, i: nat, gaps: seq<Gap>)
    requires i <= |ms|
    ensures forall m :: m in Fill(ms, i, gaps) ==> m in ms || m.role.Tool?
    decreases |ms| - i
  {
    if i < |ms| {
      FillMembers(ms, BlockEnd(ms, i), gaps);
      SyntheticsAreTools(gaps, i);
    }
  }

  lemma NamedCallsSurvive(some: seq<Message>, all: seq<Message>)
    requires AllCallsNamed(all) && forall m :: m in some ==> m in all || m.role.Tool?
    ensures AllCallsNamed(some)
  {
    forall i, k | 0 <= i < |some| && some[i].role.Assistant? && 0 <= k < |some[i].calls|
      ensures HasValidName(some[i].calls[k])
    {
      assert some[i] in some;
      var j :| 0 <= j < |all| && all[j] == some[i];
      assert HasValidName(all[j].calls[k]);
    }
  }

  lemma SkeletonKeepsNames(a: seq<Message>, b: seq<Message>)
    requires SameSkeleton(a, b) && AllCallsNamed(a)
    ensures AllCallsNamed(b)
  {
    forall i, k | 0 <= i < |b| && b[i].role.Assistant? && 0 <= k < |b[i].calls|
      ensures HasValidName(b[i].calls[k])
    {
      assert a[i] == b[i];
    }
  }

  lemma RepairKeepsNames(ms: seq<Message>)
    requires AllCallsNamed(ms)
    ensures AllCallsNamed(Backfill(DropOrphans(ms)))
  {
    var kept := DropOrphans(ms);
    DropOrphansSubset(ms);
    NamedCallsSurvive(kept, ms);
    FillMembers(kept, 0, MissingResults(kept));
    NamedCallsSurvive(Backfill(kept), kept);
  }

  /** No nameless call reaches the model, whatever the history looked like. */
  lemma PreparedCallsAreNamed(config: Config, ms: seq<Message>, ids: set<string>)
    ensures AllCallsNamed(Prepared(config, ms, ids).messages)
  {
    var condensed := Condensed(config, ms, ids).messages;
    StrippedDeclares(ms);
    RepairKeepsNames(StripMalformed(StripPlaceholders(ms)));
    CondensedSkeleton(config, ms, ids);
    SkeletonKeepsNames(RepairedHistory(ms), condensed);
    SnippedSubset(config, condensed);
    NamedCallsSurvive(Snipped(config, condensed), condensed);
    RepairKeepsNames(Snipped(config, condensed));
  }

  /**
   The pipeline's structural promise. For every history with pairwise distinct call ids,
   whatever ageing, compaction and cutting did: each call that reaches the model is answered
   by exactly one later result, and each result answers an earlier call that is still there.
   */
  lemma PreparedIsWellPaired(config: Config, ms: seq<Message>, ids: set<string>)
    requires DistinctCalls(ms)
    ensures var out := Prepared(config, ms, ids).messages;
            AnsweredOnceLater(out) && ResultsAnswerEarlier(out)
  {
    var condensed := Condensed(config, ms, ids).messages;
    CondensedIsPaired(config, ms, ids);
    SnipKeepsPairing(config, condensed);
    LastPassesChangeNothing(config, ms, ids);
    WellPairedByPosition(Snipped(config, condensed));
  }

  /** No orphans and no unanswered calls for any history; only the uniqueness of results needs distinct ids. */
  lemma PreparedHasNoOrphans(config: Config, ms: seq<Message>, ids: set<string>)
    ensures var out := Prepared(config, ms, ids).messages;
            AnswersEarlierCalls(multiset{}, out) && Complete(out)
  {
    var snipped := Snipped(config, Condensed(config, ms, ids).messages);
    DropOrphansIsLegal(snipped);
    BackfillCounts(DropOrphans(snipped));
    BackfillFixesComplete(DropOrphans(snipped));
  }

  /**
   The budget holds for the final list: if the longest fitting suffix reaches a user message,
   the last message fits and the system part fits, the summed estimates stay within it.
   */
  lemma PreparedFitsBudget(config: Config, ms: seq<Message>, ids: set<string>)
    requires DistinctCalls(ms)
    requires var condensed := Condensed(config, ms, ids).messages;
             var rest := NonSystem(condensed);
             var budget := RemainingBudget(config, Systems(condensed));
             && MustSnip(config, condensed)
             && TokenSum(config, rest[|rest| - 1..]) <= budget
             && FirstUser(rest, FitStart(config, rest, budget, |rest|)) < |rest|
             && TokenSum(config, Systems(condensed)) <= InputBudget(config)
             && config.promptTokens(Systems(condensed)) <= InputBudget(config)
    ensures TokenSum(config, Prepared(config, ms, ids).messages) <= InputBudget(config)
  {
    LastPassesChangeNothing(config, ms, ids);
    SnipFitsBudget(config, Condensed(config, ms, ids).messages);
  }
}

# Verified models of nanobot and Atlas

Dafny models of six stateful cores of the repository, with proofs of what they promise.

| files | core |
|---|---|
| `Messages`, `HistoryRepair`, `BudgetPasses`, `HistorySnip`, `PreparedHistory`, `ContextGovernor` | the nine passes that turn a stored chat history into a request for the model |
| `OptionalFeatures` | the cyclic search for installed dependencies |
| `RuntimeContext`, `TagStripping`, `QuoteEncoding` | context blocks appended to a prompt, and four ways to take them off again |
| `SqlLiterals`, `PaymentLedger`, `PaymentDatabase` | the payment ledger of the admin console, and the SQL it prints |
| `AutomationTurns` | the coordinator of automation turns, as atomic steps between awaits |
| `AtlasSchema`, `PrivacyPurge`, `RecordScan`, `WearLedger` | the batched data purge, the mailbox scan merge, and the wear counters |

`Text` holds options, results and string operations. `dafny verify dfyconfig.toml` checks everything.

Each core has two layers. Functions on values say what an operation computes, and lemmas prove the properties of
those functions over every input, every run or every interleaving. Methods and classes with the source's loops,
fields and lazily made copies are proved to compute exactly those functions; nothing they should not touch changes.

What the results come to:

- **History.** For every history with pairwise distinct call ids, whatever ageing, compaction and cutting did, each
  call that reaches the model has a name and is answered by exactly one later result, and each result answers an
  earlier call that is still there. The last two of the nine passes then change nothing. The proof goes through
  multisets of declared and answered ids: content rewrites keep the skeleton of a list, and a suffix without orphans
  at its front keeps every pair. The offset arithmetic of back-filling is proved to find the end of the tool run
  behind the right assistant for any number of missing results on any number of assistants.
- **Dependencies.** The search ends on every finite metadata graph, cyclic or not. It answers yes exactly when the
  first requirement it meets under each key is satisfied, and a walk that looks at names only lists these. A no has a
  reachable culprit. A yes is right for names and extras always; the answer is right for versions too if and only if
  reachable requirements with one key meet their versions together, or one that is met first fails.
- **Runtime context.** Detaching undoes appending, reattaching undoes detaching but for one degenerate text,
  display-time removal agrees with detaching on every content and marker, and a merge with the previous message keeps
  the new marker exact. Removal without a marker never leaves an opening tag, whatever the text, and the encoded quote
  is read back exactly.
- **Payments.** In every run of adds, guarded edits and reconciliations, one after another and any statement of which
  may be lost, each payment equals the sum of its lines; only a main insert that is applied while reported lost is not
  covered. A failed add restores the ledger exactly when it was refused, its main row was not written, or a later
  insert was lost and no old line carries its references. When only a read of the final verification is lost, the add
  fails with its rows in place.
- **Turns.** In every interleaving both tables hold exactly the live calls, a settled future never changes, a caller
  gets the first completion of its turn after it began, unless its hand-over fails or it is cancelled, and every
  session's deferred turns come out in order, also when several coordinators share the queues.
- **Atlas.** A purge of n rows takes floor(n / 200) + 1 transactions and clears what it should and nothing else.
  Recording a scan twice changes nothing, except in one case that is characterised exactly. Every wear counter
  equals the number of logged events naming its piece or outfit, and a key counts once however often it is retried.

Where code and expectation part, the code is followed and the difference is a theorem:

- A placeholder assistant whose calls are all nameless survives the first two passes
  (`PlaceholderSurvivesIff`, a concrete one in `PlaceholderSurvives`).
- A requirement met once at a satisfied version hides a later wrong version: a concrete index on which the search
  answers yes (`WrongVersionCanHide`).
- An add whose verification read is lost raises an error and leaves its rows in place, and the compensation of another
  takes an old line with its references along (`FailedAddRestoresIff`, concrete runs in `FailedAddCanChangeTheLedger`).
- Two adds that are both checked before either inserts pass the duplicate check together; with one link they leave
  payments that differ from their lines, unless both amounts are zero (`RacingAddsBalanceIff`).
- An accepted edit of a line can unbalance its payment, because it is checked against the first payment with the
  references in any session: a concrete ledger (`AcceptedEditCanUnbalance`).
- Reattaching to a text that was only a blank line and the suffix drops the blank line (`ReattachUndoesDetach`).
- A context marker is lost when text is merged behind list content (`MergedMarkerDetaches`).
- `itemIds` with a repeated id make the whole removal of pieces fail (`RemoveAllRemoves`).
- The price change recorded with a charge depends on the order of the findings (`OrderDoesNotMatterIff`, two findings in
  `OrderCanChangeThePrice`).
- A stale finding stored behind the first thousand can come within reach of a second scan
  (`RescanChangesNothing`, with 1,001 rows in `RescanCanChange`).
- A turn deferred under the empty session key keeps its own session key (`RunsAgree`).

## Model

| member | source | states |
|---|---|---|
| Messages.WellPairedByPosition | nanobot/agent/context_governance.py:232-306 | for distinct call ids, counting declared and answered ids is the same as saying, position by position, that each call has exactly one later result and each result an earlier call; from positions to counts for any ids |
| Messages.SkeletonKeepsPairing | nanobot/agent/context_governance.py:365-394 | rewriting only the content of tool results changes neither declared nor answered ids nor which results are orphans |
| HistoryRepair.StripMalformedKeepsNamedCalls | nanobot/agent/context_governance.py:177-230 | only nameless calls disappear; all other calls and every result stay |
| HistoryRepair.PlaceholderSurvivesIff | nanobot/agent/context_governance.py:153-230 | a bare placeholder is left after both stripping passes exactly when one had nothing but nameless calls |
| HistoryRepair.PlaceholderSurvives | nanobot/agent/context_governance.py:153-230 | a concrete placeholder with one nameless call that both stripping passes leave behind |
| HistoryRepair.StrippedMessagesKeepTheRest | nanobot/agent/context_governance.py:177-230 | a message is in the stripped list exactly when it is an old one without its nameless calls, and not an empty assistant whose calls all went |
| HistoryRepair.DropOrphansIsLegal | nanobot/agent/context_governance.py:232-261 | afterwards every result answers an earlier call and no id is answered twice; no call is lost |
| HistoryRepair.DropOrphansFixesLegal | nanobot/agent/context_governance.py:232-261 | the lists left alone are exactly those without orphans and repeats |
| HistoryRepair.OneMoreGap | nanobot/agent/context_governance.py:293-305 | starting one past the assistant, shifted by the results inserted so far, and skipping the tool run found there is the right place for the next missing result |
| HistoryRepair.BackfillCounts | nanobot/agent/context_governance.py:263-306 | an unanswered id gets one result per declaration, every other id keeps its results, and the list grows by exactly the number of missing declarations |
| HistoryRepair.BackfillFixesComplete | nanobot/agent/context_governance.py:289-306 | the lists left alone are exactly those in which every call is answered, and every output is one |
| HistoryRepair.OwedResultsFollowTheRun | nanobot/agent/context_governance.py:295-306 | each assistant is followed by its own tool run and then by exactly the results it is owed, in call order |
| HistoryRepair.BackfillKeepsTheOriginals | nanobot/agent/context_governance.py:293-306 | taking the inserted ids' results out again gives the original list, in order |
| HistoryRepair.BackfilledIsOldOrInserted | nanobot/agent/context_governance.py:268-304 | whatever is not an old message is a result with the fixed text for an unanswered call, under its id and the name of its tool |
| HistoryRepair.RepairIsWellPaired | nanobot/agent/context_governance.py:84-85 | with distinct ids, dropping and back-filling leave every call answered exactly once and later |
| HistoryRepair.WellPairedIsFixed | nanobot/agent/context_governance.py:88-90 | both passes leave a list alone exactly when it is well paired |
| HistoryRepair.RepairIsIdempotent | nanobot/agent/context_governance.py:232-306 | each pass is idempotent on every list, and with distinct ids so is the pair |
| BudgetPasses.DecayStub | nanobot/agent/context_governance.py:326-363 | an aged text decays to at most 220 characters |
| BudgetPasses.DecayShortens | nanobot/agent/context_governance.py:345-363 | a text decays only to something shorter than itself |
| BudgetPasses.BudgetedSkeleton | nanobot/agent/context_governance.py:365-394 | ageing and normalising touch nothing but the content of tool results |
| BudgetPasses.BudgetActsByAge | nanobot/agent/context_governance.py:318-394 | a result with fewer than six later results is normalised: filled, stored and cut to length, `read_file` only filled; with six or more a text of at most 220 characters stays and a longer one becomes at most 220 characters behind its lead, the verdict lines first |
| BudgetPasses.InputBudgetLeaves | nanobot/agent/context_governance.py:93-108 | the block limit where one is set, and otherwise what the output reserve and the buffer leave of the window; never negative |
| BudgetPasses.Candidates | nanobot/agent/context_governance.py:555-575 | only eligible positions, oldest first |
| BudgetPasses.CandidatesAreAll | nanobot/agent/context_governance.py:562-573 | every unrecorded result from the current turn on that has 500 or more characters and comes from one of the eight tools is a candidate |
| BudgetPasses.CompactionSkeleton | nanobot/agent/context_governance.py:396-455 | compaction touches only contents of tool results, and recorded ids only grow |
| BudgetPasses.CompactedOrUntouched | nanobot/agent/context_governance.py:396-455 | each message stays as it is, or is a recorded result that carries the notice; newly recorded are only long results of the eight tools from the current turn on |
| BudgetPasses.RequestWithinBudgetStays | nanobot/agent/context_governance.py:403-416 | without a budget nothing changes, and within it nothing new is compacted |
| BudgetPasses.CompactionTakesAPrefix | nanobot/agent/context_governance.py:427-444 | over budget and with one result per id, exactly an oldest-first prefix of the candidates is compacted and recorded, and the text shrinks by at least one character for each |
| BudgetPasses.CompactionStopsInTime | nanobot/agent/context_governance.py:418-444 | on exit the estimate is at the target, or at the budget with the newest candidate untouched, or every candidate is compacted; no shorter prefix would have stopped |
| BudgetPasses.RecordedStayCompacted | nanobot/agent/context_governance.py:533-553 | results whose ids an earlier request recorded are compacted again |
| BudgetPasses.SourceNoticesAreShort | nanobot/agent/context_governance.py:504-512 | for every compactable tool the program's own notice is shorter than the 500 characters a result must have to be compacted |
| HistorySnip.ScanFindsLongestFit | nanobot/agent/context_governance.py:492-500 | the backward scan keeps the longest suffix that fits, or the last message alone |
| HistorySnip.TokensAddUp | nanobot/agent/context_governance.py:493-498 | the estimate of a list is the sum of the estimates of its messages |
| HistorySnip.CutFollowsTheTurns | nanobot/agent/context_governance.py:514-531 | the kept part starts at the first user message of the longest fitting suffix, without one at the last user message, and without any at the suffix itself; each time past the orphans found there and no further |
| HistorySnip.SnipKeepsFittingTurns | nanobot/agent/context_governance.py:479-523 | over budget the system messages stay, and so does everything from any fitting user message on whose suffix has no orphan |
| HistorySnip.FittingHistoryStays | nanobot/agent/context_governance.py:463-477 | a history within its budget is not cut |
| HistorySnip.RestGetsTheRemainder | nanobot/agent/context_governance.py:479-490 | the rest may cost what the larger of the two estimates of the system part leaves |
| HistorySnip.RolesSplit | nanobot/agent/context_governance.py:479-480 | system messages and the others are picked out message by message, in order |
| HistorySnip.TailIsLegal | nanobot/utils/helpers.py:466-482 | from the returned start on no result is without an earlier call, and from every earlier start some result is |
| HistorySnip.CutIsFirstLegal | nanobot/agent/context_governance.py:522-523 | behind a chosen start the cut is the first place without orphans |
| HistorySnip.SuffixStaysPaired | nanobot/agent/context_governance.py:514-523 | a suffix without orphans of a well-paired list is well paired |
| HistorySnip.SnipKeepsPairing | nanobot/agent/context_governance.py:457-502 | the cut never separates a surviving call from its result |
| HistorySnip.SnipFitsBudget | nanobot/agent/context_governance.py:479-502 | if the fitting suffix reaches a user message and the last message and the system part fit, the summed estimates stay within the budget |
| PreparedHistory.LastPassesChangeNothing | nanobot/agent/context_governance.py:82-90 | with distinct ids, dropping and back-filling after the cut change nothing |
| PreparedHistory.CondensedTakesAPrefix | nanobot/agent/context_governance.py:82-87 | in the sequence of passes, over budget and with distinct call ids, exactly an oldest-first prefix of the candidates is compacted and recorded |
| PreparedHistory.PreparedResultsActTheirAge | nanobot/agent/context_governance.py:76-90 | with distinct ids, every result that reaches the model uncompacted is a result of the repaired history, normalised when fewer than six results follow it there and condensed otherwise |
| PreparedHistory.PreparedCallsAreNamed | nanobot/agent/context_governance.py:82-90 | for any history, every call that reaches the model has a usable name |
| PreparedHistory.PreparedIsWellPaired | nanobot/agent/context_governance.py:76-90 | with distinct ids, after all nine passes each call has exactly one later result and each result an earlier call in the list |
| PreparedHistory.PreparedHasNoOrphans | nanobot/agent/context_governance.py:88-90 | for any history every result answers an earlier call and every call is answered |
| PreparedHistory.PreparedFitsBudget | nanobot/agent/context_governance.py:87-90 | the bound on the snipped list holds for the final list |
| ContextGovernor.StripPlaceholderMessages | nanobot/agent/context_governance.py:139-175 | the lazily copying loop computes the filter and reuses the input's dictionaries; the input is unchanged |
| ContextGovernor.StripMalformedToolCalls | nanobot/agent/context_governance.py:177-230 | the lazily copying loop computes the repair; the input is unchanged |
| ContextGovernor.DropOrphanToolResults | nanobot/agent/context_governance.py:232-261 | the loop over two growing id sets equals the filter declared-earlier-and-not-yet-answered |
| ContextGovernor.CollectMissing | nanobot/agent/context_governance.py:268-289 | the first loop finds exactly the unanswered declarations, in order |
| ContextGovernor.BackfillMissingToolResults | nanobot/agent/context_governance.py:263-306 | the insertion loop with its running offset equals back-filling; the input is unchanged |
| ContextGovernor.AgedOutIndices | nanobot/agent/context_governance.py:318-324 | exactly the positions of results that six later results follow |
| ContextGovernor.ApplyToolResultBudget | nanobot/agent/context_governance.py:365-394 | copies on the first write, writes in place afterwards, and never writes into the input |
| ContextGovernor.ApplyRecordedCompactions | nanobot/agent/context_governance.py:533-553 | recompacts exactly the recorded results, on a private copy |
| ContextGovernor.InflightCompactionCandidates | nanobot/agent/context_governance.py:555-575 | the loop finds the candidates |
| ContextGovernor.CompactCandidates | nanobot/agent/context_governance.py:427-444 | the greedy loop visits as many candidates as the model says, and the caller's set grows by their ids |
| ContextGovernor.CompactInflightOverflow | nanobot/agent/context_governance.py:396-455 | messages and recorded ids are those of the model; the input is unchanged |
| ContextGovernor.ScanBackwards | nanobot/agent/context_governance.py:492-500 | the loop keeps the suffix from the longest fit on |
| ContextGovernor.UserTail | nanobot/agent/context_governance.py:525-531 | the suffix from the first user message on |
| ContextGovernor.LastUserTail | nanobot/agent/context_governance.py:525-531 | the suffix from the last user message on |
| ContextGovernor.FindLegalMessageStart | nanobot/utils/helpers.py:466-482 | the loop that clears its declared ids finds the legal start |
| ContextGovernor.LegalHistoryTail | nanobot/agent/context_governance.py:514-523 | the fallbacks and the legal start pick the tail of the model |
| ContextGovernor.SnipHistory | nanobot/agent/context_governance.py:457-502 | the method computes the snipped list; the input is unchanged |
| ContextGovernor.PrepareForModel | nanobot/agent/context_governance.py:76-90 | the nine passes on heap dictionaries compute the prepared history and the grown id set; the input and its dictionaries are unchanged |
| OptionalFeatures.RequirementInstalledRec | nanobot/optional_features.py:127-147 | ends on cyclic metadata with the answer and the visited keys of the search on values |
| OptionalFeatures.ExtraDependenciesInstalled | nanobot/optional_features.py:150-171 | the same for one requested extra, including extras that are not provided |
| OptionalFeatures.RequirementInstalled | nanobot/optional_features.py:174-175 | true exactly when all that is met first under its key is satisfied; then names and extras are right for everything reachable, false has a reachable culprit, and the answer is right for versions if and only if versions agree under every key or something met first fails |
| OptionalFeatures.ExtraInstalled | nanobot/optional_features.py:178-181 | the same over all dependencies of an extra, versions included; no dependency list counts as installed |
| OptionalFeatures.KeyDecidesNames | nanobot/optional_features.py:130-135 | requirements with one visited key agree on names, extras and everything they pull in |
| OptionalFeatures.VisitOrderIsComplete | nanobot/optional_features.py:130-147 | what the search would meet first is reachable, and every reachable requirement's key is among the keys met |
| OptionalFeatures.InstalledIff | nanobot/optional_features.py:127-147 | the search answers yes exactly when every requirement met first under its key is installed, of the right version and with known extras |
| OptionalFeatures.AnswerIsRightAboutNames | nanobot/optional_features.py:134-147 | after a yes everything reachable is installed under its name with known extras; after a no something reachable is not satisfied |
| OptionalFeatures.AnswerIsRightIff | nanobot/optional_features.py:130-147 | the answer is whether everything reachable is satisfied, versions included, if and only if reachable requirements with one key meet their versions together or one that is met first fails |
| OptionalFeatures.LeafIsInstalledIff | nanobot/optional_features.py:127-147 | a requirement on a distribution without dependencies is installed exactly when its marker excludes it, or the version fits and each extra it asks for is offered |
| OptionalFeatures.UnknownExtraIsMissing | nanobot/optional_features.py:150-171 | asking for an extra that is not offered fails, unless nothing is declared and something matches |
| OptionalFeatures.MissingNeedFails | nanobot/optional_features.py:134-171 | so does an extra one of whose dependencies is not installed |
| OptionalFeatures.WrongVersionCanHide | nanobot/optional_features.py:130-142 | a concrete index on which the search answers yes although a reachable requirement has the wrong version |
| RuntimeContext.DetachUndoesAppend | nanobot/runtime_context.py:176-236 | for strings and lists, detaching recovers content, sources and blocks exactly when the appended suffix is not empty |
| RuntimeContext.ReattachUndoesDetach | nanobot/runtime_context.py:204-269 | whatever was detached, reattaching gives the content back, unless it was only a blank line and the suffix, and the new marker detaches the same again |
| RuntimeContext.DetachesIff | nanobot/runtime_context.py:204-236 | something is detached exactly when the marker has version 1 and its non-empty suffix, or its non-empty list of blocks, is the end of the content |
| RuntimeContext.ReattachedContent | nanobot/runtime_context.py:239-269 | text blocks go behind text as one suffix after a blank line; in all other cases the blocks become the last elements of a list |
| RuntimeContext.ReattachedSuffix | nanobot/runtime_context.py:246-252 | that suffix is the texts of the blocks with blank lines between them |
| RuntimeContext.PublicAgreesWithDetach | nanobot/runtime_context.py:272-296 | display-time removal shows what detaching leaves, on every content and marker |
| RuntimeContext.AppendedContent | nanobot/runtime_context.py:176-200 | text is followed by a blank line and the suffix, empty or absent content becomes the suffix, and a list keeps its elements and gets one text element for each block |
| RuntimeContext.SuffixHoldsEveryBlock | nanobot/runtime_context.py:194-195 | the suffix is the contents of all blocks in order, with blank lines between them |
| RuntimeContext.MergeKeepsBoth | nanobot/agent/context.py:275-296 | two texts merge to the left, a blank line and the right, an empty one gives the other; any other pair becomes a list of what the left shows followed by what the right shows |
| RuntimeContext.CurrentTurnIsLast | nanobot/agent/context.py:374-388 | a last message with the role of the turn is merged with it and keeps its place, any other is followed by it; all earlier messages stay |
| RuntimeContext.MergedMarkerDetaches | nanobot/agent/context.py:275-296 | after a merge the new marker detaches, to both visible parts joined, exactly when the new content is a list or both sides are text |
| RuntimeContext.BuiltTurnDetaches | nanobot/agent/context.py:374-388 | the last message of the built list shows the earlier visible part and then the new one without its context blocks; all others are unchanged |
| RuntimeContext.NormalizeBlocks | nanobot/runtime_context.py:122-152 | the loop computes the normalised blocks or the first error |
| RuntimeContext.NormalizedBlocksAreUsable | nanobot/runtime_context.py:79-152 | normalised blocks have a source and a content and survive being encoded and normalised again |
| RuntimeContext.NormalizedSplits | nanobot/runtime_context.py:122-152 | blocks are normalised one by one in order, and the first fault is the result |
| RuntimeContext.OneBlockNormalized | nanobot/runtime_context.py:129-151 | a value that is no block, or has a blank source, is an error; a block with blank content is dropped, any other is trimmed |
| TagStripping.StrippedTextHasNoTag | nanobot/runtime_context.py:304-329 | no result holds an opening tag, even when a cut glues one together or a block never closes, and stripping twice is stripping once |
| TagStripping.StripContent | nanobot/runtime_context.py:315-348 | the method strips text or each text element of a list, drops emptied elements and leaves the rest |
| TagStripping.StrippedListIsStable | nanobot/runtime_context.py:330-347 | no text element keeps a tag, tag-free elements stay, and stripping twice is stripping once |
| TagStripping.ElementsAreStripped | nanobot/runtime_context.py:330-347 | each element is stripped by itself in its place, and dropped exactly when it is a text with a tag of which nothing is left |
| TagStripping.BlockIsCutOut | nanobot/runtime_context.py:307-310 | the first closed block goes with the blanks and newlines behind it; the text before it stays, and the text behind it is treated as if it stood alone |
| TagStripping.TextBehindABlockStays | nanobot/runtime_context.py:307-310 | behind a closed block exactly the blanks and then the newlines go; the text from there on stays |
| TagStripping.OpenTailIsCut | nanobot/runtime_context.py:312-313 | a block that never closes is cut off to the end, and text without a tag stays |
| TagStripping.WrappedBlockIsStripped | nanobot/runtime_context.py:56-61 | tag-free text with one wrapped, bracket-free block strips to the text without outer white space |
| QuoteEncoding.NormalizeQuote | nanobot/runtime_context.py:36-45 | a quote is non-empty, at most 4000 characters, printable and does not start with white space |
| QuoteEncoding.CleanQuoteStays | nanobot/runtime_context.py:36-45 | a printable quote without outer white space is accepted as it is, or its first 4000 characters |
| QuoteEncoding.EncodedQuote | nanobot/runtime_context.py:69-70 | replacing brackets in the finished literal is escaping them character by character |
| QuoteEncoding.EscapesSplit | nanobot/runtime_context.py:69-70 | characters are escaped one by one, in order |
| QuoteEncoding.OneEscape | nanobot/runtime_context.py:69-70 | a plain character stays, quotes and backslashes get a backslash, line breaks and tabs their short form, brackets their code |
| QuoteEncoding.EncodedQuoteReadsBack | nanobot/runtime_context.py:69-70 | a JSON string reader (section 7 of RFC 8259) gives every quote back |
| QuoteEncoding.EmptyLinesGo | nanobot/runtime_context.py:56-61 | empty lines are left out of a wrapped block, and without any other line there is no block |
| QuoteEncoding.QuoteBlockIsStripped | nanobot/runtime_context.py:56-76 | for any tags and bracket-free lines, the block is the lead, the encoded quote and the advice between one opening and one closing marker, and stripping after appending it to tag-free text gives the text trimmed |
| QuoteEncoding.SourceQuoteIsStripped | nanobot/runtime_context.py:64-76 | the same for the program's own tags and lines, on every quote: one marker each, and the appending undone |
| SqlLiterals.ReplacementsEscape | nanobot/dbq_admin.py:197-197 | the two whole-string replacements are per-character escaping |
| SqlLiterals.QuotedReadsBack | nanobot/dbq_admin.py:197-198 | the printed text is read back exactly if and only if no further quote follows the literal |
| SqlLiterals.LiteralReadsBack | nanobot/dbq_admin.py:190-198 | the reader consumes exactly the printed literal and returns the stored value |
| SqlLiterals.OnlyNegativesAreSigned | nanobot/dbq_admin.py:190-196 | exactly the negative numbers are printed with a sign, and behind it their absolute value |
| SqlLiterals.RowWhereParsesBack | nanobot/dbq_admin.py:564-570 | printing succeeds exactly for a non-empty key whose columns are given and valid, and the conjunction parses back to the same columns and values |
| SqlLiterals.WhereJoins | nanobot/dbq_admin.py:564-570 | one column is its quoted name, an equals sign and the literal; the texts of several are joined by ` AND ` in order |
| SqlLiterals.IdentifierIff | nanobot/dbq_admin.py:171-187 | a column name is a letter or underscore followed by at most sixty-three letters, underscores or digits |
| SqlLiterals.RefusedWhere | nanobot/dbq_admin.py:564-569 | an empty key is refused first, and then missing columns, which are all reported |
| PaymentLedger.PartialAddCompensates | nanobot/dbq_admin.py:1072-1075 | whatever part of the new rows was written, the compensating deletes leave what they would have left before |
| PaymentLedger.FailedAddRestoresIff | nanobot/dbq_admin.py:1055-1078 | a failed add leaves the ledger exactly as it was if and only if it was refused, or its main row was not written, or a later insert was lost and no old line carries its references; losing a verification read alone leaves the rows |
| PaymentLedger.FailedAddCanChangeTheLedger | nanobot/dbq_admin.py:1055-1078 | two concrete failed adds: one leaves its rows, the other takes an old line along |
| PaymentLedger.AddKeepsSound | nanobot/dbq_admin.py:997-1078 | whatever is lost after the main row, an add keeps every payment equal to its lines: with every insert reported written the new payment is there with all its lines, even if a verification read is lost, and otherwise the ledger is as it was |
| PaymentLedger.AcceptedAddWritesTheRequest | nanobot/dbq_admin.py:1045-1068 | after an add without an error the old rows are followed by one payment with the registration, session, semester, transaction, RRR, receipt, amount, pay item and fee code of the request, status Full and response 01, and by one line for each folio and amount in order |
| PaymentLedger.AddSucceedsIff | nanobot/dbq_admin.py:997-1078 | an add succeeds exactly when every field is given and valid, the lines add up to the amount, the student matches, no payment shares its transaction, RRR or receipt, and every statement is reported done |
| PaymentLedger.CheckedAddLeaves | nanobot/dbq_admin.py:1055-1078 | what a checked add leaves for every pattern of lost statements: all its rows, at most its payment, or the old payments and the old lines without its references |
| PaymentLedger.SecondAddIsRefused | nanobot/dbq_admin.py:1035-1041 | after an accepted add every later one with its transaction, RRR or receipt is refused and changes nothing, as a duplicate if complete |
| PaymentLedger.RacingAddsBalanceIff | nanobot/dbq_admin.py:1036-1068 | two adds checked on the same ledger and then both written keep every payment equal to its lines if and only if their links differ or both amounts are zero |
| PaymentLedger.NewPaymentIsFound | nanobot/dbq_admin.py:957-961 | the verification of a written payment finds exactly that payment |
| PaymentLedger.AcceptedMainEditBalances | nanobot/dbq_admin.py:1163-1179 | from any ledger, an accepted new amount of a payment equals the sum of its lines |
| PaymentLedger.AcceptedDetailEditMatches | nanobot/dbq_admin.py:1167-1179 | from any ledger, an accepted new amount of a line makes its group equal to the first payment with its references, or to minus one when there is none |
| PaymentLedger.AcceptedDetailEditBalancesIff | nanobot/dbq_admin.py:1167-1179 | a payment the line belongs to ends balanced if and only if its amount is that of the first payment with its references |
| PaymentLedger.AcceptedDetailEditBalances | nanobot/dbq_admin.py:1167-1179 | so it ends balanced when the payments with its references have one amount |
| PaymentLedger.AcceptedEditCanUnbalance | nanobot/dbq_admin.py:1167-1179 | a concrete ledger with two sessions in which an accepted edit unbalances a balanced payment |
| PaymentLedger.SoundEditsKeepAmounts | nanobot/dbq_admin.py:1163-1177 | in a balanced ledger an accepted amount edit can only repeat the amount |
| PaymentLedger.EditKeepsSound | nanobot/dbq_admin.py:1145-1184 | edits that leave the link columns alone keep every payment balanced, whatever statement is lost |
| PaymentLedger.AcceptedEditSetsItsColumns | nanobot/dbq_admin.py:1145-1184 | an accepted edit sets exactly the columns given in the one row with the id |
| PaymentLedger.EditIsRefusedIff | nanobot/dbq_admin.py:1115-1162 | an edit passes its checks exactly when the id is in range, operator and reference have a valid length, something changes, every column is editable in that table, and an amount is no less than zero and confirmed |
| PaymentLedger.EditSucceedsIff | nanobot/dbq_admin.py:1145-1184 | with distinct ids an edit succeeds exactly when it passes its checks, its row exists, a new amount fits the other table, and every statement it sends is reported done |
| PaymentLedger.EditLeaves | nanobot/dbq_admin.py:1156-1184 | a refused edit, one that loses a read, and one whose update is not applied change nothing; every other edit takes its full effect, whatever is lost after it |
| PaymentLedger.ReconcileAgrees | nanobot/dbq_admin.py:1187-1208 | reconciling touches one payment and its lines, keeps all others, and makes payment and lines agree on the pay item and the amount |
| PaymentLedger.ReconcileKeepsAmounts | nanobot/dbq_admin.py:1187-1208 | whatever statement is lost, reconciling changes fee codes and pay items only |
| PaymentLedger.ReconcileKeepsSound | nanobot/dbq_admin.py:1187-1208 | reconciling keeps every payment balanced, also when only the first of its two updates is applied |
| PaymentLedger.ReconcileSucceedsIff | nanobot/dbq_admin.py:1187-1212 | a reconciliation succeeds exactly when all fields are given, exactly one payment is meant, it is complete and balanced, and every statement is reported done |
| PaymentLedger.ReconcileLeaves | nanobot/dbq_admin.py:1187-1212 | the ledger ends unchanged, with the first update, or with both, as far as the statements were applied |
| PaymentLedger.RunKeepsSound | nanobot/dbq_admin.py:997-1208 | in every run of adds, edits and reconciliations with lost statements each payment equals the sum of its lines, no line is orphaned, and ids and transactions stay unique |
| PaymentLedger.RunTakesEachOperation | nanobot/dbq_admin.py:997-1212 | a run takes each operation on the ledger the one before left |
| PaymentLedger.CountersFollowInserts | nanobot/dbq_admin.py:1045-1068 | the id counters move once for every insert that is sent and applied, whatever is reported and compensated |
| PaymentDatabase.Database.CheckLines | nanobot/dbq_admin.py:1014-1020 | the loop accepts exactly valid lines and adds up their amounts |
| PaymentDatabase.Database.InsertDetails | nanobot/dbq_admin.py:1059-1068 | the rows of exactly the lines up to the first lost statement are written |
| PaymentDatabase.Database.WritePayment | nanobot/dbq_admin.py:1055-1076 | statement by statement, with compensation only after the main row is in, the ledger ends as the model says |
| PaymentDatabase.Database.VerifyPayment | nanobot/dbq_admin.py:957-962 | one read, and a second one for a single row only: the verification fails exactly when one of those it sends is lost |
| PaymentDatabase.Database.PaymentAdd | nanobot/dbq_admin.py:997-1078 | checks in order, statements one by one and the verification at the end have the outcome of the model, counters included |
| PaymentDatabase.Database.PaymentUpdate | nanobot/dbq_admin.py:1145-1184 | the guarded update has the outcome of the model, whatever statement is lost |
| PaymentDatabase.Database.PaymentReconcile | nanobot/dbq_admin.py:1187-1212 | the two updates and the verification have the outcome of the model, whatever statement is lost |
| AutomationTurns.RunsAgree | nanobot/agent/automation_turns.py:61-127 | in every interleaving both tables hold exactly the live calls with one call per id, no empty queue is stored, queued turns carry their session, and per session released turns followed by the queue are the deferred turns in order |
| AutomationTurns.SharedRunsAgree | nanobot/agent/loop.py:449-464 | the same for any number of coordinators on one set of queues: each one's tables are those of a run of its own steps, and the queues they all fill stay in order |
| AutomationTurns.EndKeepsTables | nanobot/agent/automation_turns.py:86-88 | the cleanup of a call removes its own entries, never another call's |
| AutomationTurns.RefusedSubmitChangesNothing | nanobot/agent/automation_turns.py:63-67 | in every reachable state a submit is refused exactly when it has no id or a live call holds it, and then nothing changes |
| AutomationTurns.AcceptedSubmitIsTabled | nanobot/agent/automation_turns.py:68-77 | an accepted submit enters its message and a new future under its id, and hands the message to the bus or dispatches it |
| AutomationTurns.RunsAdvance | nanobot/agent/automation_turns.py:109-127 | over every run a settled future and a delivered outcome never change again |
| AutomationTurns.CallsAreExplained | nanobot/agent/automation_turns.py:61-127 | every call has a beginning, and every answer is the first completion of its turn after that |
| AutomationTurns.OutcomesAreExplained | nanobot/agent/automation_turns.py:73-88 | every submit ends with the response of the first completion of its turn, or with its error, wrapped in a turn error where it is a cancellation or another exception; or with the failure of its hand-over; or with its own cancellation |
| AutomationTurns.ReturnsItsFirstCompletion | nanobot/agent/automation_turns.py:79-85 | a submit that returns has a first completion without an error, and returns its response |
| AutomationTurns.CompletionReachesItsWaiter | nanobot/agent/automation_turns.py:73-127 | a completion reaches the live call of its turn, whether it awaits the answer or is still handing its message over, and no other call: without an error the call returns the response, with one it raises that error or a turn error with its text; the turn id is free afterwards |
| AutomationTurns.FailedHandOverIsRaised | nanobot/agent/automation_turns.py:73-88 | a failed hand-over ends its call with that error, frees its id and touches no other call |
| AutomationTurns.CancelledWaiterIsRaised | nanobot/agent/automation_turns.py:78-88 | a waiter that is cancelled and resumed ends with the cancellation, whatever its future holds, and frees its id |
| AutomationTurns.HandedOverCallWaits | nanobot/agent/automation_turns.py:73-78 | a message handed over before its turn completes leaves the call waiting and nothing else changed |
| AutomationTurns.DeferKeepsQueues | nanobot/agent/automation_turns.py:90-107 | deferring appends to one session's queue under that session's key |
| AutomationTurns.DeferredTurnIsTheMessage | nanobot/agent/automation_turns.py:90-107 | what is queued is the message itself, with the session key overridden only where its own differs; all other queues stay |
| AutomationTurns.PublishNextKeepsQueues | nanobot/agent/automation_turns.py:16-30 | releasing takes the oldest turn and never leaves an empty queue |
| AutomationTurns.Settled | nanobot/agent/automation_turns.py:122-127 | a completion always settles the future: with the response, or with an exception that is never a cancellation |
| AutomationTurns.AutomationTurnCoordinator.Submit | nanobot/agent/automation_turns.py:61-78 | the method takes the begin step, or refuses and changes nothing |
| AutomationTurns.AutomationTurnCoordinator.Finish | nanobot/agent/automation_turns.py:86-88 | both entries go and the outcome is kept |
| AutomationTurns.AutomationTurnCoordinator.WakeWaiter | nanobot/agent/automation_turns.py:78-88 | resuming delivers the answer or wraps the error, and cleans up |
| AutomationTurns.AutomationTurnCoordinator.constructor | nanobot/agent/automation_turns.py:57-59 | the queues are those handed in, or new empty ones |
| AutomationTurns.AutomationTurnCoordinator.DeferIfActive | nanobot/agent/automation_turns.py:90-107 | the method takes the defer step on the shared queues when the policy says so and nothing otherwise |
| AutomationTurns.PublishNextDeferredTurn | nanobot/agent/automation_turns.py:16-30 | the method releases the head of the shared queue and drops an emptied queue |
| AutomationTurns.AutomationTurnCoordinator.CompleteTurn | nanobot/agent/automation_turns.py:109-127 | the method takes the completion step, which ignores unknown and settled turns |
| AutomationTurns.AutomationTurnCoordinator.PendingIdsForSession | nanobot/agent/automation_turns.py:129-142 | exactly the ids of the session's queued turns and of its live calls |
| AtlasSchema.EveryTableIsListedOnce | atlas-web/convex/schema.ts:30-403 | of the schema's tables exactly those with a `userId` are in the purge order, each once |
| AtlasSchema.UserIndexIsKeyed | atlas-web/convex/privacy.ts:17-40 | the index a purge reads a table through is one of the table's own and begins with `userId` |
| PrivacyPurge.DropFirstTakes | atlas-web/convex/privacy.ts:68-72 | deleting the first rows of a user takes exactly those and nobody else's |
| PrivacyPurge.OwnersSplit | atlas-web/convex/privacy.ts:68-70 | rows are told apart one by one, by their `userId`, in order |
| PrivacyPurge.BatchEndsIff | atlas-web/convex/privacy.ts:64-77 | a batch is the last one exactly when fewer rows were left than its budget |
| PrivacyPurge.BatchDeletes | atlas-web/convex/privacy.ts:64-77 | a batch deletes exactly as many rows as its budget allows |
| PrivacyPurge.BatchFiles | atlas-web/convex/privacy.ts:55-72 | files deleted and files still owed make up the files owed before the batch |
| PrivacyPurge.PurgeTakes | atlas-web/convex/privacy.ts:79-96 | a purge of n rows takes exactly floor(n / 200) + 1 transactions |
| PrivacyPurge.PurgeClears | atlas-web/convex/privacy.ts:64-96 | none of the user's eligible rows is left, kept tables gain only the audit event, other users' rows stay in order, and exactly the deleted rows' files are gone |
| PrivacyPurge.PurgeLeavesLedgerAndTrail | atlas-web/convex/privacy.ts:47-96 | a content wipe keeps AI usage and the audit trail, which gains one event, and nothing else of the user; an account purge keeps neither |
| PrivacyPurge.PurgeUsers | atlas-web/convex/privacy.ts:89-94 | the account goes with an account purge only, and no other user changes |
| PrivacyPurge.PurgeStore.DeleteUserRows | atlas-web/convex/privacy.ts:68-72 | deleting row by row, each by its id, trims the user's first rows and their files |
| PrivacyPurge.PurgeStore.PurgeBatch | atlas-web/convex/privacy.ts:64-77 | the loop over tables with its shrinking budget computes one batch |
| PrivacyPurge.PurgeStore.PurgeUserData | atlas-web/convex/privacy.ts:79-96 | one transaction takes one step of the purge and says whether it rescheduled itself |
| RecordScan.ScanKeepsUnique | atlas-web/convex/sources.ts:412-442 | a scan keeps one row per message and per merchant and cadence |
| RecordScan.StaleRowsArePruned | atlas-web/convex/sources.ts:405-409 | a row stays exactly when it is behind the first thousand, older than ninety days, or found again |
| RecordScan.StoredFinding | atlas-web/convex/sources.ts:410-418 | a stored finding is its old row patched, field by field, with the last finding of its message that has the field |
| RecordScan.FindingIsRecorded | atlas-web/convex/sources.ts:411-417 | each field of a finding lands in its own column, an absent one keeps what was stored, and the rows of other messages stay |
| RecordScan.StoredCharge | atlas-web/convex/sources.ts:419-440 | a stored charge is the newest of the old one and the findings, untouched when nothing is strictly newer |
| RecordScan.ChargeIsRecorded | atlas-web/convex/sources.ts:418-440 | a recurring charge with an amount and a cadence is stored under its merchant and cadence, active when new, field by field when strictly newer, with the change of the amount if there is one; otherwise nothing changes |
| RecordScan.OrderDoesNotMatter | atlas-web/convex/sources.ts:419-440 | for distinct times the base fields of the stored charge do not depend on the order of the findings |
| RecordScan.OrderDoesNotMatterIff | atlas-web/convex/sources.ts:419-440 | for distinct times the whole stored charge, price change included, is the same in every order if and only if each finding newer than the stored charge has the newest one's amount or would record the change the newest one records by itself |
| RecordScan.OrderCanChangeThePrice | atlas-web/convex/sources.ts:419-440 | two concrete findings whose order decides whether a price change is recorded |
| RecordScan.SuggestionsStay | atlas-web/convex/sources.ts:441-457 | suggestions are added once per clothing message and never overwritten |
| RecordScan.SuggestionIsRecorded | atlas-web/convex/sources.ts:441-455 | a clothing message without a suggestion gets one with the merchant, snippet, amount and currency of its finding |
| RecordScan.RescanOfFindings | atlas-web/convex/sources.ts:405-418 | recording again changes the findings exactly when a stale row from behind the first thousand moved within reach |
| RecordScan.RescanChangesNothing | atlas-web/convex/sources.ts:395-457 | recording the same scan again, now or later, changes no table if and only if no such row moved up; with at most a thousand rows it never does |
| RecordScan.RescanCanChange | atlas-web/convex/sources.ts:407-409 | a concrete store of 1,001 rows in which repeating an empty scan changes the findings |
| RecordScan.ScanStore.DeleteStale | atlas-web/convex/sources.ts:407-409 | the loop deletes exactly the stale rows among the first thousand |
| RecordScan.ScanStore.RecordCharge | atlas-web/convex/sources.ts:418-440 | one finding inserts, moves on or leaves the charge as the model says |
| RecordScan.ScanStore.RecordScan | atlas-web/convex/sources.ts:396-457 | the loop computes the scan, and its two counters count the rows really inserted |
| WearLedger.Unique | atlas-web/convex/items.ts:196-196 | repetitions are dropped and nothing else |
| WearLedger.UniqueKeepsOrder | atlas-web/convex/items.ts:196-196 | each id stays at its first place |
| WearLedger.WearAllCounts | atlas-web/convex/items.ts:197-200 | wearing succeeds exactly when all pieces are the user's, and counts each once |
| WearLedger.RemoveAllRemoves | atlas-web/convex/items.ts:170-175 | removing succeeds exactly when the ids are distinct and all the user's |
| WearLedger.RemovalIsExact | atlas-web/convex/items.ts:155-181 | the first two hundred ids must be distinct and the user's; then exactly these pieces go, and leave the user's first thousand outfits |
| WearLedger.AccessoriesSplit | atlas-web/convex/items.ts:155-161 | accessories are dropped one by one, and the rest keeps its order |
| WearLedger.MarkWornSucceedsIff | atlas-web/convex/items.ts:187-209 | a wear is logged exactly when the key is new and everything named is the user's; otherwise nothing changes |
| WearLedger.WearIsLoggedIff | atlas-web/convex/items.ts:187-206 | the same in terms of the arguments: the key cut to 120 characters, the first twelve different pieces, and an outfit of the user, which counts one wear more |
| WearLedger.WornPiecesGoToTheLaundry | atlas-web/convex/items.ts:195-206 | a logged wear appends one event with the outfit, the time and the key cut to 120 characters, and exactly its pieces get one wear more, the time, and the laundry state worn |
| WearLedger.OnePieceIsEdited | atlas-web/convex/items.ts:104-152 | an edit of one piece succeeds exactly when it is the user's and the edit is valid, sets the columns of that edit in it, and touches nothing else |
| WearLedger.EditsFollowOneAnother | atlas-web/convex/items.ts:127-152 | an edit of several pieces is one edit after another, and the first that fails fails all |
| WearLedger.BulkEditIsCapped | atlas-web/convex/items.ts:127-152 | only the first two hundred ids are looked at, and a failure changes nothing |
| WearLedger.PipelineEditsOnePiece | atlas-web/convex/uploads.ts:246-282 | the pipeline edits the one piece it names and ignores a deleted one |
| WearLedger.StepKeepsCounts | atlas-web/convex/items.ts:86-239 | every mutation of pieces and outfits keeps the counters equal to the log |
| WearLedger.RunKeepsCounts | atlas-web/convex/items.ts:187-209 | in every reachable state each counter is the number of events naming its piece or outfit, a key has at most one event per user, and events name at most twelve different pieces of their user |
| WearLedger.InsertsKeepCounts | atlas-web/convex/uploads.ts:194-210 | new pieces start unworn under ids no event ever named |
| WearLedger.NewPieceIsFresh | atlas-web/convex/uploads.ts:194-210 | a new piece belongs to the user, is clean and unworn, and carries the attributes it was found with |
| WearLedger.InsertsFollowOneAnother | atlas-web/convex/uploads.ts:194-210 | several pieces are inserted one after another |
| WearLedger.NewOutfitKeepsCounts | atlas-web/convex/outfits.ts:57-67 | so do new outfits |
| WearLedger.NewOutfitIsAsGiven | atlas-web/convex/outfits.ts:53-70 | a new outfit needs valid slots, gets a new id and is stored as given, unworn |
| WearLedger.OutfitEditSucceedsIff | atlas-web/convex/outfits.ts:76-98 | an edit succeeds exactly for the owner, and with new slots only when they are valid |
| WearLedger.OutfitIsEdited | atlas-web/convex/outfits.ts:76-98 | an accepted edit changes the name, slots or saved time of the one outfit, and nothing else |
| WearLedger.UnsavedProposalsGo | atlas-web/convex/stylist.ts:90-93 | when a thread goes, an outfit stays exactly when it is of another thread, behind the read cap, or saved |
| WearLedger.ThreadTakesItsProposals | atlas-web/convex/stylist.ts:84-97 | the same for the mutation, with its cap of five hundred |
| WearLedger.OutfitIsRemovedIff | atlas-web/convex/outfits.ts:101-116 | an outfit is deleted exactly for its owner and while no try-on is pending, and alone |
| WearLedger.RetriesCountOnce | atlas-web/convex/items.ts:192-194 | once a key was accepted, every retry with it is a duplicate that changes nothing, whatever happened in between |
| WearLedger.StrippingIsExact | atlas-web/convex/items.ts:155-161 | stripping takes exactly the removed pieces out of an outfit, each out of its own slot, and dates it only when something went |
| WearLedger.StripReachesAll | atlas-web/convex/items.ts:155-161 | an outfit is stripped exactly when it is the user's and fewer of the user's than the read cap precede it; all others stay |
| WearLedger.WearStore.MarkItemsWorn | atlas-web/convex/items.ts:187-209 | the method computes the step, and a failure part way rolls everything back |
| WearLedger.WearStore.RemoveMany | atlas-web/convex/items.ts:164-181 | the same for removing pieces, with the stripping of outfits |
| WearLedger.WearStore.StripFromOutfits | atlas-web/convex/items.ts:155-161 | the loop strips the user's first outfits up to the read cap |
| WearLedger.WearStore.EditMany | atlas-web/convex/items.ts:127-152 | the bulk edits check ownership piece by piece and roll back on the first failure |
| WearLedger.WearStore.InsertMany | atlas-web/convex/uploads.ts:194-210 | the insert loop gives each piece a new id |

## Left out

- Token estimates, result persistence, truncation, the informative-line and exit-code helpers are function-valued
  parameters of `BudgetPasses.Config`; only that estimates are natural numbers is used.
- The compaction notice is a parameter as well; `SourceNoticesAreShort` shows that the program's own text meets the
  one bound that is used.
- A missing `tool_calls` key and an empty list are one value, and so are a missing and a falsy `tool_call_id`; the
  code never tells them apart. The fields no pass looks at are one opaque field.
- The compaction target `int(budget * 0.85)` is `budget * 85 / 100` in integers.
- Logging, and the identity of a returned list with its input when nothing changes, are not modelled.
- Requirements come parsed, and marker evaluation, version matching and name normalisation are parameters; a marker
  sees its extra in normalised form.
- `normalize_webui_quote` is not claimed to be idempotent: it truncates after trimming.
- A marker of an earlier message that a merge leaves in place is not tracked further.
- SqlLiterals.LiteralReadsBack: floats and decimals are not modelled, and the reader is MySQL's with backslash
  escapes enabled.
- Amounts are integer cents; a value that is no decimal is a separate case. Text comparison in the database is exact
  comparison, and aggregates and deletes are applied as single operations.
- PaymentLedger.AddKeepsSound: assumes that the main insert is not applied while reported lost; `FailedAddRestoresIff`
  covers that case. The compensating deletes are taken to succeed.
- PaymentLedger.RunKeepsSound: edits of `session`, `rrr` and `trans_id` and the generic row statements bypass the
  balance checks and are outside the runs, and so is a main insert that is applied while reported lost. Operations
  follow one another: statements of several operations in turn, which the gateway allows, are outside the runs;
  `RacingAddsBalanceIff` covers two adds whose checks come first. Audit rows,
  read-backs and verifications are statements that can be lost; what they contain is not modelled.
- Futures and tasks of the event loop are numbered records in one list instead of heap objects. A cancellation while
  the message is being handed over counts as a failed hand-over.
- AutomationTurns.SharedRunsAgree: the shared queues start empty, as the program creates them.
- PrivacyPurge.PurgeTakes: assumes that no rows are inserted between the transactions. A table is listed in the order
  of its user index; which of a user's rows come first in it plays no part.
- Failures of the file store other than a file that is gone already are not modelled.
- RecordScan holds one user's rows; case folding and the yearly amount are parameters, and amounts are integers. The
  job, the connection, the notification and the audit entry written at the end are left out.
- `JSON.stringify` also sees the order of keys, so the code may touch `updatedAt` of an outfit whose slots did not
  change; in the model it stays.
- The verdicts of the slot check and of a running try-on, and whether a source photo is still there, are parameters
  of the mutations in WearLedger; signals and audit entries are left out.
- WearLedger.RunKeepsCounts: a data wipe deletes events and pieces in batches and is outside these runs.
- Network, OAuth, encryption, subprocess and user interface code, approvals, rate limits, configuration migration and
  the table classifiers would only add easy members or are not about state.

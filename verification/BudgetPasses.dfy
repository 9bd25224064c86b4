/**
 The passes that shorten a history: ageing and normalising tool results, compacting in-flight
 results and cutting a prefix. Token estimators, the persistence of large results and the
 line classifiers are parameters of the configuration.
 */
module BudgetPasses {
  import opened Text
  import opened Messages

  const SNIP_SAFETY_BUFFER := 1024
  const MICROCOMPACT_MIN_CHARS := 500
  const RECENT_TOOL_RESULTS_KEPT := 6
  const STUB_MAX_CHARS := 220

  predicate IsCompactableTool(name: string) {
    || name == "read_file" || name == "exec" || name == "grep" || name == "find_files"
    || name == "web_search" || name == "web_fetch" || name == "list_dir" || name == "list_exec_sessions"
  }

  predicate IsOffloadExempt(name: string) {
    name == "read_file"
  }

  datatype Config = Config(
    promptTokens: seq<Message> -> nat,
    messageTokens: Message -> nat,
    ensureNonempty: (string, Content) -> Content,
    persist: (string, Content) -> Option<Content>,
    truncate: (string, int) -> string,
    informativeLines: string -> seq<string>,
    lineCount: string -> string,
    exitCode: string -> Option<string>,
    notice: Message -> string,
    window: Option<int>,
    blockLimit: Option<int>,
    maxTokens: Option<int>,
    providerMaxTokens: Option<int>,
    maxResultChars: int,
    inflightStart: int)

  function InputBudget(config: Config): (budget: nat)
    ensures config.window == None || config.window == Some(0) ==> budget == 0
  {
    if config.window == None || config.window == Some(0) then 0
    else
      var maxOutput := match config.maxTokens
        case Some(n) => n
        case None => (match config.providerMaxTokens case Some(n) => n case None => 4096);
      var budget := if config.blockLimit.Some? && config.blockLimit.value != 0 then config.blockLimit.value
                    else config.window.value - maxOutput - SNIP_SAFETY_BUFFER;
      if budget > 0 then budget else 0
  }

  // ----- Ageing and normalising tool results -----

  function ToolCount(ms: seq<Message>): nat {
    if ms == [] then 0
    else ToolCount(ms[..|ms| - 1]) + (if ms[|ms| - 1].role.Tool? then 1 else 0)
  }

  /** A tool result has aged out once six or more tool results follow it. */
  predicate AgedOut(ms: seq<Message>, i: nat)
    requires i < |ms|
  {
    ms[i].role.Tool? && ToolCount(ms) - ToolCount(ms[..i + 1]) >= RECENT_TOOL_RESULTS_KEPT
  }

  function FlatText(parts: seq<Part>): Option<string> {
    if forall p :: p in parts ==> p.TextPart? then
      Some(Join(seq(|parts|, i requires 0 <= i < |parts| && parts[i] in parts => parts[i].text), "\n"))
    else None
  }

  /** The one-line verdict an old result decays to, or None when it is short or not text. */
  function DecayStub(config: Config, content: Content): (stub: Option<string>)
    ensures stub.Some? ==> |stub.value| <= STUB_MAX_CHARS
  {
    var flat := match content
      case Str(text) => Some(text)
      case Parts(parts) => FlatText(parts)
      case _ => None;
    if flat.None? || |flat.value| <= STUB_MAX_CHARS then None
    else
      var text := flat.value;
      var meaningful := config.informativeLines(text);
      var picked := if meaningful == [] then [config.lineCount(text) + " line(s)"]
                    else if |meaningful| == 1 then [meaningful[0]]
                    else [meaningful[0], meaningful[|meaningful| - 1]];
      var keep := (match config.exitCode(text) case Some(code) => ["exit=" + code] case None => []) + picked;
      var stub := "[earlier result, condensed] " + Join(keep, " | ");
      Some(if |stub| > STUB_MAX_CHARS then stub[..STUB_MAX_CHARS] else stub)
  }

  function NormalizeResult(config: Config, callId: string, toolName: string, result: Content): Content {
    var filled := config.ensureNonempty(toolName, result);
    if IsOffloadExempt(toolName) then filled
    else
      var content := match config.persist(callId, filled) case Some(c) => c case None => filled;
      if content.Str? && |content.text| > config.maxResultChars
          then Str(config.truncate(content.text, config.maxResultChars))
      else content
  }

  function ToolNameOrDefault(m: Message): string {
    if m.name.Some? && m.name.value != "" then m.name.value else "tool"
  }

  /** The content of the message at position `i` after the pass. */
  function BudgetedContent(config: Config, aged: bool, i: nat, m: Message): Content {
    if !m.role.Tool? then m.content
    else if aged then
      match DecayStub(config, m.content) case Some(stub) => Str(stub) case None => m.content
    else
      NormalizeResult(config, if m.callId != "" then m.callId else "tool_" + Digits(i), ToolNameOrDefault(m), m.content)
  }

  function Budgeted(config: Config, ms: seq<Message>): (r: seq<Message>)
    ensures |r| == |ms|
    ensures forall i :: 0 <= i < |ms| ==> r[i] == ms[i].(content := BudgetedContent(config, AgedOut(ms, i), i, ms[i]))
  {
    seq(|ms|, i requires 0 <= i < |ms| => ms[i].(content := BudgetedContent(config, AgedOut(ms, i), i, ms[i])))
  }

  /** Ageing never lengthens a result: every text that decays was longer than its stub. */
  lemma DecayShortens(config: Config, text: string)
    requires DecayStub(config, Str(text)).Some?
    ensures |DecayStub(config, Str(text)).value| <= STUB_MAX_CHARS < |text|
  {}

  lemma BudgetedSkeleton(config: Config, ms: seq<Message>)
    ensures SameSkeleton(ms, Budgeted(config, ms))
  {}

  // ----- What happens to one result -----

  /** The tool results behind position `i`. */
  ghost function LaterResults(ms: seq<Message>, i: nat): set<int> {
    set j | i < j < |ms| && ms[j].role.Tool?
  }

  lemma {:induction false} LaterResultsAreCounted(ms: seq<Message>, i: nat)
    requires i < |ms|
    ensures ToolCount(ms) - ToolCount(ms[..i + 1]) == |LaterResults(ms, i)|
  {
    hide LaterResults;
    if i == |ms| - 1 {
      assert ms[..i + 1] == ms;
      NothingIsLater(ms);
    } else {
      var init := ms[..|ms| - 1];
      LaterResultsAreCounted(init, i);
      assert init[..i + 1] == ms[..i + 1];
      OneMoreIsLater(ms, i);
    }
  }

  lemma NothingIsLater(ms: seq<Message>)
    requires ms != []
    ensures |LaterResults(ms, |ms| - 1)| == 0
  {
    assert LaterResults(ms, |ms| - 1) == {};
  }

  lemma OneMoreIsLater(ms: seq<Message>, i: nat)
    requires i < |ms| - 1
    ensures |LaterResults(ms, i)| == |LaterResults(ms[..|ms| - 1], i)| + (if ms[|ms| - 1].role.Tool? then 1 else 0)
  {
    var init, n := ms[..|ms| - 1], |ms| - 1;
    assert LaterResults(ms, i) == LaterResults(init, i) + if ms[n].role.Tool? then {n} else {};
  }

  /**
   A recent result: filled when empty, `read_file` untouched otherwise; what another tool gave goes
   through persistence and is truncated when it is a text over the limit.
   */
  ghost predicate IsNormalized(config: Config, i: nat, before: Message, after: Message) {
    var name := if before.name.Some? && before.name.value != "" then before.name.value else "tool";
    var filled := config.ensureNonempty(name, before.content);
    var stored := config.persist(if before.callId == "" then "tool_" + Digits(i) else before.callId, filled);
    var kept := if stored.Some? then stored.value else filled;
    && after == before.(content := after.content)
    && (name == "read_file" ==> after.content == filled)
    && (name != "read_file" ==>
          if kept.Str? && |kept.text| > config.maxResultChars
          then after.content == Str(config.truncate(kept.text, config.maxResultChars))
          else after.content == kept)
  }

  const STUB_LEAD := "[earlier result, condensed] "

  /** The exit code, if the text has one, and the first and the last informative line, or the number of lines. */
  ghost function Verdict(config: Config, text: string): string {
    var lines := config.informativeLines(text);
    (match config.exitCode(text) case Some(code) => "exit=" + code + " | " case None => "") +
    (if lines == [] then config.lineCount(text) + " line(s)"
     else if |lines| == 1 then lines[0]
     else lines[0] + " | " + lines[|lines| - 1])
  }

  /** A text of at most 220 characters stays; a longer one becomes the lead and its verdict, cut at 220. */
  ghost predicate IsDecayed(config: Config, text: string, before: Content, after: Content) {
    if |text| <= 220 then after == before
    else
      && after.Str? && STUB_LEAD <= after.text
      && after.text <= STUB_LEAD + Verdict(config, text)
      && |after.text| == Min(220, |STUB_LEAD + Verdict(config, text)|)
  }

  /** An old result: text and lists of text parts decay, anything else stays. */
  ghost predicate IsCondensed(config: Config, before: Message, after: Message) {
    && after == before.(content := after.content)
    && match before.content
       case Str(text) => IsDecayed(config, text, before.content, after.content)
       case Parts(parts) =>
         if exists p :: p in parts && p.OtherPart? then after == before
         else FlatText(parts).Some? && IsDecayed(config, FlatText(parts).value, before.content, after.content)
       case _ => after == before
  }

  lemma TextsOf(parts: seq<Part>, texts: seq<string>)
    requires |parts| == |texts| && forall i :: 0 <= i < |parts| ==> parts[i] == TextPart(texts[i])
    ensures FlatText(parts) == Some(Join(texts, "\n"))
  {
    assert seq(|parts|, i requires 0 <= i < |parts| && parts[i] in parts => parts[i].text) == texts;
  }

  lemma FlatTextOfTwo(a: string, b: string)
    ensures FlatText([TextPart(a)]) == Some(a) && FlatText([TextPart(a), TextPart(b)]) == Some(a + "\n" + b)
  {
    TextsOf([TextPart(a)], [a]);
    TextsOf([TextPart(a), TextPart(b)], [a, b]);
    assert [a, b][1..] == [b];
  }

  lemma JoinUpToThree(a: string, b: string, c: string)
    ensures Join([a], " | ") == a
    ensures Join([a, b], " | ") == a + " | " + b
    ensures Join([a, b, c], " | ") == a + " | " + b + " | " + c
  {
    assert [a, b][1..] == [b] && [a, b, c][1..] == [b, c] && [b, c][1..] == [c];
    assert Join([b, c], " | ") == b + " | " + c;
    assert Join([a, b, c], " | ") == a + " | " + Join([b, c], " | ");
    assert a + " | " + (b + " | " + c) == a + " | " + b + " | " + c;
  }

  lemma VerdictJoins(config: Config, text: string, code: string, first: string, last: string)
    requires var lines := config.informativeLines(text);
             && (config.exitCode(text).Some? ==> code == "exit=" + config.exitCode(text).value)
             && first == (if lines == [] then config.lineCount(text) + " line(s)" else lines[0])
             && (lines != [] ==> last == lines[|lines| - 1])
    ensures var lines := config.informativeLines(text);
            var picked := if |lines| < 2 then [first] else [first, last];
            Join((if config.exitCode(text).Some? then [code] else []) + picked, " | ") == Verdict(config, text)
  {
    hide Join;
    JoinUpToThree(code, first, last);
    JoinUpToThree(first, last, "");
    assert [code] + [first] == [code, first] && [code] + [first, last] == [code, first, last];
    assert [] + [first] == [first] && [] + [first, last] == [first, last];
    assert code + " | " + first + " | " + last == code + " | " + (first + " | " + last);
  }

  lemma StubIsLeadAndVerdict(config: Config, content: Content, text: string)
    requires content == Str(text) || (content.Parts? && FlatText(content.parts) == Some(text))
    ensures DecayStub(config, content).None? <==> |text| <= 220
    ensures var full := STUB_LEAD + Verdict(config, text);
            |text| > 220 ==> DecayStub(config, content) == Some(if |full| > 220 then full[..220] else full)
  {
    hide Join, FlatText;
    var lines := config.informativeLines(text);
    var code := match config.exitCode(text) case Some(c) => "exit=" + c case None => "";
    var first := if lines == [] then config.lineCount(text) + " line(s)" else lines[0];
    VerdictJoins(config, text, code, first, if lines == [] then "" else lines[|lines| - 1]);
  }

  lemma CutIsDecayed(config: Config, text: string, before: Content)
    requires |text| > 220
    ensures var full := STUB_LEAD + Verdict(config, text);
            IsDecayed(config, text, before, Str(if |full| > 220 then full[..220] else full))
  {
    hide Verdict;
    assert |STUB_LEAD| == 28;
  }

  lemma DecayCondenses(config: Config, m: Message)
    ensures var stub := DecayStub(config, m.content);
            IsCondensed(config, m, m.(content := if stub.Some? then Str(stub.value) else m.content))
  {
    hide IsDecayed, Verdict, Join;
    if m.content.Str? {
      StubIsLeadAndVerdict(config, m.content, m.content.text);
      DecayedAsText(config, m.content.text, m.content);
    } else if m.content.Parts? && FlatText(m.content.parts).Some? {
      StubIsLeadAndVerdict(config, m.content, FlatText(m.content.parts).value);
      DecayedAsText(config, FlatText(m.content.parts).value, m.content);
    }
  }

  lemma DecayedAsText(config: Config, text: string, before: Content)
    ensures var full := STUB_LEAD + Verdict(config, text);
            if |text| <= 220 then IsDecayed(config, text, before, before)
            else IsDecayed(config, text, before, Str(if |full| > 220 then full[..220] else full))
  {
    if |text| > 220 {
      CutIsDecayed(config, text, before);
    }
  }

  /** Six tool results behind it make a result old; with fewer it is recent. */
  lemma BudgetActsByAge(config: Config, ms: seq<Message>, i: nat)
    requires i < |ms| && ms[i].role.Tool?
    ensures |LaterResults(ms, i)| < 6 ==> IsNormalized(config, i, ms[i], Budgeted(config, ms)[i])
    ensures |LaterResults(ms, i)| >= 6 ==> IsCondensed(config, ms[i], Budgeted(config, ms)[i])
  {
    LaterResultsAreCounted(ms, i);
    DecayCondenses(config, ms[i]);
    hide IsCondensed, DecayStub, ToolCount;
  }

  /** What the window leaves for the prompt: the block limit if there is one, else all but reply and buffer. */
  lemma InputBudgetLeaves(config: Config)
    ensures config.window.None? || config.window == Some(0) ==> InputBudget(config) == 0
    ensures var out := if config.maxTokens.Some? then config.maxTokens.value
                       else if config.providerMaxTokens.Some? then config.providerMaxTokens.value else 4096;
            config.window.Some? && config.window != Some(0) ==>
              if config.blockLimit.Some? && config.blockLimit != Some(0)
              then InputBudget(config) == (if config.blockLimit.value < 0 then 0 else config.blockLimit.value)
              else if config.window.value <= out + 1024 then InputBudget(config) == 0
              else InputBudget(config) + out + 1024 == config.window.value
  {}

  // ----- In-flight compaction -----

  const COMPACTION_ADVICE :=
    " result was compacted to fit context because it was too large. "
    + "Do not repeat the same call unchanged. Retry with a narrower path, query, range, or result limit, "
    + "use another tool, or tell the user the task cannot fit in the available context."

  /** The text a compacted result is replaced by; the code's own notice has `advice == COMPACTION_ADVICE`. */
  function CompactionNotice(advice: string, m: Message): string {
    "Error: The previous " + (if m.name.Some? then m.name.value else "tool") + advice
  }

  ghost predicate NoticesAreShort(notice: Message -> string) {
    forall m: Message :: m.name.Some? && IsCompactableTool(m.name.value) ==> |notice(m)| < MICROCOMPACT_MIN_CHARS
  }

  lemma ShortNotice(advice: string, m: Message)
    requires |advice| == 241 && m.name.Some? && IsCompactableTool(m.name.value)
    ensures |CompactionNotice(advice, m)| < MICROCOMPACT_MIN_CHARS
  {
    assert |m.name.value| <= 18;
  }

  /** A compactable tool has a short name, so its notice is shorter than any result it may replace. */
  lemma SourceNoticesAreShort()
    ensures NoticesAreShort(m => CompactionNotice(COMPACTION_ADVICE, m))
  {
    var advice := COMPACTION_ADVICE;
    assert |advice| == 241;
    forall m: Message | m.name.Some? && IsCompactableTool(m.name.value)
      ensures |CompactionNotice(advice, m)| < MICROCOMPACT_MIN_CHARS
    {
      ShortNotice(advice, m);
    }
  }

  function Compacted(config: Config, m: Message): Message {
    m.(content := Str(config.notice(m)))
  }

  /** Results whose ids were compacted on an earlier request stay compacted. */
  function Recompacted(config: Config, ms: seq<Message>, ids: set<string>): (r: seq<Message>)
    ensures |r| == |ms|
    ensures forall i :: 0 <= i < |ms| ==>
              r[i] == if ms[i].role.Tool? && ms[i].callId != "" && ms[i].callId in ids
                      then Compacted(config, ms[i]) else ms[i]
  {
    seq(|ms|, i requires 0 <= i < |ms| =>
      if ms[i].role.Tool? && ms[i].callId != "" && ms[i].callId in ids then Compacted(config, ms[i]) else ms[i])
  }

  predicate IsCandidate(config: Config, i: int, m: Message, ids: set<string>) {
    && i >= config.inflightStart
    && m.role.Tool? && m.name.Some? && IsCompactableTool(m.name.value)
    && m.callId != "" && m.callId !in ids
    && m.content.Str? && |m.content.text| >= MICROCOMPACT_MIN_CHARS
  }

  /** The positions that may be compacted, oldest first. */
  function Candidates(config: Config, ms: seq<Message>, ids: set<string>): (r: seq<nat>)
    ensures forall k :: 0 <= k < |r| ==> r[k] < |ms| && IsCandidate(config, r[k], ms[r[k]], ids)
    ensures forall j, k :: 0 <= j < k < |r| ==> r[j] < r[k]
  {
    if ms == [] then []
    else
      var r := Candidates(config, ms[..|ms| - 1], ids);
      if IsCandidate(config, |ms| - 1, ms[|ms| - 1], ids) then r + [|ms| - 1] else r
  }

  /** A result compaction may newly rewrite: a long text of one of eight tools, from the current turn on. */
  ghost predicate MayBeCompacted(config: Config, i: nat, m: Message) {
    && i >= config.inflightStart && m.role.Tool? && m.content.Str? && |m.content.text| >= 500
    && m.name.Some? && m.name.value in {"read_file", "exec", "grep", "find_files", "web_search", "web_fetch",
                                        "list_dir", "list_exec_sessions"}
  }

  lemma {:induction false} CandidatesAreAll(config: Config, ms: seq<Message>, ids: set<string>, i: nat)
    requires i < |ms| && MayBeCompacted(config, i, ms[i]) && ms[i].callId != "" && ms[i].callId !in ids
    ensures i in Candidates(config, ms, ids)
  {
    if i < |ms| - 1 {
      CandidatesAreAll(config, ms[..|ms| - 1], ids, i);
    }
  }

  predicate InRange(ms: seq<Message>, positions: seq<nat>) {
    forall k :: 0 <= k < |positions| ==> positions[k] < |ms|
  }

  /** The ids recorded once the first `k` candidates have been visited. */
  function IdsAfter(ms: seq<Message>, candidates: seq<nat>, ids: set<string>, k: nat): set<string>
    requires k <= |candidates| && InRange(ms, candidates)
  {
    ids + set j | 0 <= j < k :: ms[candidates[j]].callId
  }

  /**
   The list once the first `k` candidates have been visited. A candidate whose id an earlier
   candidate shares is passed over.
   */
  function AfterVisits(
      config: Config, ms: seq<Message>, candidates: seq<nat>, ids: set<string>, k: nat): (r: seq<Message>)
    requires k <= |candidates| && InRange(ms, candidates)
    ensures |r| == |ms|
  {
    if k == 0 then ms
    else
      var r := AfterVisits(config, ms, candidates, ids, k - 1);
      var i := candidates[k - 1];
      if ms[i].callId in IdsAfter(ms, candidates, ids, k - 1) then r else r[i := Compacted(config, ms[i])]
  }

  function CompactTarget(budget: nat): (t: nat)
    ensures 100 * t <= 85 * budget < 100 * (t + 1)
  {
    budget * 85 / 100
  }

  /**
   Compaction stops at the target, or at the budget when only the newest candidate is left, or for
   want of candidates.
   */
  predicate StopsAfter(config: Config, ms: seq<Message>, candidates: seq<nat>, ids: set<string>, k: nat)
    requires k <= |candidates| && InRange(ms, candidates)
  {
    var estimate := config.promptTokens(AfterVisits(config, ms, candidates, ids, k));
    || k == |candidates|
    || (k > 0 && estimate <= CompactTarget(InputBudget(config)))
    || (k == |candidates| - 1 && estimate <= InputBudget(config))
  }

  function VisitsFrom(config: Config, ms: seq<Message>, candidates: seq<nat>, ids: set<string>, k: nat): (r: nat)
    requires k <= |candidates| && InRange(ms, candidates)
    ensures k <= r <= |candidates| && StopsAfter(config, ms, candidates, ids, r)
    ensures forall j :: k <= j < r ==> !StopsAfter(config, ms, candidates, ids, j)
    decreases |candidates| - k
  {
    if StopsAfter(config, ms, candidates, ids, k) then k
    else VisitsFrom(config, ms, candidates, ids, k + 1)
  }

  datatype Compaction = Compaction(messages: seq<Message>, ids: set<string>)

  function CompactInflight(config: Config, ms: seq<Message>, ids: set<string>): Compaction {
    var budget := InputBudget(config);
    if budget == 0 then Compaction(ms, ids)
    else
      var base := Recompacted(config, ms, ids);
      if config.promptTokens(base) <= budget then Compaction(base, ids)
      else
        var candidates := Candidates(config, base, ids);
        var k := VisitsFrom(config, base, candidates, ids, 0);
        Compaction(AfterVisits(config, base, candidates, ids, k), IdsAfter(base, candidates, ids, k))
  }

  lemma {:induction false} VisitsSkeleton(
      config: Config, ms: seq<Message>, candidates: seq<nat>, ids: set<string>, k: nat)
    requires k <= |candidates| && InRange(ms, candidates)
    requires forall j :: 0 <= j < |candidates| ==> ms[candidates[j]].role.Tool?
    ensures SameSkeleton(ms, AfterVisits(config, ms, candidates, ids, k))
  {
    if k > 0 {
      VisitsSkeleton(config, ms, candidates, ids, k - 1);
    }
  }

  lemma SkeletonTransitive(a: seq<Message>, b: seq<Message>, c: seq<Message>)
    requires SameSkeleton(a, b) && SameSkeleton(b, c)
    ensures SameSkeleton(a, c)
  {}

  lemma CompactionSkeleton(config: Config, ms: seq<Message>, ids: set<string>)
    ensures SameSkeleton(ms, CompactInflight(config, ms, ids).messages)
    ensures ids <= CompactInflight(config, ms, ids).ids
  {
    var base := Recompacted(config, ms, ids);
    assert SameSkeleton(ms, base);
    var candidates := Candidates(config, base, ids);
    var k := VisitsFrom(config, base, candidates, ids, 0);
    VisitsSkeleton(config, base, candidates, ids, k);
    SkeletonTransitive(ms, base, AfterVisits(config, base, candidates, ids, k));
  }

  /** `out` is `base` with exactly the results at the given positions compacted. */
  predicate CompactedAt(config: Config, base: seq<Message>, visited: seq<nat>, out: seq<Message>) {
    |out| == |base| &&
    forall i :: 0 <= i < |base| ==> out[i] == if i in visited then Compacted(config, base[i]) else base[i]
  }

  /** Positions of results with pairwise different ids, none of them recorded yet. */
  ghost predicate FreshIds(ms: seq<Message>, positions: seq<nat>, ids: set<string>) {
    && InRange(ms, positions)
    && (forall k :: 0 <= k < |positions| ==> ms[positions[k]].callId !in ids)
    && (forall j, k :: 0 <= j < k < |positions| ==>
          positions[j] != positions[k] && ms[positions[j]].callId != ms[positions[k]].callId)
  }

  lemma CandidateIdsAreFresh(config: Config, ms: seq<Message>, ids: set<string>)
    requires NoRepeats(Answered(ms))
    ensures FreshIds(ms, Candidates(config, ms, ids), ids)
  {
    var candidates := Candidates(config, ms, ids);
    forall j, k | 0 <= j < k < |candidates|
      ensures ms[candidates[j]].callId != ms[candidates[k]].callId
    {
      if ms[candidates[j]].callId == ms[candidates[k]].callId {
        TwoAnswers(ms, candidates[j], candidates[k], ms[candidates[k]].callId);
      }
    }
  }

  lemma OneMoreVisit(config: Config, base: seq<Message>, visited: seq<nat>, c: nat, out: seq<Message>)
    requires CompactedAt(config, base, visited, out) && c < |base|
    ensures CompactedAt(config, base, visited + [c], out[c := Compacted(config, base[c])])
  {}

  lemma PrefixGrows<T>(s: seq<T>, k: nat)
    requires 0 < k <= |s|
    ensures s[..k] == s[..k - 1] + [s[k - 1]]
  {
  }

  lemma NotSeenYet(ms: seq<Message>, candidates: seq<nat>, ids: set<string>, k: nat)
    requires FreshIds(ms, candidates, ids) && k < |candidates|
    ensures ms[candidates[k]].callId !in IdsAfter(ms, candidates, ids, k)
  {
  }

  lemma NextVisit(config: Config, ms: seq<Message>, candidates: seq<nat>, ids: set<string>, k: nat)
    requires InRange(ms, candidates) && FreshIds(ms, candidates, ids) && k < |candidates|
    ensures AfterVisits(config, ms, candidates, ids, k + 1) ==
            AfterVisits(config, ms, candidates, ids, k)[candidates[k] := Compacted(config, ms[candidates[k]])]
  {
    NotSeenYet(ms, candidates, ids, k);
  }

  lemma NothingVisited(config: Config, ms: seq<Message>, candidates: seq<nat>, ids: set<string>)
    requires InRange(ms, candidates)
    ensures CompactedAt(config, ms, candidates[..0], AfterVisits(config, ms, candidates, ids, 0))
  {
  }

  /** Distinct ids: the visited positions are a prefix and every one of them is compacted. */
  lemma {:induction false} VisitsCompactAPrefix(
      config: Config, ms: seq<Message>, candidates: seq<nat>, ids: set<string>, k: nat)
    requires InRange(ms, candidates) && FreshIds(ms, candidates, ids) && k <= |candidates|
    ensures CompactedAt(config, ms, candidates[..k], AfterVisits(config, ms, candidates, ids, k))
  {
    hide AfterVisits, IdsAfter, CompactedAt, FreshIds;
    if k == 0 {
      NothingVisited(config, ms, candidates, ids);
    } else {
      VisitsCompactAPrefix(config, ms, candidates, ids, k - 1);
      NextVisit(config, ms, candidates, ids, k - 1);
      OneMoreVisit(config, ms, candidates[..k - 1], candidates[k - 1], AfterVisits(config, ms, candidates, ids, k - 1));
      PrefixGrows(candidates, k);
    }
  }

  function TextSize(ms: seq<Message>): nat {
    if ms == [] then 0
    else TextSize(ms[..|ms| - 1]) + (if ms[|ms| - 1].content.Str? then |ms[|ms| - 1].content.text| else 0)
  }

  lemma {:induction false} SizeSplits(a: seq<Message>, b: seq<Message>)
    ensures TextSize(a + b) == TextSize(a) + TextSize(b)
  {
    if b == [] {
      assert a + b == a;
    } else {
      assert (a + b)[..|a + b| - 1] == a + b[..|b| - 1];
      SizeSplits(a, b[..|b| - 1]);
    }
  }

  lemma {:induction false} SizeAfterUpdate(ms: seq<Message>, i: nat, m: Message)
    requires i < |ms| && ms[i].content.Str? && m.content.Str?
    ensures TextSize(ms[i := m]) == TextSize(ms) - |ms[i].content.text| + |m.content.text|
  {
    assert ms == ms[..i] + [ms[i]] + ms[i + 1..];
    assert ms[i := m] == ms[..i] + [m] + ms[i + 1..];
    SizeSplits(ms[..i], [ms[i]]);
    SizeSplits(ms[..i] + [ms[i]], ms[i + 1..]);
    SizeSplits(ms[..i], [m]);
    SizeSplits(ms[..i] + [m], ms[i + 1..]);
  }

  lemma {:induction false} VisitsShrink(
      config: Config, ms: seq<Message>, candidates: seq<nat>, ids: set<string>, k: nat)
    requires NoticesAreShort(config.notice) && FreshIds(ms, candidates, ids) && k <= |candidates|
    requires forall j :: 0 <= j < |candidates| ==> IsCandidate(config, candidates[j], ms[candidates[j]], ids)
    ensures TextSize(AfterVisits(config, ms, candidates, ids, k)) + k <= TextSize(ms)
  {
    if k == 0 {
      assert AfterVisits(config, ms, candidates, ids, 0) == ms;
    } else {
      hide AfterVisits, TextSize, NoticesAreShort;
      VisitsShrink(config, ms, candidates, ids, k - 1);
      var before := AfterVisits(config, ms, candidates, ids, k - 1);
      NextVisit(config, ms, candidates, ids, k - 1);
      StillUntouched(config, ms, candidates, ids, k - 1);
      CompactionShrinks(config, ms, candidates[k - 1], before);
    }
  }

  lemma StillUntouched(config: Config, ms: seq<Message>, candidates: seq<nat>, ids: set<string>, k: nat)
    requires FreshIds(ms, candidates, ids) && k < |candidates|
    ensures AfterVisits(config, ms, candidates, ids, k)[candidates[k]] == ms[candidates[k]]
  {
    hide AfterVisits;
    VisitsCompactAPrefix(config, ms, candidates, ids, k);
    assert candidates[k] !in candidates[..k];
  }

  lemma CompactionShrinks(config: Config, ms: seq<Message>, c: nat, before: seq<Message>)
    requires NoticesAreShort(config.notice)
    requires c < |ms| == |before| && before[c] == ms[c]
    requires ms[c].name.Some? && IsCompactableTool(ms[c].name.value)
    requires ms[c].content.Str? && |ms[c].content.text| >= MICROCOMPACT_MIN_CHARS
    ensures TextSize(before[c := Compacted(config, ms[c])]) < TextSize(before)
  {
    assert |config.notice(ms[c])| < MICROCOMPACT_MIN_CHARS;
    SizeAfterUpdate(before, c, Compacted(config, ms[c]));
  }

  /** The number of candidates an over-budget request visits. */
  function Visits(config: Config, ms: seq<Message>, ids: set<string>): (k: nat)
    ensures k <= |Candidates(config, Recompacted(config, ms, ids), ids)|
  {
    var base := Recompacted(config, ms, ids);
    VisitsFrom(config, base, Candidates(config, base, ids), ids, 0)
  }

  ghost predicate OverBudget(config: Config, ms: seq<Message>, ids: set<string>) {
    InputBudget(config) > 0 && config.promptTokens(Recompacted(config, ms, ids)) > InputBudget(config)
  }

  lemma IdsOfPrefix(ms: seq<Message>, candidates: seq<nat>, ids: set<string>, k: nat)
    requires k <= |candidates| && InRange(ms, candidates)
    ensures IdsAfter(ms, candidates, ids, k) == IdsAfter(ms, candidates[..k], ids, k)
  {
    assert forall j :: 0 <= j < k ==> ms[candidates[j]].callId == ms[candidates[..k][j]].callId;
  }

  /** Without a budget nothing is touched; within it nothing is compacted that was not recorded before. */
  lemma RequestWithinBudgetStays(config: Config, ms: seq<Message>, ids: set<string>)
    requires InputBudget(config) == 0 || config.promptTokens(Recompacted(config, ms, ids)) <= InputBudget(config)
    ensures CompactInflight(config, ms, ids) ==
            Compaction(if InputBudget(config) == 0 then ms else Recompacted(config, ms, ids), ids)
  {}

  /**
   Over budget and with one result per id, exactly an oldest-first prefix of the candidates is
   compacted and recorded, and the text shrinks by at least one character for each.
   */
  lemma CompactionTakesAPrefix(config: Config, ms: seq<Message>, ids: set<string>)
    requires OverBudget(config, ms, ids) && NoRepeats(Answered(ms))
    ensures var base := Recompacted(config, ms, ids);
            var visited := Candidates(config, base, ids)[..Visits(config, ms, ids)];
            var out := CompactInflight(config, ms, ids);
            && CompactedAt(config, base, visited, out.messages)
            && out.ids == IdsAfter(base, visited, ids, |visited|)
            && (NoticesAreShort(config.notice) ==> TextSize(out.messages) + |visited| <= TextSize(base))
  {
    var base := Recompacted(config, ms, ids);
    var k := Visits(config, ms, ids);
    RecompactedAnswers(config, ms, ids);
    var candidates := Candidates(config, base, ids);
    CandidateIdsAreFresh(config, base, ids);
    VisitsCompactAPrefix(config, base, candidates, ids, k);
    IdsOfPrefix(base, candidates, ids, k);
    if NoticesAreShort(config.notice) {
      VisitsShrink(config, base, candidates, ids, k);
    }
  }

  /**
   On exit the estimate is at the target, or at the budget with the newest candidate untouched,
   or every candidate was visited; and no shorter prefix would have done.
   */
  lemma CompactionStopsInTime(config: Config, ms: seq<Message>, ids: set<string>)
    requires OverBudget(config, ms, ids)
    ensures var base := Recompacted(config, ms, ids);
            var candidates := Candidates(config, base, ids);
            var k := Visits(config, ms, ids);
            var estimate := config.promptTokens(CompactInflight(config, ms, ids).messages);
            && (candidates != [] ==> k > 0)
            && (|| estimate <= CompactTarget(InputBudget(config))
                || (k == |candidates| - 1 && estimate <= InputBudget(config))
                || k == |candidates|)
            && (forall j :: 0 < j < k ==>
                  config.promptTokens(AfterVisits(config, base, candidates, ids, j)) >
                  if j == |candidates| - 1 then InputBudget(config) else CompactTarget(InputBudget(config)))
  {
    var base := Recompacted(config, ms, ids);
    var candidates := Candidates(config, base, ids);
    assert candidates != [] ==> !StopsAfter(config, base, candidates, ids, 0);
    assert StopsAfter(config, base, candidates, ids, Visits(config, ms, ids));
    forall j | 0 < j < Visits(config, ms, ids)
      ensures config.promptTokens(AfterVisits(config, base, candidates, ids, j)) >
              if j == |candidates| - 1 then InputBudget(config) else CompactTarget(InputBudget(config))
    {
      assert !StopsAfter(config, base, candidates, ids, j);
    }
  }

  lemma RecompactedAnswers(config: Config, ms: seq<Message>, ids: set<string>)
    ensures Answered(Recompacted(config, ms, ids)) == Answered(ms)
  {
    assert SameSkeleton(ms, Recompacted(config, ms, ids));
    SkeletonKeepsPairing(multiset{}, ms, Recompacted(config, ms, ids));
  }

  /** A position is only rewritten when its id is recorded, and only in its content. */
  lemma {:induction false} VisitedIdRecorded(
      config: Config, base: seq<Message>, candidates: seq<nat>, ids: set<string>, k: nat, c: nat)
    requires InRange(base, candidates) && k <= |candidates| && c < |base|
    ensures var now := AfterVisits(config, base, candidates, ids, k);
            && now[c].(content := Missing) == base[c].(content := Missing)
            && (base[c].callId !in IdsAfter(base, candidates, ids, k) ==> now[c] == base[c])
  {
    if k > 0 {
      VisitedIdRecorded(config, base, candidates, ids, k - 1, c);
    }
  }

  /** A message stays, or its result is recorded as compacted and carries the notice; nothing else is rewritten. */
  lemma CompactedOrUntouched(config: Config, ms: seq<Message>, ids: set<string>, i: nat)
    requires i < |ms|
    ensures var out := CompactInflight(config, ms, ids);
            || out.messages[i] == ms[i]
            || (&& ms[i].role.Tool? && ms[i].callId != "" && ms[i].callId in out.ids
                && out.messages[i] == ms[i].(content := Str(config.notice(ms[i])))
                && (ms[i].callId !in ids ==> MayBeCompacted(config, i, ms[i])))
  {
    var base := Recompacted(config, ms, ids);
    var candidates := Candidates(config, base, ids);
    var k := VisitsFrom(config, base, candidates, ids, 0);
    if i in candidates {
      VisitedRewrite(config, base, candidates, ids, k, i);
    } else {
      UnvisitedUnchanged(config, base, candidates, ids, k, i);
    }
  }

  lemma {:induction false} VisitedRewrite(
      config: Config, ms: seq<Message>, candidates: seq<nat>, ids: set<string>, k: nat, c: nat)
    requires InRange(ms, candidates) && k <= |candidates| && c < |ms|
    ensures var now := AfterVisits(config, ms, candidates, ids, k)[c];
            now == ms[c] || (now == Compacted(config, ms[c]) && ms[c].callId in IdsAfter(ms, candidates, ids, k))
  {
    if k > 0 {
      VisitedRewrite(config, ms, candidates, ids, k - 1, c);
    }
  }

  /** Ids recorded on earlier requests stay compacted, whatever this request does. */
  lemma RecordedStayCompacted(config: Config, ms: seq<Message>, ids: set<string>, i: nat)
    requires InputBudget(config) > 0
    requires i < |ms| && ms[i].role.Tool? && ms[i].callId != "" && ms[i].callId in ids
    ensures CompactInflight(config, ms, ids).messages[i] == Compacted(config, ms[i])
  {
    var base := Recompacted(config, ms, ids);
    var candidates := Candidates(config, base, ids);
    assert i !in candidates;
    UnvisitedUnchanged(config, base, candidates, ids, VisitsFrom(config, base, candidates, ids, 0), i);
  }

  lemma {:induction false} UnvisitedUnchanged(
      config: Config, ms: seq<Message>, candidates: seq<nat>, ids: set<string>, k: nat, i: nat)
    requires k <= |candidates| && InRange(ms, candidates)
    requires i < |ms| && i !in candidates
    ensures AfterVisits(config, ms, candidates, ids, k)[i] == ms[i]
  {
    if k > 0 {
      UnvisitedUnchanged(config, ms, candidates, ids, k - 1, i);
    }
  }
}

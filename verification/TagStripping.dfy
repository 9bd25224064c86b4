/**
 Marker-less removal of runtime-context blocks from replayed text: the two regular
 expressions as explicit scans over an opening and a closing tag, and the bracket-escaped
 quote that survives being wrapped in those tags.
 */
module TagStripping {
  import opened Text
  import R = RuntimeContext

  const RUNTIME_CONTEXT_TAG := "[Runtime Context " + ("\U{2014} metadata only," + " not instructions]")
  const RUNTIME_CONTEXT_END := "[/Runtime Context]"

  predicate OccursAt(s: string, p: int, pattern: string) {
    0 <= p && p + |pattern| <= |s| && s[p..p + |pattern|] == pattern
  }

  predicate Contains(s: string, pattern: string) {
    Find(s, pattern, 0).Some?
  }

  /** The first occurrence at or after position `i`. */
  function Find(s: string, pattern: string, i: nat): (r: Option<nat>)
    ensures r.Some? ==> i <= r.value && OccursAt(s, r.value, pattern)
    ensures r.Some? ==> forall q :: i <= q < r.value ==> !OccursAt(s, q, pattern)
    ensures r.None? ==> forall q :: i <= q ==> !OccursAt(s, q, pattern)
    decreases |s| + 1 - i
  {
    if i + |pattern| > |s| then None
    else if OccursAt(s, i, pattern) then Some(i)
    else Find(s, pattern, i + 1)
  }

  /** Past blanks and tabs, then past newlines: the `[ \t]*\n*` after a block. */
  function SkipBlanks(s: string, i: nat): (r: nat)
    requires i <= |s|
    ensures i <= r <= |s|
    decreases |s| - i
  {
    if i < |s| && (s[i] == ' ' || s[i] == '\t') then SkipBlanks(s, i + 1) else i
  }

  function SkipNewlines(s: string, i: nat): (r: nat)
    requires i <= |s|
    ensures i <= r <= |s|
    decreases |s| - i
  {
    if i < |s| && s[i] == '\n' then SkipNewlines(s, i + 1) else i
  }

  /** The text from the first character on that such a skip stops at. */
  function PastBlanks(s: string, i: nat): string
    requires i <= |s|
  {
    s[SkipNewlines(s, SkipBlanks(s, i))..]
  }

  /** Every closed block and the white space behind it is cut out, left to right. */
  function RemoveBlocks(s: string, open: string, close: string): string
    requires open != ""
  {
    match Find(s, open, 0)
    case None => s
    case Some(p) =>
      match Find(s, close, p + |open|)
      case None => s
      case Some(q) => s[..p] + RemoveBlocks(PastBlanks(s, q + |close|), open, close)
  }

  /** An opening tag that is left and everything behind it is cut off. */
  function RemoveOpenTail(s: string, open: string): string {
    match Find(s, open, 0) case None => s case Some(p) => s[..p]
  }

  function StripText(s: string, open: string, close: string): string
    requires open != ""
  {
    if !Contains(s, open) then s
    else Strip(RemoveOpenTail(RemoveBlocks(s, open, close), open))
  }

  // ----- No opening tag survives -----

  ghost predicate IsInfix(part: string, whole: string) {
    exists i :: OccursAt(whole, i, part)
  }

  lemma InfixHasNoMore(part: string, whole: string, pattern: string)
    requires IsInfix(part, whole) && forall q :: 0 <= q ==> !OccursAt(whole, q, pattern)
    ensures forall q :: 0 <= q ==> !OccursAt(part, q, pattern)
  {
    var i :| OccursAt(whole, i, part);
    forall q | 0 <= q
      ensures !OccursAt(part, q, pattern)
    {
      if OccursAt(part, q, pattern) {
        forall k | 0 <= k < |pattern|
          ensures whole[i + q + k] == pattern[k]
        {
          assert part[q..q + |pattern|][k] == part[q + k] == whole[i..i + |part|][q + k];
        }
        assert whole[i + q..i + q + |pattern|] == pattern;
        assert OccursAt(whole, i + q, pattern);
      }
    }
  }

  lemma PrefixOfSuffix(s: string, i: nat, part: string)
    requires i <= |s| && part <= s[i..]
    ensures OccursAt(s, i, part)
  {
    assert s[i..i + |part|] == s[i..][..|part|];
  }

  lemma StripIsInfix(s: string)
    ensures IsInfix(Strip(s), s)
  {
    hide TrimLeft, TrimRight, OccursAt;
    var left := TrimLeft(s);
    PrefixOfSuffix(s, |s| - |left|, Strip(s));
  }

  lemma TailRemoved(s: string, open: string)
    requires open != ""
    ensures forall q :: 0 <= q ==> !OccursAt(RemoveOpenTail(s, open), q, open)
  {
    match Find(s, open, 0)
    case None =>
    case Some(p) =>
      forall q | 0 <= q
        ensures !OccursAt(s[..p], q, open)
      {
        if OccursAt(s[..p], q, open) {
          assert s[q..q + |open|] == s[..p][q..q + |open|];
          assert OccursAt(s, q, open);
        }
      }
  }

  /**
   For every text the result contains no opening tag, even when cutting a block out glues a
   new tag together or a block never closes, and stripping again changes nothing.
   */
  lemma StrippedTextHasNoTag(s: string, open: string, close: string)
    requires open != ""
    ensures !Contains(StripText(s, open, close), open)
    ensures StripText(StripText(s, open, close), open, close) == StripText(s, open, close)
  {
    if Contains(s, open) {
      var cut := RemoveOpenTail(RemoveBlocks(s, open, close), open);
      TailRemoved(RemoveBlocks(s, open, close), open);
      StripIsInfix(cut);
      InfixHasNoMore(Strip(cut), cut, open);
    }
  }

  // ----- List content -----

  /** One element of list content: text with a tag is stripped, and dropped when nothing is left. */
  function StripBlock(b: R.Block, open: string, close: string): seq<R.Block>
    requires open != ""
  {
    if b.TextBlock? && Contains(b.text, open) then
      var text := StripText(b.text, open, close);
      if text != "" then [b.(text := text)] else []
    else [b]
  }

  function StripBlocks(bs: seq<R.Block>, open: string, close: string): seq<R.Block>
    requires open != ""
  {
    if bs == [] then [] else StripBlocks(bs[..|bs| - 1], open, close) + StripBlock(bs[|bs| - 1], open, close)
  }

  /** What is left of a content: text and lists are stripped, anything else stays. */
  function Stripped(content: R.Content, open: string, close: string): R.Content
    requires open != ""
  {
    match content
    case Str(text) => R.Str(StripText(text, open, close))
    case List(bs) => R.List(StripBlocks(bs, open, close))
    case _ => content
  }

  lemma StripNothing(open: string, close: string)
    requires open != ""
    ensures StripBlocks([], open, close) == []
  {}

  lemma OneMoreBlock(bs: seq<R.Block>, i: nat, open: string, close: string)
    requires open != "" && i < |bs|
    ensures StripBlocks(bs[..i + 1], open, close) == StripBlocks(bs[..i], open, close) + StripBlock(bs[i], open, close)
    ensures bs[..i + 1] == bs[..i] + [bs[i]]
  {
    hide StripBlock;
    assert bs[..i + 1][..i] == bs[..i];
  }

  /** The loop over list content, and whether any element changed. */
  method StripElements(bs: seq<R.Block>, open: string, close: string) returns (changed: bool, out: seq<R.Block>)
    requires open != ""
    ensures out == StripBlocks(bs, open, close)
    ensures !changed ==> out == bs
  {
    hide StripText, Contains, StripBlocks;
    StripNothing(open, close);
    assert bs[..0] == [];
    changed, out := false, [];
    for i := 0 to |bs|
      invariant out == StripBlocks(bs[..i], open, close)
      invariant !changed ==> out == bs[..i]
    {
      OneMoreBlock(bs, i, open, close);
      var block := bs[i];
      if block.TextBlock? && Contains(block.text, open) {
        var stripped := StripText(block.text, open, close);
        if stripped != "" {
          out := out + [block.(text := stripped)];
        }
        changed := true;
      } else {
        out := out + [block];
      }
    }
    assert bs[..|bs|] == bs;
  }

  method StripContent(content: R.Content, open: string, close: string) returns (r: R.Content)
    requires open != ""
    ensures r == Stripped(content, open, close)
  {
    match content
    case Str(text) =>
      r := R.Str(StripText(text, open, close));
    case List(bs) =>
      var changed, out := StripElements(bs, open, close);
      r := if changed then R.List(out) else content;
    case _ =>
      r := content;
  }

  ghost predicate TagFree(bs: seq<R.Block>, open: string) {
    forall b :: b in bs && b.TextBlock? ==> !Contains(b.text, open)
  }

  lemma {:induction false} StrippedBlocksHaveNoTag(bs: seq<R.Block>, open: string, close: string)
    requires open != ""
    ensures TagFree(StripBlocks(bs, open, close), open)
    ensures forall b :: b in bs && !(b.TextBlock? && Contains(b.text, open)) ==> b in StripBlocks(bs, open, close)
  {
    hide Contains, StripText;
    if bs != [] {
      var init, b := bs[..|bs| - 1], bs[|bs| - 1];
      StrippedBlocksHaveNoTag(init, open, close);
      if b.TextBlock? {
        StrippedTextHasNoTag(b.text, open, close);
      }
      assert bs == init + [b];
    }
  }

  lemma {:induction false} TagFreeBlocksStay(bs: seq<R.Block>, open: string, close: string)
    requires open != "" && TagFree(bs, open)
    ensures StripBlocks(bs, open, close) == bs
  {
    hide Contains, StripText;
    if bs != [] {
      SplitLast(bs);
      TagFreeBlocksStay(bs[..|bs| - 1], open, close);
    }
  }

  /** The same for list content: no text block keeps a tag, tag-free elements stay, and twice is once. */
  lemma StrippedListIsStable(bs: seq<R.Block>, open: string, close: string)
    requires open != ""
    ensures TagFree(StripBlocks(bs, open, close), open)
    ensures forall b :: b in bs && !(b.TextBlock? && Contains(b.text, open)) ==> b in StripBlocks(bs, open, close)
    ensures StripBlocks(StripBlocks(bs, open, close), open, close) == StripBlocks(bs, open, close)
  {
    StrippedBlocksHaveNoTag(bs, open, close);
    TagFreeBlocksStay(StripBlocks(bs, open, close), open, close);
  }

  lemma {:induction false} BlocksSplit(a: seq<R.Block>, b: seq<R.Block>, open: string, close: string)
    requires open != ""
    ensures StripBlocks(a + b, open, close) == StripBlocks(a, open, close) + StripBlocks(b, open, close)
  {
    hide StripBlock;
    if b == [] {
      assert a + b == a;
    } else {
      assert (a + b)[..|a + b| - 1] == a + b[..|b| - 1];
      BlocksSplit(a, b[..|b| - 1], open, close);
    }
  }

  /**
   Each element is stripped by itself and in its place: a text with a tag shows its stripped text, and only
   one with nothing left is dropped.
   */
  lemma ElementsAreStripped(a: seq<R.Block>, b: R.Block, c: seq<R.Block>, open: string, close: string)
      returns (left: seq<R.Block>)
    requires open != ""
    ensures StripBlocks(a + [b] + c, open, close) ==
            StripBlocks(a, open, close) + left + StripBlocks(c, open, close)
    ensures !b.TextBlock? || !Contains(b.text, open) ==> left == [b]
    ensures b.TextBlock? && Contains(b.text, open) && StripText(b.text, open, close) == "" ==> left == []
    ensures b.TextBlock? && Contains(b.text, open) && StripText(b.text, open, close) != "" ==>
              left == [b.(text := StripText(b.text, open, close))]
  {
    hide StripText, Contains;
    left := StripBlocks([b], open, close);
    assert [b][..0] == [];
    BlocksSplit(a + [b], c, open, close);
    BlocksSplit(a, [b], open, close);
  }

  // ----- Exact removal -----

  /** The first tag of `a + open + body + close + rest`, when `a` holds none and cannot start one. */
  lemma FirstTag(a: string, open: string, rest: string)
    requires forall q :: 0 <= q < |a| ==> !OccursAt(a + open + rest, q, open)
    ensures Find(a + open + rest, open, 0) == Some(|a|)
  {
    var s := a + open + rest;
    assert s[|a|..|a| + |open|] == open;
    assert OccursAt(s, |a|, open);
  }

  lemma {:induction false} SkipBlanksBehind(front: string, rest: string, i: nat)
    requires i <= |rest|
    ensures SkipBlanks(front + rest, |front| + i) == |front| + SkipBlanks(rest, i)
    decreases |rest| - i
  {
    if i < |rest| && (rest[i] == ' ' || rest[i] == '\t') {
      SkipBlanksBehind(front, rest, i + 1);
    }
  }

  lemma {:induction false} SkipNewlinesBehind(front: string, rest: string, i: nat)
    requires i <= |rest|
    ensures SkipNewlines(front + rest, |front| + i) == |front| + SkipNewlines(rest, i)
    decreases |rest| - i
  {
    if i < |rest| && rest[i] == '\n' {
      SkipNewlinesBehind(front, rest, i + 1);
    }
  }

  lemma PastBlanksBehind(front: string, rest: string)
    ensures PastBlanks(front + rest, |front|) == PastBlanks(rest, 0)
  {
    SkipBlanksBehind(front, rest, 0);
    SkipNewlinesBehind(front, rest, SkipBlanks(rest, 0));
  }

  lemma OccursBehind(front: string, tail: string, pattern: string, i: nat)
    ensures OccursAt(front + tail, |front| + i, pattern) == OccursAt(tail, i, pattern)
  {
    if i + |pattern| <= |tail| {
      assert (front + tail)[|front| + i..|front| + i + |pattern|] == tail[i..i + |pattern|];
    }
  }

  lemma {:induction false} FindBehind(front: string, tail: string, pattern: string, i: nat, k: nat)
    requires i <= k && Find(tail, pattern, i) == Some(k)
    ensures Find(front + tail, pattern, |front| + i) == Some(|front| + k)
    decreases |tail| - i
  {
    hide OccursAt;
    OccursBehind(front, tail, pattern, i);
    if i < k {
      FindBehind(front, tail, pattern, i + 1, k);
    }
  }

  lemma Associates(a: string, b: string, c: string)
    ensures a + (b + c) == a + b + c
    ensures (a + b + c)[..|a|] == a
  {}

  /** One step of the scan: the first opening tag, at `p`, is closed at `q`. */
  lemma OneCut(s: string, open: string, close: string, p: nat, q: nat)
    requires open != "" && Find(s, open, 0) == Some(p) && Find(s, close, p + |open|) == Some(q)
    ensures RemoveBlocks(s, open, close) == s[..p] + RemoveBlocks(PastBlanks(s, q + |close|), open, close)
  {}

  lemma CutOutAt(s: string, open: string, close: string, a: string, q: nat, rest: string)
    requires open != "" && a <= s && Find(s, open, 0) == Some(|a|) && Find(s, close, |a| + |open|) == Some(q)
    requires PastBlanks(s, q + |close|) == rest
    ensures RemoveBlocks(s, open, close) == a + RemoveBlocks(rest, open, close)
  {
    hide Find, RemoveBlocks, PastBlanks;
    OneCut(s, open, close, |a|, q);
  }

  /**
   The first closed block goes with the blanks and newlines behind it, the text before it stays,
   and the text behind it is treated as if it stood alone.
   */
  lemma BlockIsCutOut(a: string, open: string, body: string, close: string, rest: string)
    requires open != ""
    requires Find(a + open + (body + close + rest), open, 0) == Some(|a|)
    requires Find(body + close + rest, close, 0) == Some(|body|)
    ensures RemoveBlocks(a + open + (body + close + rest), open, close) ==
            a + RemoveBlocks(PastBlanks(rest, 0), open, close)
  {
    hide Find, RemoveBlocks, PastBlanks;
    var front, block := a + open, body + close;
    var s, q := front + (block + rest), |front| + |body|;
    FindBehind(front, block + rest, close, 0, |body|);
    Associates(a, open, block + rest);
    assert PastBlanks(s, q + |close|) == PastBlanks(rest, 0) by {
      Associates(front, block, rest);
      PastBlanksBehind(front + block, rest);
    }
    CutOutAt(s, open, close, a, q, PastBlanks(rest, 0));
  }

  predicate AllIn(s: string, chars: string) {
    forall c :: c in s ==> c in chars
  }

  /** `rest` is a run of blanks and tabs, a run of newlines and a text that starts with no more of either run. */
  ghost predicate IsPastBlanks(blanks: string, newlines: string, text: string) {
    && AllIn(blanks, " \t") && AllIn(newlines, "\n")
    && (text != "" ==> text[0] != '\n')
    && (newlines == "" && text != "" ==> text[0] != ' ' && text[0] != '\t')
  }

  lemma {:induction false} BlanksAreSkipped(blanks: string, rest: string, i: nat)
    requires i <= |blanks| && AllIn(blanks, " \t") && (rest != "" ==> rest[0] != ' ' && rest[0] != '\t')
    ensures SkipBlanks(blanks + rest, i) == |blanks|
    decreases |blanks| - i
  {
    if i < |blanks| {
      assert blanks[i] in blanks;
      BlanksAreSkipped(blanks, rest, i + 1);
    }
  }

  lemma {:induction false} NewlinesAreSkipped(front: string, newlines: string, rest: string, i: nat)
    requires i <= |newlines| && AllIn(newlines, "\n") && (rest != "" ==> rest[0] != '\n')
    ensures SkipNewlines(front + (newlines + rest), |front| + i) == |front| + |newlines|
    decreases |newlines| - i
  {
    if i < |newlines| {
      assert newlines[i] in newlines;
      NewlinesAreSkipped(front, newlines, rest, i + 1);
    }
  }

  lemma PastBlanksIsTheText(blanks: string, newlines: string, text: string)
    requires IsPastBlanks(blanks, newlines, text)
    ensures PastBlanks(blanks + (newlines + text), 0) == text
  {
    assert newlines != "" ==> newlines[0] in newlines;
    BlanksAreSkipped(blanks, newlines + text, 0);
    NewlinesAreSkipped(blanks, newlines, text, 0);
    hide SkipBlanks, SkipNewlines;
    assert (blanks + (newlines + text))[|blanks| + |newlines|..] == text;
  }

  /** A closed block between two texts: the block, its blanks and its newlines go, and only these. */
  lemma TextBehindABlockStays(
      a: string, open: string, body: string, close: string, blanks: string, newlines: string, text: string)
    requires open != "" && IsPastBlanks(blanks, newlines, text)
    requires Find(a + open + (body + close + (blanks + (newlines + text))), open, 0) == Some(|a|)
    requires Find(body + close + (blanks + (newlines + text)), close, 0) == Some(|body|)
    ensures RemoveBlocks(a + open + (body + close + (blanks + (newlines + text))), open, close) ==
            a + RemoveBlocks(text, open, close)
  {
    hide Find, RemoveBlocks, PastBlanks, IsPastBlanks;
    PastBlanksIsTheText(blanks, newlines, text);
    BlockIsCutOut(a, open, body, close, blanks + (newlines + text));
  }

  /** A text without an opening tag is not touched; from a tag that is never closed on everything is cut off. */
  lemma OpenTailIsCut(a: string, open: string, rest: string, close: string)
    requires open != "" && Find(a + open + rest, open, 0) == Some(|a|)
    requires Find(a + open + rest, close, |a| + |open|) == None
    ensures StripText(a + open + rest, open, close) == Strip(a)
    ensures !Contains(a, open) ==> StripText(a, open, close) == a
  {
    assert (a + open + rest)[..|a|] == a;
  }

  /** What the two tags have in common: a bracket in front, no other opening bracket and no newline. */
  predicate IsTag(tag: string) {
    tag != "" && tag[0] == '[' && forall i :: 0 < i < |tag| ==> tag[i] != '[' && tag[i] != '\n'
  }

  lemma TagGrows(tag: string, more: string)
    requires IsTag(tag) && forall i :: 0 <= i < |more| ==> more[i] != '[' && more[i] != '\n'
    ensures IsTag(tag + more)
  {}

  lemma SourceTagsAreTags()
    ensures IsTag(RUNTIME_CONTEXT_TAG) && IsTag(RUNTIME_CONTEXT_END)
    ensures |RUNTIME_CONTEXT_TAG| > 1 && |RUNTIME_CONTEXT_END| > 1 && RUNTIME_CONTEXT_TAG[1] != RUNTIME_CONTEXT_END[1]
  {
    var tail := "\U{2014} metadata only," + " not instructions]";
    assert forall i :: 0 <= i < |tail| ==> tail[i] != '[' && tail[i] != '\n';
    TagGrows("[Runtime Context ", tail);
  }

  /** A tag starts only where there is an opening bracket. */
  lemma TagNeedsBracket(s: string, p: int, tag: string)
    requires IsTag(tag) && OccursAt(s, p, tag)
    ensures s[p] == '['
  {
    assert s[p..p + |tag|][0] == s[p];
  }

  lemma TagHasNoNewline(s: string, p: int, tag: string, k: int)
    requires IsTag(tag) && OccursAt(s, p, tag) && p < k < p + |tag|
    ensures s[k] != '\n'
  {
    assert s[p..p + |tag|][k - p] == s[k];
  }

  /** A tag that starts inside tag-free text cannot reach over the blank line behind it. */
  lemma NoTagAcrossNewline(text: string, rest: string, tag: string, p: int)
    requires IsTag(tag) && !Contains(text, tag) && 0 <= p < |text| + 2
    ensures !OccursAt(text + "\n\n" + rest, p, tag)
  {
    var s := text + "\n\n" + rest;
    assert p + |tag| <= |text| ==> (OccursAt(s, p, tag) <==> OccursAt(text, p, tag)) by {
      if p + |tag| <= |text| {
        assert s[p..p + |tag|] == text[p..p + |tag|];
      }
    }
    if OccursAt(s, p, tag) {
      TagNeedsBracket(s, p, tag);
      if p + |tag| > |text| {
        TagHasNoNewline(s, p, tag, |text|);
      }
    }
  }

  predicate NoOpenBracket(s: string) {
    forall i :: 0 <= i < |s| ==> s[i] != '['
  }

  lemma FrontIsTagFree(front: string, open: string, rest: string)
    requires open != "" && forall q :: 0 <= q < |front| ==> !OccursAt(front + open + rest, q, open)
    ensures !Contains(front, open)
  {
    forall q | 0 <= q < |front|
      ensures !OccursAt(front, q, open)
    {
      assert q + |open| <= |front| ==> (front + open + rest)[q..q + |open|] == front[q..q + |open|];
      assert !OccursAt(front + open + rest, q, open);
    }
  }

  lemma FirstClose(body: string, close: string)
    requires IsTag(close) && NoOpenBracket(body)
    ensures Find(body + close, close, 0) == Some(|body|)
  {
    var s := body + close;
    forall q | 0 <= q < |body|
      ensures !OccursAt(s, q, close)
    {
      if OccursAt(s, q, close) {
        TagNeedsBracket(s, q, close);
      }
    }
    assert s[|body|..|body| + |close|] == close;
    assert OccursAt(s, |body|, close);
  }

  lemma LastBlockIsCutOut(a: string, open: string, body: string, close: string)
    requires IsTag(open) && IsTag(close) && NoOpenBracket(body)
    requires Find(a + open + (body + close), open, 0) == Some(|a|)
    ensures RemoveBlocks(a + open + (body + close), open, close) == a
  {
    FirstClose(body, close);
    assert body + close + "" == body + close;
    BlockIsCutOut(a, open, body, close, "");
    assert PastBlanks("", 0) == "";
    assert RemoveBlocks("", open, close) == "";
  }

  /**
   Text without a tag, a blank line, and one wrapped block whose body has no bracket: stripping
   gives the text back, trimmed.
   */
  lemma WrappedBlockIsStripped(text: string, open: string, body: string, close: string)
    requires IsTag(open) && IsTag(close) && !Contains(text, open) && NoOpenBracket(body)
    ensures StripText(R.Attach(text, open + (body + close)), open, close) == Strip(text)
  {
    var block := open + (body + close);
    var front := if text == "" then "" else text + "\n\n";
    assert R.Attach(text, block) == front + open + (body + close);
    forall q | 0 <= q < |front|
      ensures !OccursAt(front + open + (body + close), q, open)
    {
      NoTagAcrossNewline(text, block, open, q);
      assert text + "\n\n" + block == front + open + (body + close);
    }
    FirstTag(front, open, body + close);
    LastBlockIsCutOut(front, open, body, close);
    FrontIsTagFree(front, open, body + close);
    if text != "" {
      StripDropsTrailingSpaces(text, "\n\n");
    }
  }
}

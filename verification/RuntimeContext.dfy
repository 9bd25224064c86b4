/**
 Appending runtime context to the current prompt and taking it off again: append, detach,
 reattach, display-time removal, and the merge with a previous message of the same role.
 */
module RuntimeContext {
  import opened Text

  /** A list element: a text block with its other keys, another mapping, or something that is no mapping. */
  datatype Block = TextBlock(text: string, rest: string) | DictBlock(data: string) | Scalar(rendered: string)

  /** `Other` is any value that is neither a string nor a list; `rendered` is its `str()`. */
  datatype Content = NoContent | Str(text: string) | List(blocks: seq<Block>) | Other(rendered: string)

  datatype ContextBlock = ContextBlock(source: string, content: string)

  /** The stored marker; a field of the wrong type reads as None, and so does a non-string source. */
  datatype Marker = Marker(
    version: int, sources: Option<seq<Option<string>>>, suffix: Option<string>, blocks: Option<seq<Block>>)

  datatype Detached = Detached(content: Content, sources: seq<string>, blocks: seq<Block>)

  function AsText(content: Content): string {
    match content
    case NoContent => ""
    case Str(text) => text
    case List(_) => ""
    case Other(rendered) => rendered
  }

  function Texts(blocks: seq<ContextBlock>): seq<string> {
    seq(|blocks|, i requires 0 <= i < |blocks| => blocks[i].content)
  }

  function Sources(blocks: seq<ContextBlock>): seq<Option<string>> {
    seq(|blocks|, i requires 0 <= i < |blocks| => Some(blocks[i].source))
  }

  function AsTextBlocks(texts: seq<string>): seq<Block> {
    seq(|texts|, i requires 0 <= i < |texts| => TextBlock(texts[i], ""))
  }

  function Suffix(blocks: seq<ContextBlock>): string {
    Join(Texts(blocks), "\n\n")
  }

  /** `f"{text}\n\n{suffix}" if text else suffix` */
  function Attach(text: string, suffix: string): string {
    if text != "" then text + "\n\n" + suffix else suffix
  }

  function Append(content: Content, blocks: seq<ContextBlock>): (Content, Option<Marker>) {
    if blocks == [] then (content, None)
    else if content.List? then
      var contextBlocks := AsTextBlocks(Texts(blocks));
      (List(content.blocks + contextBlocks), Some(Marker(1, Some(Sources(blocks)), None, Some(contextBlocks))))
    else
      (Str(Attach(AsText(content), Suffix(blocks))),
       Some(Marker(1, Some(Sources(blocks)), Some(Suffix(blocks)), None)))
  }

  predicate EndsWith(s: string, tail: string) {
    |s| >= |tail| && s[|s| - |tail|..] == tail
  }

  predicate EndsWithBlocks(s: seq<Block>, tail: seq<Block>) {
    |s| >= |tail| && s[|s| - |tail|..] == tail
  }

  function NamedSources(sources: seq<Option<string>>): seq<string> {
    if sources == [] then []
    else
      var named := NamedSources(sources[..|sources| - 1]);
      var last := sources[|sources| - 1];
      if last.Some? && last.value != "" then named + [last.value] else named
  }

  function SourceNames(marker: Marker): seq<string> {
    if marker.sources.Some? then NamedSources(marker.sources.value) else []
  }

  predicate HasSuffixFor(content: Content, marker: Marker) {
    content.Str? && marker.suffix.Some? && marker.suffix.value != ""
  }

  predicate HasBlocksFor(content: Content, marker: Marker) {
    content.List? && marker.blocks.Some? && marker.blocks.value != []
  }

  function Detach(content: Content, marker: Marker): Option<Detached> {
    if marker.version != 1 then None
    else if HasSuffixFor(content, marker) then
      var text, suffix := content.text, marker.suffix.value;
      var taken := [TextBlock(suffix, "")];
      if text == suffix then Some(Detached(Str(""), SourceNames(marker), taken))
      else if EndsWith(text, "\n\n" + suffix) then
        Some(Detached(Str(text[..|text| - (|suffix| + 2)]), SourceNames(marker), taken))
      else None
    else if HasBlocksFor(content, marker) then
      var all, expected := content.blocks, marker.blocks.value;
      if EndsWithBlocks(all, expected) then
        Some(Detached(List(all[..|all| - |expected|]), SourceNames(marker), expected))
      else None
    else None
  }

  predicate AllText(blocks: seq<Block>) {
    forall b :: b in blocks ==> b.TextBlock?
  }

  function BlockTexts(blocks: seq<Block>): seq<string>
    requires AllText(blocks)
  {
    seq(|blocks|, i requires 0 <= i < |blocks| => (assert blocks[i] in blocks; blocks[i].text))
  }

  function Reattach(content: Content, sources: seq<string>, blocks: seq<Block>): (Content, Marker) {
    var stored := seq(|sources|, i requires 0 <= i < |sources| => Some(sources[i]));
    if content.Str? && AllText(blocks) then
      var suffix := Join(BlockTexts(blocks), "\n\n");
      (Str(Attach(content.text, suffix)), Marker(1, Some(stored), Some(suffix), None))
    else
      var visible := match content
        case List(all) => all
        case NoContent => []
        case _ => [TextBlock(AsText(content), "")];
      (List(visible + blocks), Marker(1, Some(stored), None, Some(blocks)))
  }

  /** `public_history_message` on the content of one message; None stands for a marker that is no mapping. */
  function PublicContent(content: Content, marker: Option<Marker>): Content {
    if marker.None? || marker.value.version != 1 then content
    else
      var m := marker.value;
      if HasSuffixFor(content, m) then
        if content.text == m.suffix.value then Str("")
        else if EndsWith(content.text, "\n\n" + m.suffix.value) then
          Str(content.text[..|content.text| - (|m.suffix.value| + 2)])
        else content
      else if HasBlocksFor(content, m) && EndsWithBlocks(content.blocks, m.blocks.value) then
        List(content.blocks[..|content.blocks| - |m.blocks.value|])
      else content
  }

  // ----- Detach undoes append, reattach undoes detach -----

  lemma AttachDetaches(text: string, suffix: string)
    ensures Attach(text, suffix) == suffix <==> text == ""
    ensures text != "" ==>
              && EndsWith(Attach(text, suffix), "\n\n" + suffix)
              && Attach(text, suffix)[..|Attach(text, suffix)| - (|suffix| + 2)] == text
  {
    if text != "" {
      assert Attach(text, suffix) == text + ("\n\n" + suffix);
    }
  }

  lemma {:induction false} NamedSourcesOfBlocks(blocks: seq<ContextBlock>)
    requires forall b :: b in blocks ==> b.source != ""
    ensures NamedSources(Sources(blocks)) == seq(|blocks|, i requires 0 <= i < |blocks| => blocks[i].source)
  {
    if blocks != [] {
      NamedSourcesOfBlocks(blocks[..|blocks| - 1]);
      assert Sources(blocks)[..|blocks| - 1] == Sources(blocks[..|blocks| - 1]);
      assert blocks[|blocks| - 1] in blocks;
    }
  }

  /**
   For every string or list and every non-empty list of named blocks, detaching recovers the
   visible content, the sources and the context blocks; only an empty suffix, which no
   normalised block produces, stands in the way.
   */
  lemma DetachUndoesAppend(content: Content, blocks: seq<ContextBlock>)
    requires content.Str? || content.List?
    requires blocks != [] && forall b :: b in blocks ==> b.source != ""
    ensures var (merged, marker) := Append(content, blocks);
            var names := seq(|blocks|, i requires 0 <= i < |blocks| => blocks[i].source);
            var taken := if content.List? then AsTextBlocks(Texts(blocks)) else [TextBlock(Suffix(blocks), "")];
            marker.Some? &&
            (Detach(merged, marker.value) == Some(Detached(content, names, taken)) <==>
               content.List? || Suffix(blocks) != "")
  {
    NamedSourcesOfBlocks(blocks);
    if content.Str? {
      AttachDetaches(content.text, Suffix(blocks));
    } else {
      var contextBlocks := AsTextBlocks(Texts(blocks));
      assert (content.blocks + contextBlocks)[|content.blocks|..] == contextBlocks;
    }
  }

  lemma NormalSuffix(blocks: seq<ContextBlock>)
    requires blocks != [] && forall b :: b in blocks ==> b.content != ""
    ensures Suffix(blocks) != ""
  {
    assert blocks[0] in blocks;
    assert Texts(blocks)[0] != "";
  }

  lemma ReattachText(visible: string, suffix: string, sources: seq<string>)
    ensures Reattach(Str(visible), sources, [TextBlock(suffix, "")]) ==
              (Str(Attach(visible, suffix)),
               Marker(1, Some(seq(|sources|, i requires 0 <= i < |sources| => Some(sources[i]))), Some(suffix), None))
  {
    assert BlockTexts([TextBlock(suffix, "")]) == [suffix];
  }

  /** The visible part of a detached text, attached again. */
  lemma VisibleAttached(text: string, suffix: string)
    requires EndsWith(text, "\n\n" + suffix)
    ensures Attach(text[..|text| - (|suffix| + 2)], suffix) == if text == "\n\n" + suffix then suffix else text
  {
    var visible := text[..|text| - (|suffix| + 2)];
    assert text == visible + ("\n\n" + suffix);
    if visible != "" {
      assert |text| != |"\n\n" + suffix|;
    } else {
      assert text == "\n\n" + suffix;
    }
  }

  lemma ReattachUndoesTextDetach(text: string, marker: Marker)
    requires Detach(Str(text), marker).Some?
    ensures var d := Detach(Str(text), marker).value;
            var (again, marker') := Reattach(d.content, d.sources, d.blocks);
            && (again == Str(text) <==> text != "\n\n" + marker.suffix.value)
            && marker'.suffix == marker.suffix && marker'.blocks == None
            && Detach(again, marker') == Some(d)
  {
    var d, suffix := Detach(Str(text), marker).value, marker.suffix.value;
    StoredSources(d.sources, marker);
    ReattachText(d.content.text, suffix, d.sources);
    AttachDetaches(d.content.text, suffix);
    hide Reattach, Attach, NamedSources;
    if text != suffix {
      VisibleAttached(text, suffix);
    } else {
      assert |text| != |"\n\n" + suffix|;
    }
  }

  lemma ReattachUndoesListDetach(blocks: seq<Block>, marker: Marker)
    requires Detach(List(blocks), marker).Some?
    ensures var d := Detach(List(blocks), marker).value;
            var (again, marker') := Reattach(d.content, d.sources, d.blocks);
            && again == List(blocks)
            && marker'.suffix == None && marker'.blocks == marker.blocks
            && Detach(again, marker') == Some(d)
  {
    var d := Detach(List(blocks), marker).value;
    StoredSources(d.sources, marker);
    hide NamedSources, Join;
    assert d.content.blocks + marker.blocks.value == blocks;
  }

  /**
   Whatever was detached, reattaching gives the content back, with a marker that detaches it
   again; only a text that was nothing but the blank line and the suffix loses the blank line.
   */
  lemma ReattachUndoesDetach(content: Content, marker: Marker)
    requires Detach(content, marker).Some?
    ensures var d := Detach(content, marker).value;
            var (again, marker') := Reattach(d.content, d.sources, d.blocks);
            && (again == content <==> !(content.Str? && content.text == "\n\n" + marker.suffix.value))
            && marker'.suffix == (if content.Str? then marker.suffix else None)
            && marker'.blocks == (if content.Str? then None else marker.blocks)
            && Detach(again, marker') == Some(d)
  {
    if content.Str? {
      ReattachUndoesTextDetach(content.text, marker);
    } else {
      ReattachUndoesListDetach(content.blocks, marker);
    }
  }

  lemma StoredSources(sources: seq<string>, marker: Marker)
    requires sources == SourceNames(marker)
    ensures NamedSources(seq(|sources|, i requires 0 <= i < |sources| => Some(sources[i]))) == sources
  {
    if marker.sources.Some? {
      NamedAreNonempty(marker.sources.value);
    }
    NamedRoundTrip(sources);
  }

  lemma {:induction false} NamedAreNonempty(sources: seq<Option<string>>)
    ensures forall s :: s in NamedSources(sources) ==> s != ""
  {
    if sources != [] {
      NamedAreNonempty(sources[..|sources| - 1]);
    }
  }

  lemma {:induction false} NamedRoundTrip(sources: seq<string>)
    requires forall s :: s in sources ==> s != ""
    ensures NamedSources(seq(|sources|, i requires 0 <= i < |sources| => Some(sources[i]))) == sources
  {
    if sources != [] {
      var init := sources[..|sources| - 1];
      assert forall s :: s in init ==> s in sources;
      NamedRoundTrip(init);
      var stored := seq(|sources|, i requires 0 <= i < |sources| => Some(sources[i]));
      assert stored[..|stored| - 1] == seq(|init|, i requires 0 <= i < |init| => Some(init[i]));
      assert sources[|sources| - 1] in sources;
    }
  }

  /** Display-time removal shows exactly what detaching leaves, on every content and marker. */
  lemma PublicAgreesWithDetach(content: Content, marker: Marker)
    ensures PublicContent(content, Some(marker)) ==
            if Detach(content, marker).Some? then Detach(content, marker).value.content else content
  {}

  // ----- What appending shows -----

  /** The suffix of one block is its content, and more blocks follow behind a blank line each. */
  lemma SuffixHoldsEveryBlock(a: seq<ContextBlock>, b: seq<ContextBlock>, block: ContextBlock)
    requires a != [] && b != []
    ensures Suffix([block]) == block.content
    ensures Suffix(a + b) == Suffix(a) + "\n\n" + Suffix(b)
  {
    assert Texts([block]) == [block.content];
    assert Texts(a + b) == Texts(a) + Texts(b);
    JoinSplits(Texts(a), Texts(b), "\n\n");
  }

  ghost predicate EndsInSuffix(text: string, suffix: string) {
    text == suffix || exists visible: string :: text == visible + ("\n\n" + suffix)
  }

  ghost predicate EndsInBlocks(all: seq<Block>, blocks: seq<Block>) {
    exists visible :: all == visible + blocks
  }

  /** What can be taken off again: a non-empty suffix of text or of a list, under a marker of version 1. */
  lemma DetachesIff(content: Content, marker: Marker)
    ensures Detach(content, marker).Some? <==>
              && marker.version == 1
              && (content.Str? || content.List?)
              && (content.Str? ==> marker.suffix.Some? && marker.suffix.value != "" &&
                                   EndsInSuffix(content.text, marker.suffix.value))
              && (content.List? ==> marker.blocks.Some? && marker.blocks.value != [] &&
                                    EndsInBlocks(content.blocks, marker.blocks.value))
  {
    if content.Str? && marker.suffix.Some? {
      EndsWithIff(content.text, "\n\n" + marker.suffix.value);
    }
    if content.List? && marker.blocks.Some? {
      EndsWithBlocksIff(content.blocks, marker.blocks.value);
    }
  }

  lemma EndsWithIff(s: string, tail: string)
    ensures EndsWith(s, tail) <==> exists text :: s == text + tail
  {
    if EndsWith(s, tail) {
      assert s == s[..|s| - |tail|] + tail;
    }
  }

  lemma EndsWithBlocksIff(s: seq<Block>, tail: seq<Block>)
    ensures EndsWithBlocks(s, tail) <==> exists all :: s == all + tail
  {
    if EndsWithBlocks(s, tail) {
      assert s == s[..|s| - |tail|] + tail;
    }
  }

  /**
   Reattaching puts the blocks behind the visible content: as one suffix when all are text and so is the
   content, and otherwise as elements of a list.
   */
  lemma ReattachedContent(content: Content, sources: seq<string>, blocks: seq<Block>)
    ensures var (merged, marker) := Reattach(content, sources, blocks);
            && marker.version == 1
            && marker.sources.Some? && |marker.sources.value| == |sources|
            && (forall i :: 0 <= i < |sources| ==> marker.sources.value[i] == Some(sources[i]))
            && (if content.Str? && AllText(blocks) then
                  && marker.blocks.None? && marker.suffix.Some?
                  && (content.text == "" ==> merged == Str(marker.suffix.value))
                  && (content.text != "" ==> merged == Str(content.text + "\n\n" + marker.suffix.value))
                else
                  && marker.suffix.None? && marker.blocks == Some(blocks)
                  && merged == List(
                       (match content
                        case NoContent => []
                        case Str(text) => [TextBlock(text, "")]
                        case Other(rendered) => [TextBlock(rendered, "")]
                        case List(all) => all) + blocks))
  {}

  /** The suffix reattached for one text block is its text, and for more the texts with blank lines between. */
  lemma ReattachedSuffix(content: Content, sources: seq<string>, a: seq<Block>, b: seq<Block>, block: Block)
    requires content.Str? && AllText(a) && AllText(b) && a != [] && b != [] && block.TextBlock?
    ensures var suffix := (blocks: seq<Block>) => Reattach(content, sources, blocks).1.suffix;
            && suffix([block]) == Some(block.text)
            && suffix(a).Some? && suffix(b).Some?
            && suffix(a + b) == Some(suffix(a).value + "\n\n" + suffix(b).value)
  {
    assert BlockTexts([block]) == [block.text];
    assert BlockTexts(a + b) == BlockTexts(a) + BlockTexts(b);
    JoinSplits(BlockTexts(a), BlockTexts(b), "\n\n");
  }

  /** Text gets the suffix behind a blank line, or alone; a list gets one text block for each context block. */
  lemma AppendedContent(content: Content, blocks: seq<ContextBlock>)
    requires blocks != []
    ensures var merged := Append(content, blocks).0;
            && (content.Str? && content.text != "" ==> merged == Str(content.text + "\n\n" + Suffix(blocks)))
            && (content == Str("") || content.NoContent? ==> merged == Str(Suffix(blocks)))
            && (content.List? ==>
                  && merged.List? && |merged.blocks| == |content.blocks| + |blocks|
                  && merged.blocks[..|content.blocks|] == content.blocks
                  && forall k :: 0 <= k < |blocks| ==>
                       merged.blocks[|content.blocks| + k] == TextBlock(blocks[k].content, ""))
  {}

  // ----- Merging with the previous message -----

  /** How a content appears as a list: a text or other value as one text block, a bare element as its rendering. */
  ghost predicate ShownAs(content: Content, blocks: seq<Block>) {
    match content
    case NoContent => blocks == []
    case Str(text) => blocks == [TextBlock(text, "")]
    case Other(rendered) => blocks == [TextBlock(rendered, "")]
    case List(all) =>
      && |blocks| == |all|
      && forall i :: 0 <= i < |all| ==>
           if all[i].Scalar? then blocks[i] == TextBlock(all[i].rendered, "") else blocks[i] == all[i]
  }

  /**
   `merged` is `left` and then `right`: two texts with a blank line between them unless one is empty, and
   otherwise one list with the blocks of both.
   */
  ghost predicate IsMergeOf(left: Content, right: Content, merged: Content) {
    && (left.Str? && right.Str? ==>
          && (left.text == "" ==> merged == right)
          && (right.text == "" ==> merged == left)
          && (left.text != "" && right.text != "" ==> merged == Str(left.text + "\n\n" + right.text)))
    && (!(left.Str? && right.Str?) ==>
          && merged.List?
          && exists n :: 0 <= n <= |merged.blocks| && ShownAs(left, merged.blocks[..n]) &&
                         ShownAs(right, merged.blocks[n..]))
  }

  function ToBlocks(content: Content): (blocks: seq<Block>)
    ensures forall b :: b in blocks ==> !b.Scalar?
  {
    match content
    case List(all) =>
      seq(|all|, i requires 0 <= i < |all| => if all[i].Scalar? then TextBlock(all[i].rendered, "") else all[i])
    case NoContent => []
    case _ => [TextBlock(AsText(content), "")]
  }

  function MergeContent(left: Content, right: Content): Content {
    if left.Str? && right.Str? then
      if left.text == "" then right
      else if right.text == "" then left
      else Str(left.text + "\n\n" + right.text)
    else List(ToBlocks(left) + ToBlocks(right))
  }

  lemma BlocksShow(content: Content)
    ensures ShownAs(content, ToBlocks(content))
  {}

  /** Nothing of either side is lost in a merge, and the earlier message comes first. */
  lemma MergeKeepsBoth(left: Content, right: Content)
    ensures IsMergeOf(left, right, MergeContent(left, right))
  {
    if !(left.Str? && right.Str?) {
      var a, b := ToBlocks(left), ToBlocks(right);
      BlocksShow(left);
      BlocksShow(right);
      assert (a + b)[..|a|] == a && (a + b)[|a|..] == b;
    }
  }

  /**
   After a merge the new marker still detaches exactly, leaving the merge of the visible
   parts, precisely when the new content is a list or both sides are strings.
   */
  lemma MergedMarkerDetaches(left: Content, content: Content, blocks: seq<ContextBlock>)
    requires content.Str? || content.List?
    requires blocks != [] && forall b :: b in blocks ==> b.source != "" && b.content != ""
    ensures var (current, marker) := Append(content, blocks);
            var merged := MergeContent(left, current);
            marker.Some? &&
            (Detach(merged, marker.value).Some? <==> content.List? || left.Str?) &&
            (Detach(merged, marker.value).Some? ==>
               && Detach(merged, marker.value).value.content == MergeContent(left, content)
               && IsMergeOf(left, content, Detach(merged, marker.value).value.content))
  {
    MergeKeepsBoth(left, content);
    hide IsMergeOf;
    if content.List? {
      MergedListDetaches(left, content.blocks, blocks);
    } else if left.Str? {
      NormalSuffix(blocks);
      MergedTextDetaches(left.text, content.text, blocks);
    }
  }

  lemma MergedListDetaches(left: Content, all: seq<Block>, blocks: seq<ContextBlock>)
    requires blocks != []
    ensures var (current, marker) := Append(List(all), blocks);
            && marker.Some? && Detach(MergeContent(left, current), marker.value).Some?
            && Detach(MergeContent(left, current), marker.value).value.content == MergeContent(left, List(all))
  {
    hide NamedSources;
    var (current, marker) := Append(List(all), blocks);
    var contextBlocks := AsTextBlocks(Texts(blocks));
    assert ToBlocks(current) == ToBlocks(List(all)) + contextBlocks;
    var visible := ToBlocks(left) + ToBlocks(List(all));
    assert MergeContent(left, current).blocks == visible + contextBlocks;
    assert MergeContent(left, current).blocks[|visible|..] == contextBlocks;
  }

  lemma MergedTextDetaches(left: string, text: string, blocks: seq<ContextBlock>)
    requires blocks != [] && Suffix(blocks) != ""
    ensures var (current, marker) := Append(Str(text), blocks);
            && marker.Some? && Detach(MergeContent(Str(left), current), marker.value).Some?
            && Detach(MergeContent(Str(left), current), marker.value).value.content ==
               MergeContent(Str(left), Str(text))
  {
    hide NamedSources, Join, Suffix;
    MergeIsAttach(left, text, Suffix(blocks));
    AttachDetaches(MergeContent(Str(left), Str(text)).text, Suffix(blocks));
  }

  lemma MergeIsAttach(left: string, text: string, suffix: string)
    requires suffix != ""
    ensures MergeContent(Str(left), Str(Attach(text, suffix))) ==
            Str(Attach(MergeContent(Str(left), Str(text)).text, suffix))
  {
    if left != "" && text != "" {
      assert left + "\n\n" + (text + "\n\n" + suffix) == left + "\n\n" + text + "\n\n" + suffix;
    }
  }

  datatype HistoryMessage = HistoryMessage(role: string, content: Content, marker: Option<Marker>)

  /** The end of `build_messages`: the current turn joins a last message of the same role. */
  function AddCurrent(messages: seq<HistoryMessage>, current: HistoryMessage): seq<HistoryMessage>
    requires messages != []
  {
    var last := messages[|messages| - 1];
    if last.role == current.role then
      var marker := if current.role == "user" && current.marker.Some? then current.marker else last.marker;
      messages[|messages| - 1 := last.(content := MergeContent(last.content, current.content), marker := marker)]
    else messages + [current]
  }

  /**
   The current turn joins a last message of its role, content behind content and, for a user with a marker,
   under its own marker; it follows any other message. Earlier messages stay.
   */
  lemma CurrentTurnIsLast(messages: seq<HistoryMessage>, current: HistoryMessage)
    requires messages != []
    ensures var built := AddCurrent(messages, current);
            var before, now := messages[|messages| - 1], built[|built| - 1];
            if before.role == current.role then
              && |built| == |messages| && built[..|messages| - 1] == messages[..|messages| - 1]
              && now.role == before.role && IsMergeOf(before.content, current.content, now.content)
              && now.marker == if current.role == "user" && current.marker.Some? then current.marker else before.marker
            else built == messages + [current]
  {
    MergeKeepsBoth(messages[|messages| - 1].content, current.content);
    hide IsMergeOf;
  }

  /** The last message of the built list shows the visible parts only, the earlier one first, under its own marker. */
  lemma BuiltTurnDetaches(messages: seq<HistoryMessage>, content: Content, blocks: seq<ContextBlock>)
    requires messages != [] && (content.Str? || content.List?)
    requires blocks != [] && forall b :: b in blocks ==> b.source != "" && b.content != ""
    requires var last := messages[|messages| - 1]; last.role == "user" ==> content.List? || last.content.Str?
    ensures var (merged, marker) := Append(content, blocks);
            var built := AddCurrent(messages, HistoryMessage("user", merged, marker));
            var before := messages[|messages| - 1];
            var now := built[|built| - 1];
            && now.marker.Some?
            && (before.role == "user" ==> IsMergeOf(before.content, content, PublicContent(now.content, now.marker)))
            && (before.role != "user" ==> PublicContent(now.content, now.marker) == content)
            && (before.role == "user" && before.content.Str? && content.Str? ==>
                  PublicContent(now.content, now.marker).Str? &&
                  before.content.text <= PublicContent(now.content, now.marker).text)
            && built[..|messages| - 1] == messages[..|messages| - 1]
  {
    var (merged, marker) := Append(content, blocks);
    var last := messages[|messages| - 1];
    if last.role == "user" {
      MergedMarkerDetaches(last.content, content, blocks);
      PublicAgreesWithDetach(MergeContent(last.content, merged), marker.value);
    } else {
      NormalSuffix(blocks);
      DetachUndoesAppend(content, blocks);
      PublicAgreesWithDetach(merged, marker.value);
    }
  }

  // ----- Normalising provider blocks -----

  /** What a provider may return: a block, a mapping with possibly missing string fields, or neither. */
  datatype RawBlock = Block(source: string, content: string) | Mapping(src: Option<string>, body: Option<string>) | Junk

  datatype NormalizeError = NotABlock | EmptySource

  function Decoded(raw: RawBlock): Option<ContextBlock> {
    match raw
    case Block(source, content) => Some(ContextBlock(source, content))
    case Mapping(Some(source), Some(content)) => Some(ContextBlock(source, content))
    case _ => None
  }

  function Normalized(raws: seq<RawBlock>): Result<seq<ContextBlock>, NormalizeError> {
    if raws == [] then Ok([])
    else
      var init := Normalized(raws[..|raws| - 1]);
      var block := Decoded(raws[|raws| - 1]);
      if init.Err? then init
      else if block.None? then Err(NotABlock)
      else if Strip(block.value.source) == "" then Err(EmptySource)
      else if Strip(block.value.content) == "" then init
      else Ok(init.value + [ContextBlock(Strip(block.value.source), Strip(block.value.content))])
  }

  method NormalizeBlocks(raws: seq<RawBlock>) returns (r: Result<seq<ContextBlock>, NormalizeError>)
    ensures r == Normalized(raws)
  {
    var blocks: seq<ContextBlock> := [];
    for i := 0 to |raws|
      invariant Normalized(raws[..i]) == Ok(blocks)
    {
      assert raws[..i + 1][..i] == raws[..i];
      var block := Decoded(raws[i]);
      if block.None? {
        ErrorsStick(raws, i + 1);
        return Err(NotABlock);
      }
      if Strip(block.value.source) == "" {
        ErrorsStick(raws, i + 1);
        return Err(EmptySource);
      }
      if Strip(block.value.content) != "" {
        blocks := blocks + [ContextBlock(Strip(block.value.source), Strip(block.value.content))];
      }
    }
    assert raws[..|raws|] == raws;
    r := Ok(blocks);
  }

  lemma {:induction false} ErrorsStick(raws: seq<RawBlock>, i: nat)
    requires i <= |raws| && Normalized(raws[..i]).Err?
    ensures Normalized(raws) == Normalized(raws[..i])
    decreases |raws|
  {
    if i < |raws| {
      assert raws[..|raws| - 1][..i] == raws[..i];
      ErrorsStick(raws[..|raws| - 1], i);
    } else {
      assert raws[..i] == raws;
    }
  }

  predicate IsNormal(b: ContextBlock) {
    b.source != "" && b.content != "" && Strip(b.source) == b.source && Strip(b.content) == b.content
  }

  lemma {:induction false} NormalizedBlocksAreNormal(raws: seq<RawBlock>)
    requires Normalized(raws).Ok?
    ensures forall b :: b in Normalized(raws).value ==> IsNormal(b)
  {
    if raws != [] {
      NormalizedBlocksAreNormal(raws[..|raws| - 1]);
      var block := Decoded(raws[|raws| - 1]).value;
      StripIsIdempotent(block.source);
      StripIsIdempotent(block.content);
    }
  }

  lemma {:induction false} NormalBlockAdded(raws: seq<RawBlock>, blocks: seq<ContextBlock>, b: ContextBlock)
    requires Normalized(raws) == Ok(blocks) && IsNormal(b)
    ensures Normalized(raws + [Mapping(Some(b.source), Some(b.content))]) == Ok(blocks + [b])
  {
    assert (raws + [Mapping(Some(b.source), Some(b.content))])[..|raws|] == raws;
  }

  lemma {:induction false} NormalBlocksStay(blocks: seq<ContextBlock>)
    requires forall b :: b in blocks ==> IsNormal(b)
    ensures Normalized(Encoded(blocks)) == Ok(blocks)
  {
    if blocks != [] {
      var init := blocks[..|blocks| - 1];
      SplitLast(blocks);
      NormalBlocksStay(init);
      NormalBlockAdded(Encoded(init), init, blocks[|blocks| - 1]);
    }
  }

  /** Providers' blocks are checked one by one, in order, and the first fault is the result. */
  lemma {:induction false} NormalizedSplits(a: seq<RawBlock>, b: seq<RawBlock>)
    ensures Normalized(a + b) ==
            if Normalized(a).Err? then Normalized(a)
            else if Normalized(b).Err? then Normalized(b)
            else Ok(Normalized(a).value + Normalized(b).value)
  {
    hide Strip, Decoded;
    assert forall left: seq<ContextBlock> :: left + [] == left;
    if b == [] {
      assert a + b == a;
    } else {
      assert (a + b)[..|a + b| - 1] == a + b[..|b| - 1];
      assert (a + b)[|a + b| - 1] == b[|b| - 1];
      NormalizedSplits(a, b[..|b| - 1]);
      if Normalized(a).Ok? && Normalized(b[..|b| - 1]).Ok? && Normalized(b).Ok? {
        var left, init := Normalized(a).value, Normalized(b[..|b| - 1]).value;
        assert forall last: seq<ContextBlock> :: (left + init) + last == left + (init + last);
      }
    }
  }

  /** What a raw block says: it is a block itself, or a mapping with a text source and a text content. */
  ghost predicate Says(raw: RawBlock, source: string, content: string) {
    raw == Block(source, content) || raw == Mapping(Some(source), Some(content))
  }

  /** One block: refused when it is none or has no source, dropped without content, and trimmed otherwise. */
  lemma OneBlockNormalized(raw: RawBlock)
    ensures (forall source, content :: !Says(raw, source, content)) ==> Normalized([raw]) == Err(NotABlock)
    ensures forall source, content :: Says(raw, source, content) ==>
              Normalized([raw]) ==
              if Strip(source) == "" then Err(EmptySource)
              else Ok(if Strip(content) == "" then [] else [ContextBlock(Strip(source), Strip(content))])
  {
    hide Strip;
    assert [raw][..|[raw]| - 1] == [];
    assert Normalized([]) == Ok([]);
    assert forall block: ContextBlock :: [] + [block] == [block];
    if Decoded(raw).Some? {
      assert Says(raw, Decoded(raw).value.source, Decoded(raw).value.content);
    }
  }

  /** Normalised blocks are what append and detach need, and survive being stored and read back. */
  lemma NormalizedBlocksAreUsable(raws: seq<RawBlock>)
    requires Normalized(raws).Ok?
    ensures forall b :: b in Normalized(raws).value ==> b.source != "" && b.content != ""
    ensures Normalized(Encoded(Normalized(raws).value)) == Normalized(raws)
  {
    NormalizedBlocksAreNormal(raws);
    NormalBlocksStay(Normalized(raws).value);
  }

  /** The JSON-safe mapping form of blocks. */
  function Encoded(blocks: seq<ContextBlock>): seq<RawBlock> {
    if blocks == [] then []
    else
      var b := blocks[|blocks| - 1];
      Encoded(blocks[..|blocks| - 1]) + [Mapping(Some(b.source), Some(b.content))]
  }
}

/**
 * The broker's frame writer, and the proof that the dashboard's parser undoes
 * it even when the stream is cut at an arbitrary character.
 */
module SseWire {
  import opened SseParser
  import opened SseBlocks

  /** An event as it is written: id and type as text, and its JSON. */
  datatype WireEvent = WireEvent(id: string, kind: string, json: string)

  datatype WireItem = Event(evt: WireEvent) | KeepAlive(text: string)

  function Write(item: WireItem): string {
    match item
    case Event(evt) => "id: " + evt.id + "\nevent: " + evt.kind + "\ndata: " + evt.json + "\n\n"
    case KeepAlive(text) => ":" + text + "\n\n"
  }

  function WriteAll(items: seq<WireItem>): string {
    if items == [] then "" else WriteAll(items[..|items| - 1]) + Write(items[|items| - 1])
  }

  /** The broker's side of one stream: a closed flag and what was written so far. */
  class StreamWriter {
    var closed: bool
    var written: string

    constructor ()
      ensures !closed && written == ""
    {
      closed, written := false, "";
    }

    method Send(evt: WireEvent)
      modifies this
      ensures closed == old(closed)
      ensures written == if old(closed) then old(written) else old(written) + Write(Event(evt))
    {
      if closed {
        return;
      }
      written := written + ("id: " + evt.id + "\nevent: " + evt.kind + "\ndata: " + evt.json + "\n\n");
    }

    method SendComment(text: string)
      modifies this
      ensures closed == old(closed)
      ensures written == if old(closed) then old(written) else old(written) + Write(KeepAlive(text))
    {
      if closed {
        return;
      }
      written := written + (":" + text + "\n\n");
    }

    method Close()
      modifies this
      ensures closed && written == old(written)
    {
      closed := true;
    }

    /** The replay loop at the start of a stream. */
    method Replay(events: seq<WireEvent>)
      modifies this
      ensures closed == old(closed)
      ensures written == if old(closed) then old(written) else old(written) + WriteAll(AsItems(events))
    {
      hide Write, AsItems, WriteAll;
      WriteAllOfNone();
      Associate(written, "", "");
      assert events[..0] == [];
      for i := 0 to |events|
        invariant closed == old(closed)
        invariant written == if old(closed) then old(written) else old(written) + WriteAll(AsItems(events[..i]))
      {
        WriteAllNext(events, i);
        Associate(old(written), WriteAll(AsItems(events[..i])), Write(Event(events[i])));
        Send(events[i]);
      }
      assert events[..|events|] == events;
    }
  }

  lemma Associate(a: string, b: string, c: string)
    ensures a + (b + c) == a + b + c && a + "" == a
  {
  }

  lemma WriteAllOfNone()
    ensures WriteAll(AsItems([])) == ""
  {
  }

  lemma WriteAllNext(events: seq<WireEvent>, i: nat)
    requires i < |events|
    ensures WriteAll(AsItems(events[..i + 1])) == WriteAll(AsItems(events[..i])) + Write(Event(events[i]))
  {
    var items := AsItems(events);
    AsItemsOfPrefix(events, i);
    AsItemsOfPrefix(events, i + 1);
    WriteAllSnoc(items, i);
  }

  lemma AsItemsOfPrefix(events: seq<WireEvent>, i: nat)
    requires i <= |events|
    ensures AsItems(events[..i]) == AsItems(events)[..i]
  {
  }

  function AsItems(events: seq<WireEvent>): (items: seq<WireItem>)
    ensures |items| == |events| && forall i :: 0 <= i < |items| ==> items[i] == Event(events[i])
  {
    if events == [] then [] else AsItems(events[..|events| - 1]) + [Event(events[|events| - 1])]
  }

  function FrameOf(evt: WireEvent): SseFrame { SseFrame(evt.id, evt.kind, evt.json) }

  function ItemFrames(item: WireItem): seq<SseFrame> { if item.Event? then [FrameOf(item.evt)] else [] }

  function FramesOf(items: seq<WireItem>): seq<SseFrame> {
    if items == [] then [] else FramesOf(items[..|items| - 1]) + ItemFrames(items[|items| - 1])
  }

  ghost predicate Sendable(evt: WireEvent) {
    && Clean(evt.id) && NUL !in evt.id
    && Clean(evt.kind) && evt.kind != ""
    && Clean(evt.json)
  }

  ghost predicate ItemSendable(item: WireItem) {
    match item
    case Event(evt) => Sendable(evt)
    case KeepAlive(text) => LF !in text
  }

  /** The parser between two items; only the last id has survived. */
  function Between(id: string): ParserState { ParserState("", Fields([], "", id)) }

  function IdAfter(id: string, item: WireItem): string { if item.Event? then item.evt.id else id }

  /** The lines an item is written as, before its closing blank line. */
  function ItemLines(item: WireItem): seq<string> {
    match item
    case Event(evt) => ["id: " + evt.id, "event: " + evt.kind, "data: " + evt.json]
    case KeepAlive(text) => [":" + text]
  }

  lemma UnlinesOne(a: string)
    ensures Unlines([a]) == a + [LF]
  {
    assert [a][1..] == [];
    assert Unlines([a]) == a + [LF] + "";
  }

  lemma {:induction false} UnlinesSnoc(lines: seq<string>, line: string)
    ensures Unlines(lines + [line]) == Unlines(lines) + line + [LF]
    decreases lines
  {
    if lines == [] {
      UnlinesOne(line);
      assert [] + [line] == [line];
    } else {
      assert (lines + [line])[1..] == lines[1..] + [line];
      UnlinesSnoc(lines[1..], line);
    }
  }

  lemma UnlinesThree(a: string, b: string, c: string)
    ensures Unlines([a, b, c]) == a + [LF] + b + [LF] + c + [LF]
  {
    hide Unlines;
    UnlinesOne(a);
    UnlinesSnoc([a], b);
    UnlinesSnoc([a, b], c);
    assert [a] + [b] == [a, b] && [a, b] + [c] == [a, b, c];
  }

  lemma RegroupThree(a: string, b: string, k: string, c: string, j: string)
    ensures a + ([LF] + b) + k + ([LF] + c) + j + ([LF] + [LF])
         == a + [LF] + (b + k) + [LF] + (c + j) + [LF] + [LF]
  {
    assert a + ([LF] + b) + k == a + [LF] + (b + k);
    assert a + [LF] + (b + k) + ([LF] + c) + j == a + [LF] + (b + k) + [LF] + (c + j);
  }

  lemma WriteIsThreeLines(evt: WireEvent)
    ensures Write(Event(evt))
         == "id: " + evt.id + [LF] + ("event: " + evt.kind) + [LF] + ("data: " + evt.json) + [LF] + [LF]
  {
    assert "\nevent: " == [LF] + "event: " && "\ndata: " == [LF] + "data: " && "\n\n" == [LF] + [LF];
    RegroupThree("id: " + evt.id, "event: ", evt.kind, "data: ", evt.json);
  }

  lemma WriteIsComment(text: string)
    ensures Write(KeepAlive(text)) == ":" + text + [LF] + [LF]
  {
    assert "\n\n" == [LF] + [LF];
  }

  lemma WriteIsLines(item: WireItem)
    ensures Write(item) == Unlines(ItemLines(item)) + [LF]
    ensures Write(item) == Unlines(ItemLines(item) + [""])
  {
    hide Write, Unlines;
    UnlinesSnoc(ItemLines(item), "");
    if item.Event? {
      WriteIsThreeLines(item.evt);
      UnlinesThree("id: " + item.evt.id, "event: " + item.evt.kind, "data: " + item.evt.json);
    } else {
      WriteIsComment(item.text);
      UnlinesOne(":" + item.text);
    }
  }

  lemma CommentIsIgnored(f: Fields, text: string)
    ensures LineRule(f, ":" + text) == ([], f)
  {
    var line := ":" + text;
    assert line[0] == ':';
    assert text != "" ==> line[|line| - 1] == text[|text| - 1];
    assert DropTrailingCr(line)[0] == ':';
  }

  lemma SpacedFieldIsSet(f: Fields, name: string, value: string)
    requires name != "" && ':' !in name && LF !in name && Clean(value)
    ensures LineRule(f, name + ": " + value) == ([], SetField(f, name, value))
  {
    var l := Field(name, value, true);
    assert Text(l) == name + ": " + value && Text(l) + Ending(false) == Text(l);
    LineRuleReadsLine(f, l, false);
  }

  lemma SendableFieldsAreSet(evt: WireEvent, id: string)
    requires NUL !in evt.id
    ensures SetField(SetField(SetField(Fields([], "", id), "id", evt.id), "event", evt.kind), "data", evt.json)
         == Fields([evt.json], evt.kind, evt.id)
  {
  }

  /** A silent line in front only changes the open event. */
  lemma FoldSilent(f: Fields, line: string, rest: seq<string>, g: Fields)
    requires LineRule(f, line) == ([], g)
    ensures FoldLines(f, [line] + rest) == FoldLines(g, rest)
  {
    hide LineRule;
    var all := [line] + rest;
    assert all[0] == line && all[1..] == rest;
    var more := FoldLines(g, rest);
    assert [] + more.0 == more.0;
  }

  lemma FoldThree(f0: Fields, a: string, b: string, c: string, f1: Fields, f2: Fields, f3: Fields)
    requires LineRule(f0, a) == ([], f1) && LineRule(f1, b) == ([], f2) && LineRule(f2, c) == ([], f3)
    ensures FoldLines(f0, [a, b, c]) == ([], f3)
  {
    hide LineRule;
    FoldSilent(f2, c, [], f3);
    FoldSilent(f1, b, [c], f2);
    FoldSilent(f0, a, [b, c], f1);
    hide FoldLines;
    assert [a] + [b, c] == [a, b, c] && [b] + [c] == [b, c] && [c] + [] == [c];
  }

  /** The lines of an item collect its fields and dispatch nothing yet. */
  lemma ItemLinesCollect(item: WireItem, id: string)
    requires ItemSendable(item)
    ensures FoldLines(Fields([], "", id), ItemLines(item))
         == ([], match item
                 case Event(evt) => Fields([evt.json], evt.kind, evt.id)
                 case KeepAlive(_) => Fields([], "", id))
    ensures LfFree(ItemLines(item))
  {
    hide LineRule, SetField;
    match item
    case KeepAlive(text) =>
      CommentIsIgnored(Fields([], "", id), text);
      FoldSilent(Fields([], "", id), ":" + text, [], Fields([], "", id));
      assert [":" + text] + [] == [":" + text];
    case Event(evt) =>
      var f0 := Fields([], "", id);
      var f1 := SetField(f0, "id", evt.id);
      var f2 := SetField(f1, "event", evt.kind);
      var a, b, c := "id: " + evt.id, "event: " + evt.kind, "data: " + evt.json;
      SpacedFieldIsSet(f0, "id", evt.id);
      SpacedFieldIsSet(f1, "event", evt.kind);
      SpacedFieldIsSet(f2, "data", evt.json);
      assert "id" + ": " == "id: " && "event" + ": " == "event: " && "data" + ": " == "data: ";
      SendableFieldsAreSet(evt, id);
      hide *;
      FoldThree(f0, a, b, c, f1, f2, SetField(f2, "data", evt.json));
  }

  lemma ItemFolds(item: WireItem, id: string)
    requires ItemSendable(item)
    ensures FoldLines(Fields([], "", id), ItemLines(item) + [""])
         == (ItemFrames(item), Fields([], "", IdAfter(id, item)))
  {
    ItemLinesCollect(item, id);
    FoldSnoc(Fields([], "", id), ItemLines(item), "");
    hide FoldLines, ItemLines;
    assert [] + ItemFrames(item) == ItemFrames(item);
  }

  /** One whole item yields its frame and returns to a state between items. */
  lemma WholeItemParses(item: WireItem, id: string)
    requires ItemSendable(item)
    ensures Push(Between(id), Write(item)) == (ItemFrames(item), Between(IdAfter(id, item)))
  {
    WriteIsLines(item);
    ItemLinesCollect(item, id);
    ItemFolds(item, id);
    hide Push, FoldLines, ItemLines, Write, Unlines, ItemFrames;
    assert "" + Write(item) == Unlines(ItemLines(item) + [""]) + "";
    PushFoldsLines(Between(id), Write(item), ItemLines(item) + [""], "");
  }

  lemma PrefixIsSilent(st: ParserState, text: string, k: nat)
    requires Push(st, text).0 == [] && k <= |text|
    ensures Push(st, text[..k]).0 == []
  {
    hide Push;
    PushIsChunkIndependent(st, text[..k], text[k..]);
    assert text == text[..k] + text[k..];
  }

  lemma ItemLinesAreSilent(item: WireItem, id: string)
    requires ItemSendable(item)
    ensures Push(Between(id), Unlines(ItemLines(item))).0 == []
  {
    ItemLinesCollect(item, id);
    hide Push, FoldLines, ItemLines, Unlines;
    var body := Unlines(ItemLines(item));
    assert "" + body == body + "";
    PushFoldsLines(Between(id), body, ItemLines(item), "");
  }

  /** A proper prefix of an item yields no frame. */
  lemma CutItemYieldsNothing(item: WireItem, id: string, k: nat)
    requires ItemSendable(item) && k < |Write(item)|
    ensures Push(Between(id), Write(item)[..k]).0 == []
  {
    WriteIsLines(item);
    ItemLinesAreSilent(item, id);
    hide *;
    var body := Unlines(ItemLines(item));
    assert Write(item)[..k] == body[..k];
    PrefixIsSilent(Between(id), body, k);
  }

  ghost predicate AllSendable(items: seq<WireItem>) {
    forall i :: 0 <= i < |items| ==> ItemSendable(items[i])
  }

  function IdAfterAll(id: string, items: seq<WireItem>): string {
    if items == [] then id else IdAfter(IdAfterAll(id, items[..|items| - 1]), items[|items| - 1])
  }

  lemma {:induction false} WholeItemsParse(items: seq<WireItem>, id: string)
    requires AllSendable(items)
    ensures Push(Between(id), WriteAll(items)) == (FramesOf(items), Between(IdAfterAll(id, items)))
  {
    hide Write, ItemSendable;
    if items == [] {
      DrainUnfinished(Fields([], "", id), "" + "");
    } else {
      hide Push;
      var front, last := items[..|items| - 1], items[|items| - 1];
      WholeItemsParse(front, id);
      WholeItemParses(last, IdAfterAll(id, front));
      PushIsChunkIndependent(Between(id), WriteAll(front), Write(last));
    }
  }

  lemma {:induction false} WriteAllAppends(a: seq<WireItem>, b: seq<WireItem>)
    ensures WriteAll(a + b) == WriteAll(a) + WriteAll(b)
  {
    hide Write;
    if b == [] {
      assert a + b == a;
      assert WriteAll(a) + "" == WriteAll(a);
    } else {
      assert (a + b)[..|a + b| - 1] == a + b[..|b| - 1];
      WriteAllAppends(a, b[..|b| - 1]);
    }
  }

  lemma CutInsideMiddle(a: string, b: string, c: string, cut: nat)
    requires |a| <= cut <= |a| + |b|
    ensures (a + b + c)[..cut] == a + b[..cut - |a|]
  {
  }

  lemma WriteAllSnoc(items: seq<WireItem>, n: nat)
    requires n < |items|
    ensures WriteAll(items[..n + 1]) == WriteAll(items[..n]) + Write(items[n])
  {
    hide Write;
    assert items[..n + 1][..n] == items[..n];
  }

  /** A stream around its `n`-th item. */
  lemma StreamAround(items: seq<WireItem>, n: nat)
    requires n < |items|
    ensures WriteAll(items[..n + 1]) == WriteAll(items[..n]) + Write(items[n])
    ensures WriteAll(items) == WriteAll(items[..n]) + Write(items[n]) + WriteAll(items[n + 1..])
  {
    hide *;
    WriteAllSnoc(items, n);
    assert items[..n + 1] + items[n + 1..] == items;
    WriteAllAppends(items[..n + 1], items[n + 1..]);
  }

  /**
   * The parser undoes the writer under truncation: cut the stream of any items
   * at any character, and the frames parsed so far are exactly those of the
   * events whose closing blank line is inside the cut.  `n` counts the items
   * that are completely inside it.
   */
  lemma TruncatedStreamParses(items: seq<WireItem>, cut: nat, n: nat)
    requires AllSendable(items) && cut <= |WriteAll(items)| && n <= |items|
    requires |WriteAll(items[..n])| <= cut
    requires n < |items| ==> cut < |WriteAll(items[..n + 1])|
    ensures Push(FRESH, WriteAll(items)[..cut]).0 == FramesOf(items[..n])
  {
    hide Write, Push, ItemSendable, FramesOf, WriteAll;
    var front := WriteAll(items[..n]);
    WholeItemsParse(items[..n], "");
    if n == |items| {
      assert items[..n] == items && WriteAll(items)[..cut] == front;
    } else {
      var item, k := items[n], cut - |front|;
      StreamAround(items, n);
      CutInsideMiddle(front, Write(item), WriteAll(items[n + 1..]), cut);
      CutItemYieldsNothing(item, IdAfterAll("", items[..n]), k);
      PushIsChunkIndependent(FRESH, front, Write(item)[..k]);
      assert FramesOf(items[..n]) + [] == FramesOf(items[..n]);
    }
  }

  /** The number of items completely inside a cut. */
  lemma {:induction false} CompleteItems(items: seq<WireItem>, cut: nat) returns (n: nat)
    requires cut <= |WriteAll(items)|
    ensures n <= |items| && |WriteAll(items[..n])| <= cut
    ensures n < |items| ==> cut < |WriteAll(items[..n + 1])|
  {
    hide Write;
    n := 0;
    while n < |items| && |WriteAll(items[..n + 1])| <= cut
      invariant n <= |items| && |WriteAll(items[..n])| <= cut
    {
      n := n + 1;
    }
  }
}

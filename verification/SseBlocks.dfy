/**
 * What a block of event-stream lines means, stated without reference to the
 * parser's state machine, and the proof that the parser finds that meaning.
 */
module SseBlocks {
  import opened SseParser

  /** One line as a sender may spell it. */
  datatype Line =
    | Field(name: string, value: string, spaced: bool)
    | Bare(name: string)
    | Comment(text: string)

  function Text(l: Line): string {
    match l
    case Field(name, value, spaced) => name + ":" + (if spaced then " " else "") + value
    case Bare(name) => name
    case Comment(text) => ":" + text
  }

  ghost predicate Clean(s: string) { LF !in s && (s == "" || s[|s| - 1] != CR) }

  ghost predicate WellFormed(l: Line) {
    && Clean(Text(l))
    && (!l.Comment? ==> l.name != "" && ':' !in l.name)
    && (l.Field? && !l.spaced ==> l.value == "" || l.value[0] != ' ')
  }

  /** The values a line gives to a field; a bare field name stands for the empty value. */
  function LineValues(l: Line, name: string): seq<string> {
    match l
    case Field(n, value, _) => if n == name then [value] else []
    case Bare(n) => if n == name then [""] else []
    case Comment(_) => []
  }

  /** The values given to a field by a block, in order. */
  function Values(block: seq<Line>, name: string): seq<string> {
    if block == [] then []
    else Values(block[..|block| - 1], name) + LineValues(block[|block| - 1], name)
  }

  function LastOr(xs: seq<string>, default: string): string {
    if xs == [] then default else xs[|xs| - 1]
  }

  function NulFree(xs: seq<string>): seq<string> {
    if xs == [] then []
    else NulFree(xs[..|xs| - 1]) + if NUL !in xs[|xs| - 1] then [xs[|xs| - 1]] else []
  }

  /** What a block collects: its data lines, its last event name, its last NUL-free id. */
  function Collected(block: seq<Line>, id: string): Fields {
    Fields(Values(block, "data"), LastOr(Values(block, "event"), ""), LastOr(NulFree(Values(block, "id")), id))
  }

  /** The frame a block dispatches: none without data, `message` without an event name. */
  function BlockFrames(block: seq<Line>, id: string): seq<SseFrame> {
    var c := Collected(block, id);
    if c.data == [] then []
    else [SseFrame(c.id, if c.eventName == "" then "message" else c.eventName, Join(c.data))]
  }

  function Ending(crlf: bool): string { if crlf then [CR] else "" }

  lemma EndingIsDropped(line: string, crlf: bool)
    requires Clean(line)
    ensures DropTrailingCr(line + Ending(crlf)) == line
  {
    var raw := line + Ending(crlf);
    if crlf {
      assert raw[..|raw| - 1] == line;
    } else {
      assert raw == line;
    }
  }

  lemma FieldSplits(name: string, value: string, spaced: bool)
    requires name != "" && ':' !in name && (spaced || value == "" || value[0] != ' ')
    ensures var line := Text(Field(name, value, spaced));
            && line != "" && line[0] != ':' && IndexOf(line, ':') == |name|
            && line[..|name|] == name && DropLeadingSpace(line[|name| + 1..]) == value
  {
    var line := Text(Field(name, value, spaced));
    assert line[0] == name[0];
    assert line[|name|] == ':' && forall k :: 0 <= k < |name| ==> line[k] == name[k];
    IndexOfIs(line, ':', |name|);
    assert line[..|name|] == name;
    if spaced {
      assert line[|name| + 1..] == " " + value;
      assert (" " + value)[1..] == value;
    } else {
      assert line[|name| + 1..] == value;
    }
  }

  /** The effect a line should have on the open event. */
  function LineMeaning(f: Fields, l: Line): Fields {
    match l
    case Field(name, value, _) => SetField(f, name, value)
    case Bare(name) => SetField(f, name, "")
    case Comment(_) => f
  }

  lemma LineRuleReadsLine(f: Fields, l: Line, crlf: bool)
    requires WellFormed(l)
    ensures LineRule(f, Text(l) + Ending(crlf)) == ([], LineMeaning(f, l))
  {
    EndingIsDropped(Text(l), crlf);
    hide Ending, DropTrailingCr, SetField;
    if l.Field? {
      FieldSplits(l.name, l.value, l.spaced);
      hide DropLeadingSpace, IndexOf, Text;
    }
  }

  lemma {:induction false} FoldSnoc(f: Fields, lines: seq<string>, line: string)
    ensures var a := FoldLines(f, lines);
            var b := LineRule(a.1, line);
            FoldLines(f, lines + [line]) == (a.0 + b.0, b.1)
    decreases lines
  {
    hide LineRule;
    var all := lines + [line];
    var a := FoldLines(f, lines);
    var b := LineRule(a.1, line);
    if lines == [] {
      assert all[1..] == [];
      assert FoldLines(b.1, []) == ([], b.1);
      assert b.0 + [] == [] + b.0;
    } else {
      assert all[1..] == lines[1..] + [line];
      FoldSnoc(LineRule(f, lines[0]).1, lines[1..], line);
      var first := LineRule(f, lines[0]).0;
      var rest := FoldLines(LineRule(f, lines[0]).1, lines[1..]).0;
      assert first + (rest + b.0) == first + rest + b.0;
    }
  }

  lemma NulFreeSnoc(xs: seq<string>, x: string)
    ensures NulFree(xs + [x]) == NulFree(xs) + if NUL !in x then [x] else []
  {
    assert (xs + [x])[..|xs|] == xs;
  }

  lemma ValuesSnoc(front: seq<Line>, l: Line, name: string)
    ensures Values(front + [l], name) == Values(front, name) + LineValues(l, name)
  {
    assert (front + [l])[..|front|] == front;
  }

  /** Adding a line to a block has the line's meaning. */
  lemma CollectedSnoc(front: seq<Line>, l: Line, id: string)
    ensures Collected(front + [l], id) == LineMeaning(Collected(front, id), l)
  {
    ValuesSnoc(front, l, "data");
    ValuesSnoc(front, l, "event");
    ValuesSnoc(front, l, "id");
    hide Values;
    var ids := Values(front, "id");
    assert ids + [] == ids && Values(front, "data") + [] == Values(front, "data");
    assert Values(front, "event") + [] == Values(front, "event");
    if !l.Comment? {
      var v := if l.Field? then l.value else "";
      NulFreeSnoc(ids, v);
      assert NulFree(ids) + [] == NulFree(ids);
    }
  }

  ghost predicate AllWellFormed(block: seq<Line>) { forall i :: 0 <= i < |block| ==> WellFormed(block[i]) }

  /** A block's lines as sent, without the closing blank line. */
  function RawLines(block: seq<Line>, crlf: seq<bool>): seq<string>
    requires |crlf| == |block|
  {
    if block == [] then []
    else
      var n := |block| - 1;
      RawLines(block[..n], crlf[..n]) + [Text(block[n]) + Ending(crlf[n])]
  }

  lemma BlockStep(front: seq<Line>, lines: seq<string>, l: Line, crlf: bool, id: string)
    requires WellFormed(l) && FoldLines(Fields([], "", id), lines) == ([], Collected(front, id))
    ensures FoldLines(Fields([], "", id), lines + [Text(l) + Ending(crlf)]) == ([], Collected(front + [l], id))
  {
    hide *;
    FoldSnoc(Fields([], "", id), lines, Text(l) + Ending(crlf));
    LineRuleReadsLine(Collected(front, id), l, crlf);
    CollectedSnoc(front, l, id);
    var none: seq<SseFrame> := [];
    assert none + none == none;
  }

  lemma {:induction false} BlockCollects(block: seq<Line>, crlf: seq<bool>, id: string)
    requires |crlf| == |block| && AllWellFormed(block)
    ensures FoldLines(Fields([], "", id), RawLines(block, crlf)) == ([], Collected(block, id))
  {
    hide Text, Ending, WellFormed, LineRule;
    if block != [] {
      hide FoldLines, Collected;
      var n := |block| - 1;
      var front, lines := block[..n], RawLines(block[..n], crlf[..n]);
      BlockCollects(front, crlf[..n], id);
      BlockStep(front, lines, block[n], crlf[n], id);
      assert block == front + [block[n]];
      assert RawLines(block, crlf) == lines + [Text(block[n]) + Ending(crlf[n])];
    }
  }

  lemma {:induction false} RawLinesAreLfFree(block: seq<Line>, crlf: seq<bool>)
    requires |crlf| == |block| && AllWellFormed(block)
    ensures LfFree(RawLines(block, crlf))
  {
    if block != [] {
      hide Text;
      RawLinesAreLfFree(block[..|block| - 1], crlf[..|block| - 1]);
    }
  }

  lemma BlockFolds(block: seq<Line>, crlf: seq<bool>, blankCrlf: bool, id: string)
    requires |crlf| == |block| && AllWellFormed(block)
    ensures FoldLines(Fields([], "", id), RawLines(block, crlf) + [Ending(blankCrlf)])
         == (BlockFrames(block, id), Fields([], "", Collected(block, id).id))
  {
    var lines := RawLines(block, crlf);
    BlockCollects(block, crlf, id);
    FoldSnoc(Fields([], "", id), lines, Ending(blankCrlf));
    hide FoldLines, RawLines, Collected;
    assert DropTrailingCr(Ending(blankCrlf)) == "";
    assert [] + BlockFrames(block, id) == BlockFrames(block, id);
  }

  /**
   * Whatever block of well-formed lines arrives, with LF or CRLF endings, the
   * parser dispatches exactly the frame the block means, and remembers its id.
   */
  lemma BlockDecodes(block: seq<Line>, crlf: seq<bool>, blankCrlf: bool, id: string)
    requires |crlf| == |block| && AllWellFormed(block)
    ensures Push(ParserState("", Fields([], "", id)), Unlines(RawLines(block, crlf) + [Ending(blankCrlf)]))
         == (BlockFrames(block, id), ParserState("", Fields([], "", Collected(block, id).id)))
  {
    var all := RawLines(block, crlf) + [Ending(blankCrlf)];
    BlockFolds(block, crlf, blankCrlf, id);
    RawLinesAreLfFree(block, crlf);
    assert LfFree(all);
    hide FoldLines, RawLines, Collected, BlockFrames, Unlines, Push, Ending, AllWellFormed;
    assert "" + Unlines(all) == Unlines(all) + "";
    PushFoldsLines(ParserState("", Fields([], "", id)), Unlines(all), all, "");
  }
}

/**
 * The dashboard's incremental event-stream parser, and the proof that it works
 * line by line however the stream is cut into chunks.
 */
module SseParser {
  import opened Prelude

  const LF := '\n'
  const CR := '\r'
  const NUL := '\0'

  datatype SseFrame = SseFrame(id: string, event: string, data: string)

  /** The fields of the event being collected; `id` persists from event to event. */
  datatype Fields = Fields(data: seq<string>, eventName: string, id: string)

  /** The parser between two pushes: the unfinished line and the open event. */
  datatype ParserState = ParserState(buffer: string, fields: Fields)

  const FRESH := ParserState("", Fields([], "", ""))

  /** The first position of `c` in `s`, or -1. */
  function IndexOf(s: string, c: char): (i: int)
    ensures -1 <= i < |s|
    ensures i >= 0 ==> s[i] == c && forall k :: 0 <= k < i ==> s[k] != c
    ensures i == -1 <==> c !in s
  {
    if s == "" then -1
    else if s[0] == c then 0
    else
      var i := IndexOf(s[1..], c);
      assert forall k :: 0 < k < |s| ==> s[k] == s[1..][k - 1];
      if i == -1 then -1 else i + 1
  }

  lemma IndexOfIs(s: string, c: char, i: nat)
    requires i < |s| && s[i] == c && forall k :: 0 <= k < i ==> s[k] != c
    ensures IndexOf(s, c) == i
  {
  }

  /** Data lines are joined by line feeds. */
  function Join(lines: seq<string>): string {
    if lines == [] then ""
    else if |lines| == 1 then lines[0]
    else lines[0] + [LF] + Join(lines[1..])
  }

  function DropTrailingCr(line: string): string {
    if line != "" && line[|line| - 1] == CR then line[..|line| - 1] else line
  }

  function DropLeadingSpace(value: string): string {
    if value != "" && value[0] == ' ' then value[1..] else value
  }

  function Dispatch(f: Fields): (seq<SseFrame>, Fields) {
    if f.data == [] then ([], f.(eventName := ""))
    else ([SseFrame(f.id, if f.eventName == "" then "message" else f.eventName, Join(f.data))],
          f.(data := [], eventName := ""))
  }

  function SetField(f: Fields, field: string, value: string): Fields {
    if field == "data" then f.(data := f.data + [value])
    else if field == "event" then f.(eventName := value)
    else if field == "id" && NUL !in value then f.(id := value)
    else f
  }

  /** The effect of one complete line, given without its line feed. */
  function LineRule(f: Fields, rawLine: string): (seq<SseFrame>, Fields) {
    var line := DropTrailingCr(rawLine);
    if line == "" then Dispatch(f)
    else if line[0] == ':' then ([], f)
    else
      var colon := IndexOf(line, ':');
      var field := if colon == -1 then line else line[..colon];
      var value := if colon == -1 then "" else line[colon + 1..];
      ([], SetField(f, field, DropLeadingSpace(value)))
  }

  /** Consumes every complete line of `text`. */
  function Drain(f: Fields, text: string): (seq<SseFrame>, ParserState)
    decreases |text|
  {
    var nl := IndexOf(text, LF);
    if nl < 0 then ([], ParserState(text, f))
    else
      var (frames, next) := LineRule(f, text[..nl]);
      var (more, end) := Drain(next, text[nl + 1..]);
      (frames + more, end)
  }

  function Push(st: ParserState, chunk: string): (seq<SseFrame>, ParserState) {
    Drain(st.fields, st.buffer + chunk)
  }

  lemma DrainUnfinished(f: Fields, text: string)
    requires LF !in text
    ensures Drain(f, text) == ([], ParserState(text, f))
  {
  }

  lemma DrainOneLine(f: Fields, line: string, tail: string)
    requires LF !in line
    ensures var step := LineRule(f, line);
            var d := Drain(step.1, tail);
            Drain(f, line + [LF] + tail) == (step.0 + d.0, d.1)
  {
    hide LineRule;
    var text := line + [LF] + tail;
    IndexOfIs(text, LF, |line|);
    assert text[..|line|] == line && text[|line| + 1..] == tail;
  }

  /** A text with a line feed is its first line, that line feed, and the rest. */
  lemma FirstLine(text: string) returns (line: string, tail: string)
    requires LF in text
    ensures LF !in line && text == line + [LF] + tail
  {
    var nl := IndexOf(text, LF);
    line, tail := text[..nl], text[nl + 1..];
  }

  class Parser {
    var buffer: string
    var data: seq<string>
    var eventName: string
    var id: string

    ghost function Open(): Fields
      reads this
    {
      Fields(data, eventName, id)
    }

    ghost function State(): ParserState
      reads this
    {
      ParserState(buffer, Open())
    }

    constructor ()
      ensures State() == FRESH
    {
      buffer, data, eventName, id := "", [], "", "";
    }

    method PushChunk(chunk: string) returns (frames: seq<SseFrame>)
      modifies this
      ensures (frames, State()) == Push(old(State()), chunk)
    {
      hide Drain, LineRule, IndexOf;
      buffer := buffer + chunk;
      frames := [];
      ghost var whole := Drain(Open(), buffer);
      assert frames + whole.0 == whole.0;
      var nl := IndexOf(buffer, LF);
      while nl >= 0
        invariant nl == IndexOf(buffer, LF)
        invariant var d := Drain(Open(), buffer); whole == (frames + d.0, d.1)
        decreases |buffer|
      {
        var line := buffer[..nl];
        ghost var tail := buffer[nl + 1..];
        ghost var step := LineRule(Open(), line);
        assert buffer == line + [LF] + tail;
        DrainOneLine(Open(), line, tail);
        assert frames + (step.0 + Drain(step.1, tail).0) == frames + step.0 + Drain(step.1, tail).0;
        buffer := buffer[nl + 1..];
        var frame := ApplyLine(line);
        frames := frames + if frame.Some? then [frame.value] else [];
        nl := IndexOf(buffer, LF);
      }
      DrainUnfinished(Open(), buffer);
      assert frames + [] == frames;
    }

    /** The body of the parsing loop: one line, its line feed already removed. */
    method ApplyLine(rawLine: string) returns (frame: Option<SseFrame>)
      modifies this
      ensures buffer == old(buffer)
      ensures LineRule(old(Open()), rawLine) == (if frame.Some? then [frame.value] else [], Open())
    {
      var line := rawLine;
      frame := None;
      if line != "" && line[|line| - 1] == CR {
        line := line[..|line| - 1];
      }
      if line == "" {
        frame := DispatchFrame();
      } else if line[0] == ':' {
        // a comment or keep-alive
      } else {
        var colon := IndexOf(line, ':');
        var field := if colon == -1 then line else line[..colon];
        var value := if colon == -1 then "" else line[colon + 1..];
        if value != "" && value[0] == ' ' {
          value := value[1..];
        }
        if field == "data" {
          data := data + [value];
        } else if field == "event" {
          eventName := value;
        } else if field == "id" && NUL !in value {
          id := value;
        }
      }
    }

    method DispatchFrame() returns (frame: Option<SseFrame>)
      modifies this
      ensures buffer == old(buffer)
      ensures Dispatch(old(Open())) == (if frame.Some? then [frame.value] else [], Open())
    {
      if |data| == 0 {
        eventName := "";
        return None;
      }
      frame := Some(SseFrame(id, if eventName == "" then "message" else eventName, Join(data)));
      data := [];
      eventName := "";
    }
  }

  // ----- parsing does not depend on chunking -----

  lemma {:induction false} DrainThenMore(f: Fields, text: string, more: string)
    ensures var d := Drain(f, text);
            var e := Drain(d.1.fields, d.1.buffer + more);
            Drain(f, text + more) == (d.0 + e.0, e.1)
    decreases |text|
  {
    hide *;
    if LF !in text {
      DrainUnfinished(f, text);
      var e := Drain(f, text + more);
      assert [] + e.0 == e.0;
    } else {
      var line, tail := FirstLine(text);
      DrainOneLine(f, line, tail);
      DrainOneLine(f, line, tail + more);
      assert text + more == line + [LF] + (tail + more);
      var step := LineRule(f, line);
      DrainThenMore(step.1, tail, more);
      var d := Drain(step.1, tail);
      var e := Drain(d.1.fields, d.1.buffer + more);
      assert step.0 + (d.0 + e.0) == step.0 + d.0 + e.0;
    }
  }

  /** From any state, two chunks give the same frames and state as their concatenation. */
  lemma PushIsChunkIndependent(st: ParserState, a: string, b: string)
    ensures var (fa, mid) := Push(st, a);
            var (fb, end) := Push(mid, b);
            Push(st, a + b) == (fa + fb, end)
  {
    hide Drain;
    DrainThenMore(st.fields, st.buffer + a, b);
    assert st.buffer + a + b == st.buffer + (a + b);
  }

  function Concat(chunks: seq<string>): string {
    if chunks == [] then "" else Concat(chunks[..|chunks| - 1]) + chunks[|chunks| - 1]
  }

  /** Feeding chunks one by one. */
  function PushAll(st: ParserState, chunks: seq<string>): (seq<SseFrame>, ParserState) {
    if chunks == [] then ([], st)
    else
      var (frames, mid) := PushAll(st, chunks[..|chunks| - 1]);
      var (more, end) := Push(mid, chunks[|chunks| - 1]);
      (frames + more, end)
  }

  /** Every partition of a stream parses alike; `st` is a state between two pushes. */
  lemma {:induction false} EveryPartitionParsesAlike(st: ParserState, chunks: seq<string>)
    requires LF !in st.buffer
    ensures PushAll(st, chunks) == Push(st, Concat(chunks))
  {
    if chunks == [] {
      assert st.buffer + "" == st.buffer;
    } else {
      EveryPartitionParsesAlike(st, chunks[..|chunks| - 1]);
      PushIsChunkIndependent(st, Concat(chunks[..|chunks| - 1]), chunks[|chunks| - 1]);
    }
  }

  // ----- parsing is a fold of the line rule over the LF-split stream -----

  function Unlines(lines: seq<string>): string {
    if lines == [] then "" else lines[0] + [LF] + Unlines(lines[1..])
  }

  function FoldLines(f: Fields, lines: seq<string>): (seq<SseFrame>, Fields)
    decreases lines
  {
    if lines == [] then ([], f)
    else
      var (frames, next) := LineRule(f, lines[0]);
      var (more, end) := FoldLines(next, lines[1..]);
      (frames + more, end)
  }

  ghost predicate LfFree(lines: seq<string>) { forall i :: 0 <= i < |lines| ==> LF !in lines[i] }

  /**
   * However the text is split at its line feeds, the parser folds the line rule
   * over the complete lines and keeps the unfinished one.
   */
  lemma {:induction false} DrainFoldsLines(f: Fields, lines: seq<string>, rest: string)
    requires LfFree(lines) && LF !in rest
    ensures var (frames, end) := FoldLines(f, lines);
            Drain(f, Unlines(lines) + rest) == (frames, ParserState(rest, end))
    decreases lines
  {
    var text := Unlines(lines) + rest;
    if lines == [] {
      assert text == rest;
      DrainUnfinished(f, rest);
    } else {
      var tail := Unlines(lines[1..]) + rest;
      assert text == lines[0] + [LF] + tail;
      DrainOneLine(f, lines[0], tail);
      DrainFoldsLines(LineRule(f, lines[0]).1, lines[1..], rest);
    }
  }

  lemma PushFoldsLines(st: ParserState, chunk: string, lines: seq<string>, rest: string)
    requires LfFree(lines) && LF !in rest
    requires st.buffer + chunk == Unlines(lines) + rest
    ensures var (frames, end) := FoldLines(st.fields, lines);
            Push(st, chunk) == (frames, ParserState(rest, end))
  {
    DrainFoldsLines(st.fields, lines, rest);
  }

  /** Such a split always exists. */
  lemma {:induction false} EveryTextSplits(s: string) returns (lines: seq<string>, rest: string)
    ensures LfFree(lines) && LF !in rest && s == Unlines(lines) + rest
    decreases |s|
  {
    if LF !in s {
      return [], s;
    }
    var line, tail := FirstLine(s);
    lines, rest := EveryTextSplits(tail);
    lines := [line] + lines;
    assert lines[1..] == lines[1..];
    assert s == line + [LF] + tail;
  }
}

/**
 * Exactly which events survive the trip from the broker's writer to the
 * dashboard's parser: those whose fields hold no line feed and end in no
 * carriage return, whose id holds no NUL and whose type is not empty.
 */
module SseExactness {
  import opened SseParser
  import opened SseBlocks
  import opened SseWire

  // ----- ids and event names that the parser can produce -----

  ghost predicate Producible(f: Fields) { LF !in f.id && NUL !in f.id && LF !in f.eventName }

  ghost predicate ProducibleFrames(frames: seq<SseFrame>) {
    forall i :: 0 <= i < |frames| ==>
      LF !in frames[i].id && NUL !in frames[i].id && LF !in frames[i].event && frames[i].event != ""
  }

  lemma SetFieldProduces(f: Fields, field: string, value: string)
    requires Producible(f) && LF !in value
    ensures Producible(SetField(f, field, value))
  {
  }

  lemma DispatchProduces(f: Fields)
    requires Producible(f)
    ensures Producible(Dispatch(f).1) && ProducibleFrames(Dispatch(f).0)
  {
    assert LF !in "message";
  }

  lemma LineRuleProduces(f: Fields, line: string)
    requires Producible(f) && LF !in line
    ensures Producible(LineRule(f, line).1) && ProducibleFrames(LineRule(f, line).0)
  {
    hide Producible, ProducibleFrames, SetField, Dispatch, IndexOf;
    DispatchProduces(f);
    NoFramesProducible();
    var l := DropTrailingCr(line);
    var colon := IndexOf(l, ':');
    var value := DropLeadingSpace(if colon == -1 then "" else l[colon + 1..]);
    assert forall c :: c in value ==> c in line;
    SetFieldProduces(f, if colon == -1 then l else l[..colon], value);
  }

  lemma NoFramesProducible()
    ensures ProducibleFrames([])
  {
  }

  lemma {:induction false} DrainProduces(f: Fields, text: string)
    requires Producible(f)
    ensures Producible(Drain(f, text).1.fields) && ProducibleFrames(Drain(f, text).0)
    decreases |text|
  {
    hide Drain, LineRule, Producible;
    if LF !in text {
      DrainUnfinished(f, text);
    } else {
      var line, tail := FirstLine(text);
      DrainOneLine(f, line, tail);
      LineRuleProduces(f, line);
      DrainProduces(LineRule(f, line).1, tail);
    }
  }

  // ----- how much data a text can carry -----

  function Weight(data: seq<string>): nat {
    if data == [] then 0 else |data[0]| + 1 + Weight(data[1..])
  }

  function FrameWeight(frames: seq<SseFrame>): nat {
    if frames == [] then 0 else |frames[0].data| + 1 + FrameWeight(frames[1..])
  }

  lemma {:induction false} JoinWeighs(data: seq<string>)
    requires data != []
    ensures |Join(data)| + 1 == Weight(data)
    decreases data
  {
    if |data| == 1 {
      assert data[1..] == [];
    } else {
      JoinWeighs(data[1..]);
    }
  }

  lemma {:induction false} WeightSnoc(data: seq<string>, d: string)
    ensures Weight(data + [d]) == Weight(data) + |d| + 1
    decreases data
  {
    var all := data + [d];
    if data == [] {
      assert all[1..] == [];
    } else {
      assert all[1..] == data[1..] + [d];
      WeightSnoc(data[1..], d);
    }
  }

  lemma {:induction false} FrameWeightAppends(a: seq<SseFrame>, b: seq<SseFrame>)
    ensures FrameWeight(a + b) == FrameWeight(a) + FrameWeight(b)
    decreases a
  {
    if a == [] {
      assert a + b == b;
    } else {
      assert (a + b)[1..] == a[1..] + b;
      FrameWeightAppends(a[1..], b);
    }
  }

  function Gain(length: nat): nat { if length >= 4 then length - 4 else 0 }

  lemma SetFieldGains(f: Fields, field: string, value: string, length: nat)
    requires field == "data" ==> |value| + 4 <= length
    ensures Weight(SetField(f, field, value).data) <= Weight(f.data) + Gain(length + 1)
  {
    WeightSnoc(f.data, value);
  }

  /** A line adds at most its length less the four letters of `data`. */
  lemma LineGains(f: Fields, rawLine: string)
    ensures var step := LineRule(f, rawLine);
            FrameWeight(step.0) + Weight(step.1.data) <= Weight(f.data) + Gain(|rawLine| + 1)
  {
    var line := DropTrailingCr(rawLine);
    if line == "" {
      if f.data != [] {
        JoinWeighs(f.data);
        assert Dispatch(f).0[1..] == [];
      }
    } else if line[0] != ':' {
      var colon := IndexOf(line, ':');
      var field := if colon == -1 then line else line[..colon];
      var value := DropLeadingSpace(if colon == -1 then "" else line[colon + 1..]);
      hide IndexOf, Weight;
      SetFieldGains(f, field, value, |line|);
    }
  }

  lemma {:induction false} TextGains(f: Fields, text: string)
    ensures var d := Drain(f, text);
            FrameWeight(d.0) + Weight(d.1.fields.data) <= Weight(f.data) + Gain(|text|)
    decreases |text|
  {
    hide Drain, LineRule, Weight;
    if LF !in text {
      DrainUnfinished(f, text);
    } else {
      var line, tail := FirstLine(text);
      var step := LineRule(f, line);
      DrainOneLine(f, line, tail);
      LineGains(f, line);
      TextGains(step.1, tail);
      FrameWeightAppends(step.0, Drain(step.1, tail).0);
    }
  }

  // ----- the exact condition -----

  lemma TrailingCrOfSpacedLine(name: string, v: string)
    ensures DropTrailingCr(name + ": " + v) == name + ": " + DropTrailingCr(v)
  {
    var line := name + ": " + v;
    assert line[|line| - 1] == if v == "" then ' ' else v[|v| - 1];
    if v != "" && v[|v| - 1] == CR {
      assert line[..|line| - 1] == name + ": " + v[..|v| - 1];
    }
  }

  lemma SpacedText(name: string, w: string)
    ensures Text(Field(name, w, true)) == name + ": " + w
  {
  }

  /** A `name: value` line sets the field to the value less one trailing carriage return. */
  lemma SpacedLineSets(f: Fields, name: string, v: string)
    requires name != "" && ':' !in name
    ensures LineRule(f, name + ": " + v) == ([], SetField(f, name, DropTrailingCr(v)))
  {
    var w := DropTrailingCr(v);
    TrailingCrOfSpacedLine(name, v);
    SpacedText(name, w);
    FieldSplits(name, w, true);
    hide IndexOf, SetField, DropTrailingCr, DropLeadingSpace, Text;
    assert DropTrailingCr(name + ": " + v) == Text(Field(name, w, true));
  }

  /** The open event once the id and type lines of a written event have been read. */
  function AfterHead(e: WireEvent): Fields {
    SetField(SetField(FRESH.fields, "id", DropTrailingCr(e.id)), "event", DropTrailingCr(e.kind))
  }

  lemma WrittenHead(e: WireEvent)
    ensures Write(Event(e)) == "id: " + e.id + [LF] + ("event: " + e.kind + [LF] + ("data: " + e.json + "\n\n"))
  {
    assert "\nevent: " == [LF] + "event: " && "\ndata: " == [LF] + "data: ";
    Regroup("id: " + e.id, "event: ", e.kind, "data: ", e.json, "\n\n");
  }

  lemma Regroup(a: string, b: string, k: string, c: string, j: string, end: string)
    ensures a + ([LF] + b) + k + ([LF] + c) + j + end == a + [LF] + (b + k + [LF] + (c + j + end))
  {
  }

  /** A silent line in front only changes the open event. */
  lemma DrainSilentLine(f: Fields, line: string, tail: string, g: Fields)
    requires LF !in line && LineRule(f, line) == ([], g)
    ensures Drain(f, line + [LF] + tail) == Drain(g, tail)
  {
    DrainOneLine(f, line, tail);
    hide LineRule, Drain;
    var d := Drain(g, tail);
    assert [] + d.0 == d.0;
  }

  lemma HeadIsRead(e: WireEvent)
    requires LF !in e.id && LF !in e.kind
    ensures Push(FRESH, Write(Event(e))) == Drain(AfterHead(e), "data: " + e.json + "\n\n")
  {
    WrittenHead(e);
    hide Write, LineRule, SetField, Drain, DropTrailingCr;
    var a, b, c := "id: " + e.id, "event: " + e.kind, "data: " + e.json + "\n\n";
    var f1 := SetField(FRESH.fields, "id", DropTrailingCr(e.id));
    assert "id" + ": " == "id: " && "event" + ": " == "event: ";
    SpacedLineSets(FRESH.fields, "id", e.id);
    SpacedLineSets(f1, "event", e.kind);
    DrainSilentLine(FRESH.fields, a, b + [LF] + c, f1);
    DrainSilentLine(f1, b, c, AfterHead(e));
    assert "" + Write(Event(e)) == Write(Event(e));
  }

  lemma DataLineIsRead(f: Fields, x: string, tail: string)
    requires LF !in x
    ensures Drain(f, "data: " + x + [LF] + tail) == Drain(SetField(f, "data", DropTrailingCr(x)), tail)
  {
    assert "data" + ": " == "data: ";
    SpacedLineSets(f, "data", x);
    hide LineRule, Drain, SetField, DropTrailingCr;
    DrainSilentLine(f, "data: " + x, tail, SetField(f, "data", DropTrailingCr(x)));
  }

  /** The event open after a data line, starting from an event without data. */
  lemma WithData(f: Fields, x: string)
    requires f.data == []
    ensures SetField(f, "data", DropTrailingCr(x)).data == [DropTrailingCr(x)]
    ensures Weight([DropTrailingCr(x)]) <= |x| + 1
  {
    assert [DropTrailingCr(x)][1..] == [];
  }

  lemma OneFrameWeighs(frame: SseFrame)
    ensures FrameWeight([frame]) == |frame.data| + 1
  {
    assert [frame][1..] == [];
  }

  lemma SplitJson(json: string, x: string, y: string)
    requires json == x + [LF] + y
    ensures "data: " + json + "\n\n" == "data: " + x + [LF] + (y + "\n\n")
  {
  }

  /** JSON with a line feed never comes back whole: too little of the rest can be data. */
  lemma BrokenJsonIsLost(e: WireEvent)
    requires LF !in e.id && LF !in e.kind && LF in e.json
    ensures Push(FRESH, Write(Event(e))).0 != [FrameOf(e)]
  {
    HeadIsRead(e);
    assert AfterHead(e).data == [];
    hide AfterHead, Write, Push, Drain, SetField, Weight, FrameWeight, DropTrailingCr;
    var x, y := FirstLine(e.json);
    SplitJson(e.json, x, y);
    DataLineIsRead(AfterHead(e), x, y + "\n\n");
    WithData(AfterHead(e), x);
    TextGains(SetField(AfterHead(e), "data", DropTrailingCr(x)), y + "\n\n");
    OneFrameWeighs(FrameOf(e));
  }

  /** What comes back when no field holds a line feed. */
  function ReadBack(e: WireEvent): SseFrame {
    SseFrame(if NUL !in DropTrailingCr(e.id) then DropTrailingCr(e.id) else "",
             if DropTrailingCr(e.kind) == "" then "message" else DropTrailingCr(e.kind),
             DropTrailingCr(e.json))
  }

  lemma BlankLineDispatches(f: Fields)
    ensures Drain(f, "\n").0 == Dispatch(f).0
  {
    assert "\n" == "" + [LF] + "";
    DrainOneLine(f, "", "");
    DrainUnfinished(LineRule(f, "").1, "");
    hide Drain;
    assert Dispatch(f).0 + [] == Dispatch(f).0;
  }

  lemma ReadBackIsDispatched(e: WireEvent)
    ensures Dispatch(SetField(AfterHead(e), "data", DropTrailingCr(e.json))).0 == [ReadBack(e)]
  {
    hide DropTrailingCr;
  }

  lemma DataThenBlank(json: string)
    ensures "data: " + json + "\n\n" == "data: " + json + [LF] + "\n"
  {
  }

  lemma UnbrokenEventParses(e: WireEvent)
    requires LF !in e.id && LF !in e.kind && LF !in e.json
    ensures Push(FRESH, Write(Event(e))).0 == [ReadBack(e)]
  {
    hide *;
    HeadIsRead(e);
    ReadBackIsDispatched(e);
    DataThenBlank(e.json);
    DataLineIsRead(AfterHead(e), e.json, "\n");
    BlankLineDispatches(SetField(AfterHead(e), "data", DropTrailingCr(e.json)));
  }

  lemma DropTrailingCrIsIdentity(s: string)
    requires LF !in s
    ensures DropTrailingCr(s) == s <==> Clean(s)
  {
  }

  /** A fresh parser gives a written event back exactly when the event is sendable. */
  lemma RoundTripsIffSendable(e: WireEvent)
    ensures Push(FRESH, Write(Event(e))).0 == [FrameOf(e)] <==> Sendable(e)
  {
    var frames := Push(FRESH, Write(Event(e))).0;
    DrainProduces(FRESH.fields, "" + Write(Event(e)));
    assert ProducibleFrames(frames);
    hide Push, Write;
    if frames == [FrameOf(e)] {
      assert frames[0] == FrameOf(e);
    }
    if frames == [FrameOf(e)] || Sendable(e) {
      assert LF !in e.id && LF !in e.kind && NUL !in e.id && e.kind != "";
      if LF in e.json {
        BrokenJsonIsLost(e);
      } else {
        UnbrokenEventParses(e);
        assert frames[0] == ReadBack(e);
        DropTrailingCrIsIdentity(e.id);
        DropTrailingCrIsIdentity(e.kind);
        DropTrailingCrIsIdentity(e.json);
      }
    }
  }
}

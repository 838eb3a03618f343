/**
 * The live half of the realtime streams.  One API process has a single Redis
 * subscriber for all its open streams: opening a stream subscribes its channels,
 * closing it unsubscribes them, and every message the subscriber receives is
 * written to every open stream.
 */
module LiveFeed {
  import opened RetainedList

  /** An event as published on a tenant's channel. */
  datatype Message = Message(channel: string, event: RealtimeEvent)

  /** The subscriber's channels, and the channels each open stream asked for. */
  datatype Process = Process(subscribed: set<string>, open: map<nat, set<string>>)

  datatype LiveStep = Open(id: nat, channels: set<string>) | Publish(m: Message) | Close(id: nat)

  const IDLE := Process({}, map[])

  predicate Enabled(p: Process, step: LiveStep) {
    match step
    case Open(id, _) => id !in p.open
    case Publish(_) => true
    case Close(id) => id in p.open
  }

  function Apply(p: Process, step: LiveStep): Process
    requires Enabled(p, step)
  {
    match step
    case Open(id, channels) => Process(p.subscribed + channels, p.open[id := channels])
    case Publish(_) => p
    case Close(id) => Process(p.subscribed - p.open[id], p.open - {id})
  }

  predicate Legal(p: Process, steps: seq<LiveStep>)
    decreases steps
  {
    steps == [] || (Enabled(p, steps[0]) && Legal(Apply(p, steps[0]), steps[1..]))
  }

  function Exec(p: Process, steps: seq<LiveStep>): Process
    requires Legal(p, steps)
    decreases steps
  {
    if steps == [] then p else Exec(Apply(p, steps[0]), steps[1..])
  }

  /** What a step writes to an open stream: whatever the process is subscribed to. */
  predicate Feeds(p: Process, step: LiveStep, id: nat) { step.Publish? && id in p.open && step.m.channel in p.subscribed }

  /** What it should write: the messages of the stream's own channels. */
  predicate Concerns(p: Process, step: LiveStep, id: nat) { step.Publish? && id in p.open && step.m.channel in p.open[id] }

  /** The messages written to a stream during a run. */
  function Fed(p: Process, steps: seq<LiveStep>, id: nat): seq<Message>
    requires Legal(p, steps)
    decreases steps
  {
    if steps == [] then [] else
      (if Feeds(p, steps[0], id) then [steps[0].m] else []) + Fed(Apply(p, steps[0]), steps[1..], id)
  }

  /** The messages of the stream's own channels during a run. */
  function Own(p: Process, steps: seq<LiveStep>, id: nat): seq<Message>
    requires Legal(p, steps)
    decreases steps
  {
    if steps == [] then [] else
      (if Concerns(p, steps[0], id) then [steps[0].m] else []) + Own(Apply(p, steps[0]), steps[1..], id)
  }

  /** The opens and closes of a run, without what is published in between. */
  function Control(steps: seq<LiveStep>): seq<LiveStep> {
    if steps == [] then [] else (if steps[0].Publish? then [] else [steps[0]]) + Control(steps[1..])
  }

  /**
   * The opens and closes that leave a stream alone while it is open: streams that
   * open ask for none but its channels, streams that close share none with it.
   */
  predicate LeavesAlone(p: Process, step: LiveStep, id: nat)
    requires Enabled(p, step) && id in p.open
  {
    match step
    case Open(_, channels) => channels <= p.open[id]
    case Publish(_) => true
    case Close(other) => other == id || p.open[other] !! p.open[id]
  }

  predicate LeftAlone(p: Process, steps: seq<LiveStep>, id: nat)
    requires Legal(p, steps)
    decreases steps
  {
    steps == [] || id !in p.open || (LeavesAlone(p, steps[0], id) && LeftAlone(Apply(p, steps[0]), steps[1..], id))
  }

  /** The process is subscribed to exactly the stream's channels, if the stream is open. */
  predicate Exact(p: Process, id: nat) { id in p.open ==> p.subscribed == p.open[id] }

  /** In every state of a run. */
  predicate AlwaysExact(p: Process, steps: seq<LiveStep>, id: nat)
    requires Legal(p, steps)
    decreases steps
  {
    Exact(p, id) && (steps == [] || AlwaysExact(Apply(p, steps[0]), steps[1..], id))
  }

  // ----- opens and closes against subscriptions -----

  /** A stream finds the process subscribed to exactly its channels when nothing else was subscribed before. */
  lemma OpensExactlyIff(p: Process, id: nat, channels: set<string>)
    requires Enabled(p, Open(id, channels))
    ensures Exact(Apply(p, Open(id, channels)), id) <==> p.subscribed <= channels
  {
    assert p.subscribed <= channels ==> p.subscribed + channels == channels;
    assert p.subscribed <= p.subscribed + channels;
  }

  lemma StepStaysExactIff(p: Process, step: LiveStep, id: nat)
    requires Enabled(p, step) && id in p.open && Exact(p, id)
    ensures Exact(Apply(p, step), id) <==> LeavesAlone(p, step, id)
  {
    match step
    case Open(_, channels) =>
      assert channels <= p.subscribed ==> p.subscribed + channels == p.subscribed;
      assert channels <= p.subscribed + channels;
    case Publish(_) =>
    case Close(other) =>
      assert p.open[other] !! p.subscribed ==> p.subscribed - p.open[other] == p.subscribed;
      assert forall ch :: ch in p.open[other] ==> ch !in p.subscribed - p.open[other];
  }

  lemma {:induction false} ClosedIsExact(p: Process, steps: seq<LiveStep>, id: nat)
    requires Legal(p, steps) && id !in p.open && NoReopening(steps, id)
    ensures AlwaysExact(p, steps, id)
    decreases steps
  {
    if steps != [] {
      assert steps[0] in steps && forall x :: x in steps[1..] ==> x in steps;
      ClosedIsExact(Apply(p, steps[0]), steps[1..], id);
    }
  }

  /** Stream ids are not used twice. */
  predicate NoReopening(steps: seq<LiveStep>, id: nat) { forall x :: x in steps && x.Open? ==> x.id != id }

  /**
   * While a stream is open the process stays subscribed to exactly its channels
   * if and only if it was when the stream opened, and every later open and close
   * leaves the stream alone.
   */
  lemma {:induction false} StaysExactIff(p: Process, steps: seq<LiveStep>, id: nat)
    requires Legal(p, steps) && id in p.open && NoReopening(steps, id)
    ensures AlwaysExact(p, steps, id) <==> Exact(p, id) && LeftAlone(p, steps, id)
    decreases steps
  {
    hide Apply, Enabled, LeavesAlone, Exact;
    if steps != [] && Exact(p, id) {
      var next := Apply(p, steps[0]);
      assert steps[0] in steps && forall x :: x in steps[1..] ==> x in steps;
      StepStaysExactIff(p, steps[0], id);
      if id in next.open {
        StaysExactIff(next, steps[1..], id);
      } else {
        ClosedIsExact(next, steps[1..], id);
        ClosedStaysAlone(next, steps[1..], id);
        NotOpenIsExact(next, id);
      }
    }
  }

  lemma ClosedStaysAlone(p: Process, steps: seq<LiveStep>, id: nat)
    requires Legal(p, steps) && id !in p.open
    ensures LeftAlone(p, steps, id)
  {
  }

  lemma NotOpenIsExact(p: Process, id: nat)
    requires id !in p.open
    ensures Exact(p, id)
  {
  }

  // ----- opens and closes against the feed -----

  /** A stream that is left alone is fed its own messages, whatever is published. */
  lemma {:induction false} LeftAloneIsFedItsOwn(p: Process, steps: seq<LiveStep>, id: nat)
    requires Legal(p, steps) && Exact(p, id) && LeftAlone(p, steps, id) && NoReopening(steps, id)
    ensures Fed(p, steps, id) == Own(p, steps, id)
    decreases steps
  {
    if steps != [] {
      var next, rest := Apply(p, steps[0]), steps[1..];
      assert steps[0] in steps && forall x :: x in rest ==> x in steps;
      if id in p.open {
        StepStaysExactIff(p, steps[0], id);
        if id !in next.open {
          ClosedStaysAlone(next, rest, id);
        }
      }
      LeftAloneIsFedItsOwn(next, rest, id);
    }
  }

  lemma {:induction false} ControlDecidesLeftAlone(p: Process, steps: seq<LiveStep>, id: nat)
    requires Legal(p, steps)
    ensures Legal(p, Control(steps)) && LeftAlone(p, Control(steps), id) == LeftAlone(p, steps, id)
    decreases steps
  {
    if steps != [] {
      ControlDecidesLeftAlone(Apply(p, steps[0]), steps[1..], id);
      var rest := Control(steps[1..]);
      if steps[0].Publish? {
        assert [] + rest == rest;
      } else {
        assert ([steps[0]] + rest)[1..] == rest;
      }
    }
  }

  lemma ControlKeepsOpens(steps: seq<LiveStep>, id: nat)
    requires NoReopening(Control(steps), id)
    ensures NoReopening(steps, id)
  {
    if steps != [] {
      var rest := Control(steps[1..]);
      assert forall x :: x in rest ==> x in Control(steps);
      assert !steps[0].Publish? ==> Control(steps)[0] == steps[0];
      ControlKeepsOpens(steps[1..], id);
      assert forall x :: x in steps ==> x == steps[0] || x in steps[1..];
    }
  }

  lemma {:induction false} NothingPublished(p: Process, steps: seq<LiveStep>, id: nat)
    requires Legal(p, steps) && Control(steps) == steps
    ensures Fed(p, steps, id) == [] == Own(p, steps, id)
    decreases steps
  {
    if steps != [] {
      ControlIsShorter(steps[1..]);
      assert steps[0] == Control(steps)[0] && !steps[0].Publish?;
      assert Control(steps)[1..] == Control(steps[1..]);
      NothingPublished(Apply(p, steps[0]), steps[1..], id);
    }
  }

  lemma {:induction false} ControlIsShorter(steps: seq<LiveStep>)
    ensures |Control(steps)| <= |steps| && forall x :: x in Control(steps) ==> !x.Publish?
  {
    if steps != [] {
      ControlIsShorter(steps[1..]);
    }
  }

  /** A channel on which the process and the stream differ gives a message that shows it. */
  lemma DifferenceShows(p: Process, id: nat, control: seq<LiveStep>) returns (run: seq<LiveStep>)
    requires id in p.open && !Exact(p, id) && Legal(p, control) && Control(control) == control
    ensures Legal(p, run) && Control(run) == control && Fed(p, run, id) != Own(p, run, id)
  {
    var ch :| (ch in p.subscribed && ch !in p.open[id]) || (ch !in p.subscribed && ch in p.open[id]);
    var step := Publish(Message(ch, RealtimeEvent(0, "", "")));
    run := [step] + control;
    assert run[0] == step && run[1..] == control && [] + control == control;
    NothingPublished(p, control, id);
    OneMoreStep(p, step, control, id);
    assert |Fed(p, run, id)| + |Own(p, run, id)| == 1;
  }

  /** Opens and closes that disturb a stream let some message in between show it. */
  lemma {:induction false} DisturbanceShows(p: Process, control: seq<LiveStep>, id: nat) returns (run: seq<LiveStep>)
    requires Legal(p, control) && Control(control) == control && id in p.open
    requires !Exact(p, id) || !LeftAlone(p, control, id)
    ensures Legal(p, run) && Control(run) == control && Fed(p, run, id) != Own(p, run, id)
    decreases control
  {
    if !Exact(p, id) {
      run := DifferenceShows(p, id, control);
    } else {
      var step, rest := control[0], control[1..];
      var next := Apply(p, step);
      ControlIsShorter(control);
      assert step in Control(control);
      assert Control(control)[1..] == Control(rest);
      StepStaysExactIff(p, step, id);
      if id !in next.open {
        ClosedStaysAlone(next, rest, id);
        NotOpenIsExact(next, id);
        assert false;
      }
      var shown := DisturbanceShows(next, rest, id);
      run := [step] + shown;
      OneMoreStep(p, step, shown, id);
      assert !Feeds(p, step, id) && !Concerns(p, step, id);
      hide Exact, LeavesAlone, Apply, Feeds, Concerns, Fed, Own, Legal;
      assert [] + Fed(next, shown, id) == Fed(next, shown, id) && [] + Own(next, shown, id) == Own(next, shown, id);
      assert run[0] == step && run[1..] == shown && [step] + rest == control;
    }
  }

  /** Whatever is published among these opens and closes, the stream is fed exactly its own channels' messages. */
  ghost predicate AlwaysFedItsOwn(p: Process, control: seq<LiveStep>, id: nat) {
    forall run :: Legal(p, run) && Control(run) == control ==> Fed(p, run, id) == Own(p, run, id)
  }

  /**
   * For a stream that opens with `channels`, and any opens and closes after it:
   * whatever is published in between, it is fed exactly its own channels'
   * messages, in order, if and only if nothing but its channels was subscribed
   * when it opened, no stream that opens while it is open asks for another
   * channel, and no other stream that closes meanwhile shares one with it.
   */
  lemma FeedIsOwnIff(p: Process, id: nat, channels: set<string>, control: seq<LiveStep>)
    requires Enabled(p, Open(id, channels)) && Control(control) == control && NoReopening(control, id)
    requires Legal(Apply(p, Open(id, channels)), control)
    ensures var q := Apply(p, Open(id, channels));
            AlwaysFedItsOwn(q, control, id) <==> p.subscribed <= channels && LeftAlone(q, control, id)
  {
    var q := Apply(p, Open(id, channels));
    OpensExactlyIff(p, id, channels);
    hide Exact, LeftAlone, Fed, Own, Legal, Control;
    if Exact(q, id) && LeftAlone(q, control, id) {
      forall run | Legal(q, run) && Control(run) == control ensures Fed(q, run, id) == Own(q, run, id) {
        ControlDecidesLeftAlone(q, run, id);
        ControlKeepsOpens(run, id);
        LeftAloneIsFedItsOwn(q, run, id);
      }
    } else {
      var run := DisturbanceShows(q, control, id);
    }
  }

  // ----- a process that opens one stream at a time -----

  /** Only channels that some open stream asked for are subscribed. */
  ghost predicate SubscribedIsWanted(p: Process) {
    forall ch :: ch in p.subscribed ==> exists id :: id in p.open && ch in p.open[id]
  }

  lemma {:induction false} SubscriptionsAreWanted(p: Process, steps: seq<LiveStep>)
    requires Legal(p, steps) && SubscribedIsWanted(p)
    ensures SubscribedIsWanted(Exec(p, steps))
    decreases steps
  {
    if steps != [] {
      WantedStep(p, steps[0]);
      SubscriptionsAreWanted(Apply(p, steps[0]), steps[1..]);
    }
  }

  lemma WantedStep(p: Process, step: LiveStep)
    requires Enabled(p, step) && SubscribedIsWanted(p)
    ensures SubscribedIsWanted(Apply(p, step))
  {
    var t := Apply(p, step);
    forall ch | ch in t.subscribed ensures exists id :: id in t.open && ch in t.open[id] {
      if step.Open? && ch in step.channels {
        assert step.id in t.open && ch in t.open[step.id];
      } else {
        assert ch in p.subscribed;
        var id :| id in p.open && ch in p.open[id];
        assert id in t.open && ch in t.open[id];
      }
    }
  }

  /** The next stream to open in a process with no open stream is fed exactly its own while it is left alone. */
  lemma LoneStreamIsFedItsOwn(before: seq<LiveStep>, id: nat, channels: set<string>, steps: seq<LiveStep>)
    requires Legal(IDLE, before) && Exec(IDLE, before).open == map[]
    requires var q := Apply(Exec(IDLE, before), Open(id, channels));
             Legal(q, steps) && NoReopening(steps, id) && LeftAlone(q, steps, id)
    ensures var q := Apply(Exec(IDLE, before), Open(id, channels)); Fed(q, steps, id) == Own(q, steps, id)
  {
    SubscriptionsAreWanted(IDLE, before);
    var p := Exec(IDLE, before);
    assert p.subscribed == {};
    OpensExactlyIff(p, id, channels);
    LeftAloneIsFedItsOwn(Apply(p, Open(id, channels)), steps, id);
  }

  // ----- the two ways to be disturbed -----

  lemma OneMoreStep(p: Process, step: LiveStep, rest: seq<LiveStep>, id: nat)
    requires Enabled(p, step) && Legal(Apply(p, step), rest)
    ensures Legal(p, [step] + rest)
    ensures Fed(p, [step] + rest, id) == (if Feeds(p, step, id) then [step.m] else []) + Fed(Apply(p, step), rest, id)
    ensures Own(p, [step] + rest, id) == (if Concerns(p, step, id) then [step.m] else []) + Own(Apply(p, step), rest, id)
  {
    hide Enabled, Apply;
    assert ([step] + rest)[0] == step && ([step] + rest)[1..] == rest;
  }

  /** Two streams of different channels in one process are fed each other's messages. */
  lemma OtherStreamsAreMixedIn(a: nat, b: nat, mine: set<string>, theirs: set<string>, m: Message)
    requires a != b && m.channel in theirs && m.channel !in mine
    ensures var steps := [Open(a, mine)] + ([Open(b, theirs)] + ([Publish(m)] + []));
            Legal(IDLE, steps) && Fed(IDLE, steps, a) == [m] && Own(IDLE, steps, a) == []
  {
    var p := Apply(IDLE, Open(a, mine));
    var q := Apply(p, Open(b, theirs));
    OneMoreStep(q, Publish(m), [], a);
    OneMoreStep(p, Open(b, theirs), [Publish(m)] + [], a);
    OneMoreStep(IDLE, Open(a, mine), [Open(b, theirs)] + ([Publish(m)] + []), a);
  }

  /**
   * When one of two streams of a channel closes, the other goes without until a
   * later stream subscribes the channel again, and is then fed on after a gap.
   */
  lemma ClosingSilencesTheOthers(p: Process, a: nat, b: nat, c: nat, lost: Message, later: Message)
    requires a != b && a in p.open && b in p.open && c !in p.open && lost.channel == later.channel
    requires lost.channel in p.open[a] && lost.channel in p.open[b]
    ensures var steps := [Close(b)] + ([Publish(lost)] + ([Open(c, {lost.channel})] + ([Publish(later)] + [])));
            Legal(p, steps) && Fed(p, steps, a) == [later] && Own(p, steps, a) == [lost, later]
  {
    var q := Apply(p, Close(b));
    var r := Apply(q, Open(c, {lost.channel}));
    var rest := [Open(c, {lost.channel})] + ([Publish(later)] + []);
    OneMoreStep(r, Publish(later), [], a);
    OneMoreStep(q, Open(c, {lost.channel}), [Publish(later)] + [], a);
    OneMoreStep(q, Publish(lost), rest, a);
    OneMoreStep(p, Close(b), [Publish(lost)] + rest, a);
  }
}

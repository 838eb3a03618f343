/**
 * End to end over one channel: the broker replays and streams, the connection
 * is cut at any character, the client resumes from its cursor.  What reaches
 * the handlers is a gap-free, duplicate-free, in-order stretch of the log.
 */
module Resume {
  import opened Prelude
  import opened Decimal
  import opened RetainedList
  import opened SseParser
  import opened SseBlocks
  import opened SseWire
  import opened RealtimeClient
  import LiveFeed

  function Wire(e: RealtimeEvent): WireEvent { WireEvent(ToDecimal(e.id), e.kind, e.json) }

  function Wires(events: seq<RealtimeEvent>): seq<WireEvent> {
    seq(|events|, i requires 0 <= i < |events| => Wire(events[i]))
  }

  function Frames(events: seq<RealtimeEvent>): seq<SseFrame> {
    seq(|events|, i requires 0 <= i < |events| => SseFrame(ToDecimal(events[i].id), events[i].kind, events[i].json))
  }

  /** The cursor the broker reads from a `Last-Event-ID` header, if any. */
  function ServerCursor(header: Option<string>): Option<nat> {
    if header == None || header == Some("") then None else ParseDecimal(header.value)
  }

  /** What a stream replays from the list it reads. */
  function ReplayFor(list: seq<RealtimeEvent>, header: Option<string>): seq<RealtimeEvent> {
    match ServerCursor(header)
    case None => []
    case Some(after) => Replay(list, after)
  }

  function EventsOf(items: seq<WireItem>): seq<WireEvent> {
    if items == [] then []
    else
      var last := items[|items| - 1];
      EventsOf(items[..|items| - 1]) + if last.Event? then [last.evt] else []
  }

  function MessageEvents(messages: seq<LiveFeed.Message>): seq<RealtimeEvent> {
    seq(|messages|, i requires 0 <= i < |messages| => messages[i].event)
  }

  /**
   * One connection: it replays what the channel retains after the first `at`
   * steps of its run, then opens as `stream` in an API process that is in state
   * `process` and goes through `steps` afterwards; it interleaves comments freely,
   * is cut after `cut` characters, and reaches the client in `chunks`.
   */
  datatype Connection = Connection(
    at: nat, process: LiveFeed.Process, stream: nat, steps: seq<LiveFeed.LiveStep>,
    items: seq<WireItem>, cut: nat, chunks: seq<string>)

  /** The channel when the connection replays from it. */
  ghost function Before(run: seq<Step>, conn: Connection): Channel
    requires conn.at <= |run|
  {
    After(run[..conn.at])
  }

  /** The connection's stream can open, and its process can go through the steps. */
  predicate Runs(channel: string, conn: Connection) {
    && LiveFeed.Enabled(conn.process, LiveFeed.Open(conn.stream, {channel}))
    && LiveFeed.Legal(Opened(channel, conn), conn.steps) && LiveFeed.NoReopening(conn.steps, conn.stream)
  }

  /** Its process once the stream has opened. */
  function Opened(channel: string, conn: Connection): LiveFeed.Process
    requires LiveFeed.Enabled(conn.process, LiveFeed.Open(conn.stream, {channel}))
  {
    LiveFeed.Apply(conn.process, LiveFeed.Open(conn.stream, {channel}))
  }

  /**
   * Nothing but the stream's channel was subscribed when it opened, and no stream
   * that opens or closes while it is open disturbs it.
   */
  predicate LeftAlone(channel: string, conn: Connection)
    requires Runs(channel, conn)
  {
    conn.process.subscribed <= {channel} && LiveFeed.LeftAlone(Opened(channel, conn), conn.steps, conn.stream)
  }

  /** The events published on the stream's channel while it is open. */
  function LiveOwn(channel: string, conn: Connection): seq<RealtimeEvent>
    requires Runs(channel, conn)
  {
    MessageEvents(LiveFeed.Own(Opened(channel, conn), conn.steps, conn.stream))
  }

  /** The events its process writes to it. */
  function LiveFed(channel: string, conn: Connection): seq<RealtimeEvent>
    requires Runs(channel, conn)
  {
    MessageEvents(LiveFeed.Fed(Opened(channel, conn), conn.steps, conn.stream))
  }

  /**
   * What the broker does for a client with this `Last-Event-ID`: it writes the
   * replay and then whatever its process is fed; the channel's events published
   * meanwhile are the next ones of its log.
   */
  ghost predicate Served(run: seq<Step>, channel: string, header: Option<string>, conn: Connection) {
    && conn.at <= |run| && Runs(channel, conn)
    && Before(run, conn).log + LiveOwn(channel, conn) <= After(run).log
    && EventsOf(conn.items) == Wires(ReplayFor(Before(run, conn).list, header) + LiveFed(channel, conn))
    && Plain(conn)
  }

  /** Comments are single lines, and the client gets the text up to the cut. */
  ghost predicate Plain(conn: Connection) {
    && (forall i :: 0 <= i < |conn.items| && conn.items[i].KeepAlive? ==> LF !in conn.items[i].text)
    && conn.cut <= |WriteAll(conn.items)|
    && Concat(conn.chunks) == WriteAll(conn.items)[..conn.cut]
  }

  /** The connection carries `log[p..until]` and nothing else. */
  ghost predicate Carries(log: seq<RealtimeEvent>, p: nat, until: nat, conn: Connection) {
    p <= until <= |log| && EventsOf(conn.items) == Wires(log[p..until]) && Plain(conn)
  }

  /** The client after reading a connection to its end. */
  function Receive(c: ClientState, conn: Connection): ClientState {
    AcceptAll(c, Push(FRESH, Concat(conn.chunks)).0)
  }

  /** Events pushed in id order, each with a type and fields the writer can carry. */
  ghost predicate GoodLog(log: seq<RealtimeEvent>) {
    && StrictlyAscending(log)
    && forall i :: 0 <= i < |log| ==> Clean(log[i].kind) && log[i].kind != "" && Clean(log[i].json)
  }

  /** How much of an ascending log is not newer than `k`. */
  function Position(log: seq<RealtimeEvent>, k: int): (p: nat)
    ensures p <= |log|
  {
    if log == [] then 0
    else if log[|log| - 1].id <= k then |log|
    else Position(log[..|log| - 1], k)
  }

  ghost predicate At(log: seq<RealtimeEvent>, k: int, p: nat) {
    && p <= |log|
    && (forall i :: 0 <= i < p ==> log[i].id <= k)
    && (forall i :: p <= i < |log| ==> log[i].id > k)
  }

  lemma {:induction false} PositionDivides(log: seq<RealtimeEvent>, k: int)
    requires StrictlyAscending(log)
    ensures At(log, k, Position(log, k))
  {
    if log != [] && log[|log| - 1].id > k {
      PositionDivides(log[..|log| - 1], k);
    }
  }

  // ----- replay -----

  /** Where the retained part of the events after position `p` begins. */
  ghost function RetainedFrom(s: Channel, p: nat): (from: nat)
    requires p <= |s.log| && s.live <= |s.log|
    ensures p <= from <= |s.log|
  {
    if |s.log| - p <= |Kept(s)| then p else |s.log| - |Kept(s)|
  }

  lemma KeptNewerIsTail(s: Channel, k: int, p: nat, x: RealtimeEvent)
    requires At(s.log, k, p) && s.live <= |s.log|
    ensures x in Kept(s) && x.id > k <==> x in s.log[RetainedFrom(s, p)..]
  {
    var kept, from := Kept(s), RetainedFrom(s, p);
    var tail, base := s.log[from..], |s.log| - |kept|;
    assert kept == s.log[base..];
    if x in kept && x.id > k {
      var i :| 0 <= i < |kept| && kept[i] == x;
      assert s.log[base + i] == x && base + i >= from;
      assert tail[base + i - from] == x;
    }
    if x in tail {
      var i :| 0 <= i < |tail| && tail[i] == x;
      assert s.log[from + i] == x && kept[from + i - base] == x;
    }
  }

  /** On any channel pushed in id order, a replay is what is still retained of the events after the cursor. */
  lemma ReplayIsTail(s: Channel, k: int, p: nat)
    requires Inv(s) && StrictlyAscending(s.log) && At(s.log, k, p)
    ensures Replay(s.list, k) == s.log[RetainedFrom(s, p)..]
  {
    ReversedIsDistinct(s.list, Kept(s));
    ReplayAscends(s.list, k);
    var replay, tail := Replay(s.list, k), s.log[RetainedFrom(s, p)..];
    assert StrictlyAscending(tail);
    hide Replay, At, StrictlyAscending, Kept, RetainedFrom, IsReverse;
    forall x ensures x in replay <==> x in tail {
      ReversedHolds(s.list, Kept(s), x);
      KeptNewerIsTail(s, k, p, x);
    }
    AscendingIsUnique(replay, tail);
  }

  /** The whole missed stretch is replayed exactly when all of it is still retained. */
  lemma ReplayIsCompleteIff(run: seq<Step>, k: int)
    requires Valid(run) && StrictlyAscending(After(run).log)
    ensures var s := After(run);
            var p := Position(s.log, k);
            Replay(s.list, k) == s.log[p..] <==> |s.log| - p <= |Kept(s)|
  {
    hide Valid, After, Inv, Replay;
    InvHolds(run);
    PositionDivides(After(run).log, k);
    LiveIsPushed(After(run));
    ReplayIsTail(After(run), k, Position(After(run).log, k));
  }

  lemma LiveIsPushed(s: Channel)
    requires Inv(s)
    ensures s.live <= |s.log|
  {
  }

  /** If the list never expired, that is when at most 200 events were missed. */
  lemma ReplayIsCompleteIffFewMissed(run: seq<Step>, k: int)
    requires Valid(run) && Expire !in run && StrictlyAscending(After(run).log)
    ensures var s := After(run);
            var p := Position(s.log, k);
            Replay(s.list, k) == s.log[p..] <==> |s.log| - p <= 200
  {
    hide Valid, After, Replay, Position;
    ReplayIsCompleteIff(run, k);
    NoExpiryKeepsAll(run);
  }

  // ----- from items to frames -----

  lemma {:induction false} FramesOfItems(items: seq<WireItem>)
    ensures |FramesOf(items)| == |EventsOf(items)|
    ensures forall i :: 0 <= i < |EventsOf(items)| ==> FramesOf(items)[i] == FrameOf(EventsOf(items)[i])
  {
    if items != [] {
      FramesOfItems(items[..|items| - 1]);
    }
  }

  lemma {:induction false} EventsOfPrefix(items: seq<WireItem>, n: nat)
    requires n <= |items|
    ensures EventsOf(items[..n]) <= EventsOf(items)
  {
    if n < |items| {
      EventsOfPrefix(items[..|items| - 1], n);
      assert items[..|items| - 1][..n] == items[..n];
    } else {
      assert items[..n] == items;
    }
  }

  lemma {:induction false} EventsComeFromItems(items: seq<WireItem>, i: nat)
    requires i < |items| && items[i].Event?
    ensures items[i].evt in EventsOf(items)
  {
    if i < |items| - 1 {
      EventsComeFromItems(items[..|items| - 1], i);
    }
  }

  lemma WireIsSendable(e: RealtimeEvent)
    requires Clean(e.kind) && e.kind != "" && Clean(e.json)
    ensures Sendable(Wire(e)) && Wire(e).id != ""
  {
    ToDecimalIsDigits(e.id);
    var s := ToDecimal(e.id);
    assert forall c :: c in s ==> IsDigit(c);
  }

  lemma CarriedItemsAreSendable(items: seq<WireItem>, events: seq<RealtimeEvent>)
    requires EventsOf(items) == Wires(events)
    requires forall i :: 0 <= i < |events| ==> Clean(events[i].kind) && events[i].kind != "" && Clean(events[i].json)
    requires forall i :: 0 <= i < |items| && items[i].KeepAlive? ==> LF !in items[i].text
    ensures AllSendable(items)
  {
    forall i | 0 <= i < |items| ensures ItemSendable(items[i]) {
      if items[i].Event? {
        EventsComeFromItems(items, i);
        var j :| 0 <= j < |Wires(events)| && Wires(events)[j] == items[i].evt;
        WireIsSendable(events[j]);
      }
    }
  }

  // ----- the client follows the log -----

  /** The client has dispatched exactly `log[start..p]`, and its cursor stands at `p`. */
  ghost predicate Following(log: seq<RealtimeEvent>, start: nat, c: ClientState, p: nat) {
    && start <= p <= |log|
    && c.dispatched == Frames(log[start..p])
    && ServerCursor(c.cursor).Some? && At(log, ServerCursor(c.cursor).value, p)
    && forall i :: p <= i < |log| ==> ToDecimal(log[i].id) !in c.recent
  }

  /** The next event of the log is dispatched and moves the cursor past it. */
  lemma NextEventIsDispatched(log: seq<RealtimeEvent>, start: nat, c: ClientState, p: nat)
    requires GoodLog(log) && Following(log, start, c, p) && p < |log|
    ensures Following(log, start, Accept(c, FrameOf(Wire(log[p]))), p + 1)
  {
    var e := log[p];
    WireIsSendable(e);
    ParseUndoesToDecimal(e.id);
    forall i | p < i < |log| ensures ToDecimal(log[i].id) != ToDecimal(e.id) {
      if ToDecimal(log[i].id) == ToDecimal(e.id) {
        ToDecimalIsInjective(log[i].id, e.id);
      }
    }
    assert log[start..p + 1] == log[start..p] + [e];
    assert Frames(log[start..p + 1]) == Frames(log[start..p]) + [FrameOf(Wire(e))];
  }

  lemma {:induction false} SegmentIsDispatched(log: seq<RealtimeEvent>, start: nat, c: ClientState, p: nat, m: nat)
    requires GoodLog(log) && Following(log, start, c, p) && p + m <= |log|
    ensures Following(log, start, AcceptAll(c, Frames(log[p..p + m])), p + m)
  {
    hide Following, Accept, GoodLog, Wire;
    if m == 0 {
      assert Frames(log[p..p]) == [];
    } else {
      SegmentIsDispatched(log, start, c, p, m - 1);
      NextEventIsDispatched(log, start, AcceptAll(c, Frames(log[p..p + m - 1])), p + m - 1);
      FramesSnoc(log, p, m - 1);
      AcceptAllSnoc(c, Frames(log[p..p + m - 1]), FrameOf(Wire(log[p + m - 1])));
    }
  }

  lemma FramesSnoc(log: seq<RealtimeEvent>, p: nat, m: nat)
    requires p + m < |log|
    ensures Frames(log[p..p + m + 1]) == Frames(log[p..p + m]) + [FrameOf(Wire(log[p + m]))]
  {
  }

  lemma AcceptAllSnoc(c: ClientState, frames: seq<SseFrame>, frame: SseFrame)
    ensures AcceptAll(c, frames + [frame]) == Accept(AcceptAll(c, frames), frame)
  {
    assert (frames + [frame])[..|frames|] == frames;
  }

  // ----- one connection -----

  /** Where the log stands after a connection's live part. */
  ghost function Until(run: seq<Step>, channel: string, conn: Connection): nat
    requires conn.at <= |run| && Runs(channel, conn)
  {
    |Before(run, conn).log + LiveOwn(channel, conn)|
  }

  /**
   * What one connection carries, when the missed stretch is retained and its
   * stream is left alone: the log from the cursor on.
   */
  lemma ServedCarriesTheLog(run: seq<Step>, channel: string, c: ClientState, p: nat, conn: Connection)
    requires Valid(run) && GoodLog(After(run).log) && Served(run, channel, c.cursor, conn) && LeftAlone(channel, conn)
    requires ServerCursor(c.cursor).Some? && At(After(run).log, ServerCursor(c.cursor).value, p)
    requires var s := Before(run, conn); p <= |s.log| <= p + |Kept(s)|
    ensures Carries(After(run).log, p, Until(run, channel, conn), conn)
  {
    hide After, Valid, Replay, Wires, EventsOf, WriteAll, Concat, LiveOwn, LiveFed, Kept, StrictlyAscending, Position, Inv, Runs, LeftAlone;
    var s, log := Before(run, conn), After(run).log;
    LeftAloneIsOwn(channel, conn);
    PrefixIsValid(run, conn.at);
    InvHolds(run[..conn.at]);
    LiveIsPushed(s);
    assert s.log == log[..|s.log|];
    PrefixAscends(log, |s.log|);
    ReplayFromCursor(s, c.cursor, p);
    assert log[p..Until(run, channel, conn)] == s.log[p..] + LiveOwn(channel, conn);
  }

  /** Without a cursor nothing is replayed: the log from where it stood when the stream opened. */
  lemma ServedFromTheOpening(run: seq<Step>, channel: string, conn: Connection)
    requires Valid(run) && Served(run, channel, None, conn) && LeftAlone(channel, conn)
    ensures Carries(After(run).log, |Before(run, conn).log|, Until(run, channel, conn), conn)
  {
    hide After, Valid, Replay, Wires, EventsOf, WriteAll, Concat, LiveOwn, LiveFed, Runs, LeftAlone;
    LeftAloneIsOwn(channel, conn);
    var s, log, live := Before(run, conn), After(run).log, LiveOwn(channel, conn);
    assert s.log + live == log[..|s.log + live|];
    assert log[|s.log|..|s.log + live|] == live == [] + live;
  }

  lemma LeftAloneIsOwn(channel: string, conn: Connection)
    requires Runs(channel, conn) && LeftAlone(channel, conn)
    ensures LiveFed(channel, conn) == LiveOwn(channel, conn)
  {
    LiveFeed.OpensExactlyIff(conn.process, conn.stream, {channel});
    LiveFeed.LeftAloneIsFedItsOwn(Opened(channel, conn), conn.steps, conn.stream);
  }

  lemma {:induction false} PrefixIsValid(run: seq<Step>, n: nat)
    requires Valid(run) && n <= |run|
    ensures Valid(run[..n])
  {
    hide Apply, Enabled;
    if n < |run| {
      PrefixIsValid(run[..|run| - 1], n);
      assert run[..|run| - 1][..n] == run[..n];
    } else {
      assert run[..n] == run;
    }
  }

  lemma PrefixAscends(log: seq<RealtimeEvent>, n: nat)
    requires StrictlyAscending(log) && n <= |log|
    ensures StrictlyAscending(log[..n])
  {
  }

  /** With the missed stretch retained, the replay is the log from the cursor to the present. */
  lemma ReplayFromCursor(s: Channel, header: Option<string>, p: nat)
    requires Inv(s) && StrictlyAscending(s.log) && s.live <= |s.log|
    requires ServerCursor(header).Some? && At(s.log, ServerCursor(header).value, p)
    requires p <= |s.log| <= p + |Kept(s)|
    ensures ReplayFor(s.list, header) == s.log[p..]
  {
    hide Inv, StrictlyAscending, Kept, Replay, At;
    ReplayIsTail(s, ServerCursor(header).value, p);
  }

  /**
   * One connection.  With `n` items completely inside the cut, the client
   * dispatches exactly their events, which continue the log where it stood.
   */
  lemma ConnectionContinuesTheLog(
    log: seq<RealtimeEvent>, start: nat, c: ClientState, p: nat, until: nat, conn: Connection, n: nat)
    requires GoodLog(log) && Carries(log, p, until, conn) && Following(log, start, c, p)
    requires n <= |conn.items| && |WriteAll(conn.items[..n])| <= conn.cut
    requires n < |conn.items| ==> conn.cut < |WriteAll(conn.items[..n + 1])|
    ensures var q := p + |EventsOf(conn.items[..n])|;
            q <= until && Following(log, start, Receive(c, conn), q)
  {
    hide *;
    CarriesIs(log, p, until, conn);
    ReceiveIs(c, conn);
    CarriedAreSendable(log, p, until, conn);
    TruncatedStreamParses(conn.items, conn.cut, n);
    CompleteFramesAreTheLog(log, p, until, conn, n);
    SegmentIsDispatched(log, start, c, p, |EventsOf(conn.items[..n])|);
  }

  lemma CarriesIs(log: seq<RealtimeEvent>, p: nat, until: nat, conn: Connection)
    requires Carries(log, p, until, conn)
    ensures p <= until <= |log| && EventsOf(conn.items) == Wires(log[p..until])
    ensures conn.cut <= |WriteAll(conn.items)| && Concat(conn.chunks) == WriteAll(conn.items)[..conn.cut]
  {
  }

  lemma CarriedAreSendable(log: seq<RealtimeEvent>, p: nat, until: nat, conn: Connection)
    requires GoodLog(log) && Carries(log, p, until, conn)
    ensures AllSendable(conn.items)
  {
    hide Wires, EventsOf, AllSendable, StrictlyAscending, Clean, WriteAll, Concat;
    CarriedItemsAreSendable(conn.items, log[p..until]);
  }

  lemma ReceiveIs(c: ClientState, conn: Connection)
    ensures Receive(c, conn) == AcceptAll(c, Push(FRESH, Concat(conn.chunks)).0)
  {
    hide AcceptAll, Push;
  }

  /** The frames of the first `n` items sent are those of the next events of the log. */
  lemma CompleteFramesAreTheLog(log: seq<RealtimeEvent>, p: nat, until: nat, conn: Connection, n: nat)
    requires p <= until <= |log| && n <= |conn.items|
    requires EventsOf(conn.items) == Wires(log[p..until])
    ensures var m := |EventsOf(conn.items[..n])|;
            p + m <= until && FramesOf(conn.items[..n]) == Frames(log[p..p + m])
  {
    FramesOfItems(conn.items[..n]);
    EventsOfPrefix(conn.items, n);
    hide EventsOf, FramesOf, Wire;
    var events := EventsOf(conn.items[..n]);
    assert |events| <= |Wires(log[p..until])| == until - p;
    forall i | 0 <= i < |events| ensures events[i] == Wire(log[p + i]) {
      assert events[i] == EventsOf(conn.items)[i];
      assert Wires(log[p..until])[i] == Wire(log[p + i]);
    }
  }

  // ----- any number of connections -----

  function ReceiveAll(c: ClientState, conns: seq<Connection>): ClientState
    decreases conns
  {
    if conns == [] then c else ReceiveAll(Receive(c, conns[0]), conns[1..])
  }

  /**
   * Each connection is served from the cursor the client then has, and its stream
   * is left alone by the others of its process.  Once the client has a cursor, the
   * next connection opens after everything received has been published, and finds
   * all that was missed still retained.
   */
  ghost predicate Resumable(run: seq<Step>, channel: string, c: ClientState, conns: seq<Connection>)
    decreases conns
  {
    conns == [] ||
    (&& Served(run, channel, c.cursor, conns[0]) && LeftAlone(channel, conns[0])
     && (c.cursor != None ==> ResumesInTime(run, c, conns[0]))
     && Resumable(run, channel, Receive(c, conns[0]), conns[1..]))
  }

  ghost predicate ResumesInTime(run: seq<Step>, c: ClientState, conn: Connection)
    requires conn.at <= |run|
  {
    && ServerCursor(c.cursor).Some?
    && Position(After(run).log, ServerCursor(c.cursor).value) <= |Before(run, conn).log|
         <= Position(After(run).log, ServerCursor(c.cursor).value) + |Kept(Before(run, conn))|
  }

  lemma AtIsPosition(log: seq<RealtimeEvent>, k: int, p: nat)
    requires StrictlyAscending(log) && At(log, k, p)
    ensures Position(log, k) == p
  {
    PositionDivides(log, k);
    var q := Position(log, k);
    assert p == |log| || log[p].id > k;
    assert q == |log| || log[q].id > k;
  }

  lemma {:induction false} ConnectionsFollowTheLog(
    run: seq<Step>, channel: string, start: nat, c: ClientState, p: nat, conns: seq<Connection>) returns (q: nat)
    requires Valid(run) && GoodLog(After(run).log) && Following(After(run).log, start, c, p)
    requires Resumable(run, channel, c, conns)
    ensures p <= q && Following(After(run).log, start, ReceiveAll(c, conns), q)
    decreases conns
  {
    hide *;
    q := p;
    if conns == [] {
      ReceiveNone(c);
    } else {
      var conn, log := conns[0], After(run).log;
      var until := FirstCarriesTheLog(run, channel, start, c, p, conns);
      PlainFits(log, p, until, conn);
      var n := CompleteItems(conn.items, conn.cut);
      ConnectionContinuesTheLog(log, start, c, p, until, conn, n);
      RestIsResumable(run, channel, c, conns);
      q := ConnectionsFollowTheLog(run, channel, start, Receive(c, conn), p + |EventsOf(conn.items[..n])|, conns[1..]);
      ReceiveAllStep(c, conns);
    }
  }

  lemma ReceiveNone(c: ClientState)
    ensures ReceiveAll(c, []) == c
  {
  }

  lemma ReceiveAllStep(c: ClientState, conns: seq<Connection>)
    requires conns != []
    ensures ReceiveAll(c, conns) == ReceiveAll(Receive(c, conns[0]), conns[1..])
  {
    hide Receive;
  }

  lemma PlainFits(log: seq<RealtimeEvent>, p: nat, until: nat, conn: Connection)
    requires Carries(log, p, until, conn)
    ensures conn.cut <= |WriteAll(conn.items)|
  {
  }

  lemma FirstCarriesTheLog(
    run: seq<Step>, channel: string, start: nat, c: ClientState, p: nat, conns: seq<Connection>) returns (until: nat)
    requires Valid(run) && GoodLog(After(run).log) && Following(After(run).log, start, c, p)
    requires Resumable(run, channel, c, conns) && conns != []
    ensures Carries(After(run).log, p, until, conns[0])
  {
    hide Valid, After, Receive, Position, Kept, Served, LeftAlone, At, Carries, Frames, ServerCursor;
    FollowingIs(After(run).log, start, c, p);
    FirstIsServed(run, channel, c, conns);
    AtIsPosition(After(run).log, ServerCursor(c.cursor).value, p);
    ServedCarriesTheLog(run, channel, c, p, conns[0]);
    until := Until(run, channel, conns[0]);
  }

  lemma FollowingIs(log: seq<RealtimeEvent>, start: nat, c: ClientState, p: nat)
    requires Following(log, start, c, p)
    ensures c.cursor != None && ServerCursor(c.cursor).Some? && At(log, ServerCursor(c.cursor).value, p)
  {
  }

  lemma FirstIsServed(run: seq<Step>, channel: string, c: ClientState, conns: seq<Connection>)
    requires Resumable(run, channel, c, conns) && conns != []
    ensures conns[0].at <= |run| && Runs(channel, conns[0])
    ensures Served(run, channel, c.cursor, conns[0]) && LeftAlone(channel, conns[0])
    ensures c.cursor != None ==> ResumesInTime(run, c, conns[0])
  {
    hide Receive, Position, After, Kept, LeftAlone, ResumesInTime;
  }

  lemma RestIsResumable(run: seq<Step>, channel: string, c: ClientState, conns: seq<Connection>)
    requires Resumable(run, channel, c, conns) && conns != []
    ensures Resumable(run, channel, Receive(c, conns[0]), conns[1..])
  {
    hide Receive, Position, After, Kept, LeftAlone, ResumesInTime;
  }

  /**
   * A client started at id `k`, over any number of connections cut anywhere: the
   * frames it dispatches are exactly those of one stretch of the channel's log
   * that begins right after `k`, in order, without gaps or repeats.
   */
  lemma DispatchedIsALogSegment(run: seq<Step>, channel: string, k: nat, conns: seq<Connection>)
    requires Valid(run) && GoodLog(After(run).log)
    requires Resumable(run, channel, ClientState(Some(ToDecimal(k)), [], []), conns)
    ensures var log := After(run).log;
            var start := Position(log, k);
            var c := ReceiveAll(ClientState(Some(ToDecimal(k)), [], []), conns);
            exists q :: start <= q <= |log| && c.dispatched == Frames(log[start..q])
                     && ServerCursor(c.cursor).Some? && At(log, ServerCursor(c.cursor).value, q)
  {
    hide Valid, After, Resumable, ReceiveAll, Frames, ServerCursor, At, Position;
    var log := After(run).log;
    ClientAtIdFollows(log, k);
    var start, c := Position(log, k), ClientState(Some(ToDecimal(k)), [], []);
    var q := ConnectionsFollowTheLog(run, channel, start, c, start, conns);
  }

  lemma ClientAtIdFollows(log: seq<RealtimeEvent>, k: nat)
    requires GoodLog(log)
    ensures Following(log, Position(log, k), ClientState(Some(ToDecimal(k)), [], []), Position(log, k))
  {
    ParseUndoesToDecimal(k);
    ToDecimalIsDigits(k);
    PositionDivides(log, k);
    assert Frames(log[Position(log, k)..Position(log, k)]) == [];
  }

  // ----- a client started without an id -----

  const NEW_CLIENT := ClientState(None, [], [])

  /** The first events a new client receives start it off. */
  lemma {:induction false} FirstEventsAreFollowed(log: seq<RealtimeEvent>, s: nat, m: nat)
    requires GoodLog(log) && s + m <= |log|
    ensures var c := AcceptAll(NEW_CLIENT, Frames(log[s..s + m]));
            if m == 0 then c == NEW_CLIENT else Following(log, s, c, s + m)
  {
    hide Following, Accept, GoodLog, Wire;
    if m == 0 {
      assert Frames(log[s..s]) == [];
    } else {
      FirstEventsAreFollowed(log, s, m - 1);
      var c := AcceptAll(NEW_CLIENT, Frames(log[s..s + (m - 1)]));
      if m == 1 {
        FirstEventIsFollowed(log, s);
      } else {
        NextEventIsDispatched(log, s, c, s + m - 1);
      }
      FramesSnoc(log, s, m - 1);
      AcceptAllSnoc(NEW_CLIENT, Frames(log[s..s + (m - 1)]), FrameOf(Wire(log[s + m - 1])));
    }
  }

  lemma FirstEventIsFollowed(log: seq<RealtimeEvent>, s: nat)
    requires GoodLog(log) && s < |log|
    ensures Following(log, s, Accept(NEW_CLIENT, FrameOf(Wire(log[s]))), s + 1)
  {
    var e := log[s];
    WireIsSendable(e);
    ParseUndoesToDecimal(e.id);
    forall i | s < i < |log| ensures ToDecimal(log[i].id) != ToDecimal(e.id) {
      if ToDecimal(log[i].id) == ToDecimal(e.id) {
        ToDecimalIsInjective(log[i].id, e.id);
      }
    }
    assert log[s..s + 1] == [e];
    assert Frames([e]) == [] + [FrameOf(Wire(e))];
  }

  /** A connection brings at least one whole event. */
  predicate Delivers(conn: Connection) { Push(FRESH, Concat(conn.chunks)).0 != [] }

  /** What a new client makes of its first connection. */
  lemma FirstConnectionStartsTheLog(log: seq<RealtimeEvent>, s: nat, until: nat, conn: Connection) returns (m: nat)
    requires GoodLog(log) && Carries(log, s, until, conn)
    ensures Delivers(conn) <==> m > 0
    ensures s + m <= |log| && if m == 0 then Receive(NEW_CLIENT, conn) == NEW_CLIENT
                              else Following(log, s, Receive(NEW_CLIENT, conn), s + m)
  {
    hide *;
    CarriesIs(log, s, until, conn);
    var n := CompleteItems(conn.items, conn.cut);
    CarriedAreSendable(log, s, until, conn);
    TruncatedStreamParses(conn.items, conn.cut, n);
    CompleteFramesAreTheLog(log, s, until, conn, n);
    m := |EventsOf(conn.items[..n])|;
    FirstEventsAreFollowed(log, s, m);
    ReceiveIs(NEW_CLIENT, conn);
    DeliversIff(log, s, m, conn);
  }

  lemma DeliversIff(log: seq<RealtimeEvent>, s: nat, m: nat, conn: Connection)
    requires s + m <= |log| && Push(FRESH, Concat(conn.chunks)).0 == Frames(log[s..s + m])
    ensures Delivers(conn) <==> m > 0
  {
    hide Push, Concat;
    assert |Frames(log[s..s + m])| == m;
  }

  /** How many connections a new client goes through before one brings a whole event. */
  function Barren(conns: seq<Connection>): (n: nat)
    ensures n <= |conns|
    decreases |conns|
  {
    if conns == [] || Delivers(conns[0]) then 0 else 1 + Barren(conns[1..])
  }

  lemma {:induction false} NewClientFollowsTheLog(run: seq<Step>, channel: string, conns: seq<Connection>) returns (q: nat)
    requires Valid(run) && GoodLog(After(run).log) && Resumable(run, channel, NEW_CLIENT, conns)
    ensures var n, c := Barren(conns), ReceiveAll(NEW_CLIENT, conns);
            if n == |conns| then c == NEW_CLIENT
            else conns[n].at <= |run| && Following(After(run).log, |Before(run, conns[n]).log|, c, q)
    decreases conns
  {
    hide *;
    q := 0;
    if conns == [] {
      ReceiveNone(NEW_CLIENT);
      NothingIsBarren();
    } else {
      var conn, log := conns[0], After(run).log;
      var s := FirstOpening(run, channel, conns);
      var m := FirstConnectionStartsTheLog(log, s, Until(run, channel, conn), conn);
      RestIsResumable(run, channel, NEW_CLIENT, conns);
      ReceiveAllStep(NEW_CLIENT, conns);
      BarrenStep(conns);
      if m == 0 {
        q := NewClientFollowsTheLog(run, channel, conns[1..]);
      } else {
        q := ConnectionsFollowTheLog(run, channel, s, Receive(NEW_CLIENT, conn), s + m, conns[1..]);
      }
    }
  }

  lemma FirstOpening(run: seq<Step>, channel: string, conns: seq<Connection>) returns (s: nat)
    requires Valid(run) && Resumable(run, channel, NEW_CLIENT, conns) && conns != []
    ensures conns[0].at <= |run| && Runs(channel, conns[0]) && s == |Before(run, conns[0]).log|
    ensures Carries(After(run).log, s, Until(run, channel, conns[0]), conns[0])
  {
    hide Valid, Served, LeftAlone, Carries, Resumable, Runs, ResumesInTime;
    FirstIsServed(run, channel, NEW_CLIENT, conns);
    ServedFromTheOpening(run, channel, conns[0]);
    s := |Before(run, conns[0]).log|;
  }

  lemma NothingIsBarren()
    ensures Barren([]) == 0
  {
  }

  lemma BarrenStep(conns: seq<Connection>)
    requires conns != []
    ensures Barren(conns) == if Delivers(conns[0]) then 0 else 1 + Barren(conns[1..])
    ensures !Delivers(conns[0]) && Barren(conns[1..]) < |conns[1..]| ==> conns[Barren(conns)] == conns[1..][Barren(conns[1..])]
  {
    hide Delivers;
  }

  /**
   * A client started without an id: it dispatches nothing until a connection
   * brings a whole event, and from then on, over any number of connections cut
   * anywhere, exactly one stretch of the log, in order, without gaps or repeats,
   * which begins where the log stood when that connection's stream opened.
   */
  lemma NewClientDispatchesALogSegment(run: seq<Step>, channel: string, conns: seq<Connection>)
    requires Valid(run) && GoodLog(After(run).log) && Resumable(run, channel, NEW_CLIENT, conns)
    ensures var n, c, log := Barren(conns), ReceiveAll(NEW_CLIENT, conns), After(run).log;
            if n == |conns| then c.dispatched == [] && c.cursor == None
            else conns[n].at <= |run| &&
                 var start := |Before(run, conns[n]).log|;
                 exists q :: start <= q <= |log| && c.dispatched == Frames(log[start..q])
                          && ServerCursor(c.cursor).Some? && At(log, ServerCursor(c.cursor).value, q)
  {
    hide Valid, After, Resumable, ReceiveAll, Frames, ServerCursor, At, Barren, Before;
    var q := NewClientFollowsTheLog(run, channel, conns);
  }

  // ----- why streams must not share a process, and pushes must come in id order -----

  /**
   * A frame of another stream moves the client's cursor like any other.  If its
   * id is at least every id of the client's own log, whatever its channel retains
   * is then never replayed.
   */
  lemma ForeignFrameMovesTheCursor(c: ClientState, e: RealtimeEvent, run: seq<Step>)
    requires Valid(run) && forall x :: x in After(run).log ==> x.id <= e.id
    ensures var d := Accept(c, FrameOf(Wire(e)));
            ServerCursor(d.cursor) == Some(e.id) && ReplayFor(After(run).list, d.cursor) == []
  {
    hide Valid, After, Replay;
    ParseUndoesToDecimal(e.id);
    ToDecimalIsDigits(e.id);
    InvHolds(run);
    var s := After(run);
    forall i | 0 <= i < |s.list| ensures s.list[i].id <= e.id {
      assert s.list[i] in Kept(s);
    }
    ReplaysNothingNewer(s.list, e.id);
  }

  /**
   * Two producers can push out of id order: the later id first.  A client that
   * has received it and reconnects is never sent the other event, however the
   * channel goes on and however far the client's cursor advances.
   */
  lemma LateLowerIdIsNeverReplayed(run: seq<Step>, low: RealtimeEvent, high: RealtimeEvent, more: seq<Step>, k: int)
    requires Valid(run) && low.id in After(run).inFlight && high.id in After(run).inFlight && low.id < high.id <= k
    requires Valid(run + [Retain(high)] + [Retain(low)] + more)
    ensures var pushed := run + [Retain(high)] + [Retain(low)];
            && Valid(pushed) && After(pushed).log == After(run).log + [high] + [low] && low in After(pushed).list
            && low !in Replay(After(pushed + more).list, k)
  {
    hide Replay, After, Valid, Inv, Pushed;
    PushesInTurn(run, high);
    PushesInTurn(run + [Retain(high)], low);
    ReplayIsExact(run + [Retain(high)] + [Retain(low)] + more, k);
  }

  lemma PushesInTurn(run: seq<Step>, e: RealtimeEvent)
    requires Valid(run) && e.id in After(run).inFlight
    ensures Valid(run + [Retain(e)]) && After(run + [Retain(e)]) == Apply(After(run), Retain(e))
    ensures e in After(run + [Retain(e)]).list
  {
    assert (run + [Retain(e)])[..|run|] == run;
    assert After(run + [Retain(e)]).list[0] == e;
  }

  lemma {:induction false} ReplaysNothingNewer(list: seq<RealtimeEvent>, after: int)
    requires forall i :: 0 <= i < |list| ==> list[i].id <= after
    ensures Replay(list, after) == []
  {
    if list != [] {
      ReplaysNothingNewer(list[..|list| - 1], after);
      NewerThanHolds(list[..|list| - 1], after, list[0]);
      SortOfSome(NewerThan(list[..|list| - 1], after));
    }
  }

  lemma SortOfSome(events: seq<RealtimeEvent>)
    ensures SortById(events) == [] ==> events == []
  {
    if events != [] {
      InsertHolds(events[|events| - 1], SortById(events[..|events| - 1]), events[|events| - 1]);
    }
  }
}

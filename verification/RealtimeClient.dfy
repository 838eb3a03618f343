/**
 * The dashboard's realtime client: the cursor it resumes from, the 64-id
 * duplicate window, and the frames it hands to its handlers.
 */
module RealtimeClient {
  import opened Prelude
  import opened SseParser

  const DEDUP_WINDOW := 64

  /** The cursor, the ids remembered oldest first, and the frames dispatched so far. */
  datatype ClientState = ClientState(cursor: Option<string>, recent: seq<string>, dispatched: seq<SseFrame>)

  function Remember(recent: seq<string>, id: string): seq<string> {
    var longer := recent + [id];
    if |longer| > DEDUP_WINDOW then longer[1..] else longer
  }

  /** One parsed frame: move the cursor, drop a duplicate, dispatch the rest. */
  function Accept(c: ClientState, frame: SseFrame): ClientState {
    if frame.id == "" then c.(dispatched := c.dispatched + [frame])
    else if frame.id in c.recent then c.(cursor := Some(frame.id))
    else ClientState(Some(frame.id), Remember(c.recent, frame.id), c.dispatched + [frame])
  }

  function AcceptAll(c: ClientState, frames: seq<SseFrame>): ClientState {
    if frames == [] then c else Accept(AcceptAll(c, frames[..|frames| - 1]), frames[|frames| - 1])
  }

  ghost predicate NoRepeats(ids: seq<string>) { forall i, j :: 0 <= i < j < |ids| ==> ids[i] != ids[j] }

  class Client {
    var cursor: Option<string>
    var recentIds: set<string>
    var recentIdQueue: seq<string>
    var dispatched: seq<SseFrame>

    ghost predicate Valid()
      reads this
    {
      && |recentIdQueue| <= DEDUP_WINDOW && NoRepeats(recentIdQueue)
      && (forall id :: id in recentIds <==> id in recentIdQueue)
    }

    ghost function State(): ClientState
      reads this
    {
      ClientState(cursor, recentIdQueue, dispatched)
    }

    constructor (startId: Option<string>)
      ensures Valid() && State() == ClientState(startId, [], [])
    {
      cursor, recentIds, recentIdQueue, dispatched := startId, {}, [], [];
    }

    method IsDuplicate(id: string) returns (duplicate: bool)
      requires Valid()
      modifies this
      ensures Valid() && cursor == old(cursor) && dispatched == old(dispatched)
      ensures duplicate == (id != "" && id in old(recentIdQueue))
      ensures recentIdQueue == if id == "" || duplicate then old(recentIdQueue) else Remember(old(recentIdQueue), id)
    {
      if id == "" {
        return false;
      }
      if id in recentIds {
        return true;
      }
      recentIds := recentIds + {id};
      recentIdQueue := recentIdQueue + [id];
      if |recentIdQueue| > DEDUP_WINDOW {
        var oldest := recentIdQueue[0];
        recentIdQueue := recentIdQueue[1..];
        recentIds := recentIds - {oldest};
        assert old(recentIdQueue) + [id] == [oldest] + recentIdQueue;
        assert forall x :: x in old(recentIdQueue) + [id] <==> x == oldest || x in recentIdQueue;
      }
      return false;
    }

    method HandleFrame(frame: SseFrame)
      requires Valid()
      modifies this
      ensures Valid() && State() == Accept(old(State()), frame)
    {
      if frame.id != "" {
        cursor := Some(frame.id);
      }
      var duplicate := IsDuplicate(frame.id);
      if !duplicate {
        dispatched := dispatched + [frame];
      }
    }

    /** Reads one connection's stream, chunk by chunk, with a fresh parser. */
    method ReadStream(chunks: seq<string>)
      requires Valid()
      modifies this
      ensures Valid() && State() == AcceptAll(old(State()), Push(FRESH, Concat(chunks)).0)
    {
      hide Push, Accept;
      var parser := new Parser();
      ghost var received: seq<SseFrame> := [];
      for i := 0 to |chunks|
        invariant Valid() && fresh(parser)
        invariant (received, parser.State()) == PushAll(FRESH, chunks[..i])
        invariant State() == AcceptAll(old(State()), received)
      {
        assert chunks[..i + 1][..i] == chunks[..i];
        var frames := parser.PushChunk(chunks[i]);
        assert received + frames[..0] == received;
        for j := 0 to |frames|
          invariant Valid() && fresh(parser)
          invariant parser.State() == PushAll(FRESH, chunks[..i + 1]).1
          invariant State() == AcceptAll(old(State()), received + frames[..j])
        {
          assert (received + frames[..j + 1])[..|received| + j] == received + frames[..j];
          HandleFrame(frames[j]);
        }
        assert frames[..|frames|] == frames;
        received := received + frames;
      }
      assert chunks[..|chunks|] == chunks;
      EveryPartitionParsesAlike(FRESH, chunks);
    }
  }

  // ----- what the duplicate window remembers -----

  /** The non-empty ids of the dispatched frames, in order. */
  function DispatchedIds(frames: seq<SseFrame>): seq<string> {
    if frames == [] then []
    else
      var id := frames[|frames| - 1].id;
      DispatchedIds(frames[..|frames| - 1]) + if id == "" then [] else [id]
  }

  function LastIds(ids: seq<string>): seq<string> {
    if |ids| <= DEDUP_WINDOW then ids else ids[|ids| - DEDUP_WINDOW..]
  }

  lemma LastIdsSnoc(ids: seq<string>, id: string)
    ensures LastIds(ids + [id]) == Remember(LastIds(ids), id)
  {
  }

  lemma DispatchedIdsSnoc(frames: seq<SseFrame>, frame: SseFrame)
    ensures DispatchedIds(frames + [frame])
         == if frame.id == "" then DispatchedIds(frames) else DispatchedIds(frames) + [frame.id]
  {
    assert (frames + [frame])[..|frames|] == frames;
    assert DispatchedIds(frames) + [] == DispatchedIds(frames);
  }

  lemma AcceptKeepsWindow(c: ClientState, frame: SseFrame)
    requires c.recent == LastIds(DispatchedIds(c.dispatched))
    ensures var d := Accept(c, frame); d.recent == LastIds(DispatchedIds(d.dispatched))
  {
    hide LastIds, Remember, DispatchedIds;
    DispatchedIdsSnoc(c.dispatched, frame);
    LastIdsSnoc(DispatchedIds(c.dispatched), frame.id);
  }

  /**
   * After any frames, the window holds the ids of the last 64 frames dispatched
   * with an id; so a frame is dropped exactly when its id is among them.
   */
  lemma {:induction false} WindowIsLastDispatched(startId: Option<string>, frames: seq<SseFrame>)
    ensures var c := AcceptAll(ClientState(startId, [], []), frames);
            c.recent == LastIds(DispatchedIds(c.dispatched))
  {
    hide Accept;
    if frames != [] {
      WindowIsLastDispatched(startId, frames[..|frames| - 1]);
      AcceptKeepsWindow(AcceptAll(ClientState(startId, [], []), frames[..|frames| - 1]), frames[|frames| - 1]);
    }
  }

  /**
   * A frame with an id is suppressed exactly when its id is one of the last 64
   * dispatched; a frame without one never is.  Nothing else is dispatched.
   */
  lemma SuppressedIffRecentlyDispatched(startId: Option<string>, frames: seq<SseFrame>, frame: SseFrame)
    ensures var c := AcceptAll(ClientState(startId, [], []), frames);
            var ids := DispatchedIds(c.dispatched);
            var last64 := if |ids| <= 64 then ids else ids[|ids| - 64..];
            Accept(c, frame).dispatched
            == if frame.id != "" && frame.id in last64 then c.dispatched else c.dispatched + [frame]
  {
    WindowIsLastDispatched(startId, frames);
  }

  /** The last non-empty id of a sequence of frames, if there is one. */
  function LastId(frames: seq<SseFrame>): Option<string> {
    if frames == [] then None
    else if frames[|frames| - 1].id != "" then Some(frames[|frames| - 1].id)
    else LastId(frames[..|frames| - 1])
  }

  /** The cursor is the last id received, of a suppressed frame too, or the id the client was started with. */
  lemma {:induction false} CursorIsLastReceived(startId: Option<string>, frames: seq<SseFrame>)
    ensures AcceptAll(ClientState(startId, [], []), frames).cursor
         == if LastId(frames).Some? then LastId(frames) else startId
  {
    if frames != [] {
      CursorIsLastReceived(startId, frames[..|frames| - 1]);
    }
  }
}

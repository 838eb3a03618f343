/**
 * The broker's retained list: the last 200 events of a channel, newest first,
 * replayed in id order to clients that reconnect; and the producers that
 * allocate an id in one step and push the event in another.
 */
module RetainedList {

  datatype RealtimeEvent = RealtimeEvent(id: nat, kind: string, json: string)

  const RETAINED_MAX := 200

  function Pushed(list: seq<RealtimeEvent>, e: RealtimeEvent): seq<RealtimeEvent> {
    var longer := [e] + list;
    if |longer| > RETAINED_MAX then longer[..RETAINED_MAX] else longer
  }

  function NewerThan(list: seq<RealtimeEvent>, after: int): seq<RealtimeEvent> {
    if list == [] then []
    else
      var e := list[|list| - 1];
      NewerThan(list[..|list| - 1], after) + if e.id > after then [e] else []
  }

  /** Inserts into an ascending sequence, after the entries whose id is not larger. */
  function Insert(e: RealtimeEvent, sorted: seq<RealtimeEvent>): seq<RealtimeEvent> {
    if sorted == [] then [e]
    else if e.id < sorted[0].id then [e] + sorted
    else [sorted[0]] + Insert(e, sorted[1..])
  }

  /** The library sort by numeric id. */
  function SortById(events: seq<RealtimeEvent>): seq<RealtimeEvent> {
    if events == [] then [] else Insert(events[|events| - 1], SortById(events[..|events| - 1]))
  }

  function Replay(list: seq<RealtimeEvent>, after: int): seq<RealtimeEvent> { SortById(NewerThan(list, after)) }

  class Retained {
    var list: seq<RealtimeEvent>

    constructor ()
      ensures list == []
    {
      list := [];
    }

    /** Push at the head, then trim to the newest 200. */
    method Publish(e: RealtimeEvent)
      modifies this
      ensures list == Pushed(old(list), e)
    {
      list := [e] + list;
      if |list| > RETAINED_MAX {
        list := list[..RETAINED_MAX];
      }
    }

    /** The key's time to live has run out. */
    method Expire()
      modifies this
      ensures list == []
    {
      list := [];
    }

    method RetainedAfter(after: int) returns (events: seq<RealtimeEvent>)
      ensures events == Replay(list, after)
    {
      events := [];
      for i := 0 to |list|
        invariant events == NewerThan(list[..i], after)
      {
        assert list[..i + 1][..i] == list[..i];
        if list[i].id > after {
          events := events + [list[i]];
        }
      }
      assert list[..|list|] == list;
      events := SortById(events);
    }
  }

  // ----- filtering and sorting -----

  ghost predicate StrictlyAscending(s: seq<RealtimeEvent>) {
    forall i, j :: 0 <= i < j < |s| ==> s[i].id < s[j].id
  }

  ghost predicate DistinctIds(s: seq<RealtimeEvent>) {
    forall i, j :: 0 <= i < j < |s| ==> s[i].id != s[j].id
  }

  lemma {:induction false} InsertHolds(e: RealtimeEvent, s: seq<RealtimeEvent>, x: RealtimeEvent)
    ensures x in Insert(e, s) <==> x == e || x in s
    decreases s
  {
    if s != [] && e.id >= s[0].id {
      InsertHolds(e, s[1..], x);
      assert s == [s[0]] + s[1..];
    }
  }

  lemma {:induction false} InsertAscends(e: RealtimeEvent, s: seq<RealtimeEvent>)
    requires StrictlyAscending(s) && forall x :: x in s ==> x.id != e.id
    ensures StrictlyAscending(Insert(e, s))
    decreases s
  {
    if s != [] && e.id >= s[0].id {
      assert forall x :: x in s[1..] ==> x in s;
      InsertAscends(e, s[1..]);
      var rest := Insert(e, s[1..]);
      forall j | 0 <= j < |rest| ensures s[0].id < rest[j].id {
        InsertHolds(e, s[1..], rest[j]);
        assert rest[j] in rest;
        assert s[0] in s;
      }
    }
  }

  lemma {:induction false} NewerThanHolds(list: seq<RealtimeEvent>, after: int, x: RealtimeEvent)
    ensures x in NewerThan(list, after) <==> x in list && x.id > after
  {
    if list != [] {
      NewerThanHolds(list[..|list| - 1], after, x);
      assert list == list[..|list| - 1] + [list[|list| - 1]];
    }
  }

  /** Replaying a list with distinct ids: ascending, and exactly the newer events. */
  lemma {:induction false} ReplayAscends(list: seq<RealtimeEvent>, after: int)
    requires DistinctIds(list)
    ensures StrictlyAscending(Replay(list, after))
    ensures forall x :: x in Replay(list, after) <==> x in list && x.id > after
  {
    if list != [] {
      var front, e := list[..|list| - 1], list[|list| - 1];
      ReplayAscends(front, after);
      var newer := NewerThan(front, after);
      assert forall x :: x in list <==> x in front || x == e;
      if e.id > after {
        assert (newer + [e])[..|newer|] == newer;
        assert Replay(list, after) == Insert(e, Replay(front, after));
        forall x | x in Replay(front, after) ensures x.id != e.id {
          var i :| 0 <= i < |front| && front[i] == x;
          assert list[i] == x;
        }
        InsertAscends(e, Replay(front, after));
        forall x ensures x in Replay(list, after) <==> x == e || x in Replay(front, after) {
          InsertHolds(e, Replay(front, after), x);
        }
      } else {
        assert newer + [] == newer;
      }
    }
  }

  /** Ascending sequences with the same members are the same sequence. */
  lemma {:induction false} AscendingIsUnique(a: seq<RealtimeEvent>, b: seq<RealtimeEvent>)
    requires StrictlyAscending(a) && StrictlyAscending(b)
    requires forall x :: x in a <==> x in b
    ensures a == b
    decreases a
  {
    assert a != [] ==> a[0] in a;
    assert b != [] ==> b[0] in b;
    if a != [] {
      var i :| 0 <= i < |b| && b[i] == a[0];
      var j :| 0 <= j < |a| && a[j] == b[0];
      assert a[0] == b[0];
      forall x ensures x in a[1..] <==> x in b[1..] {
        TailHolds(a, x);
        TailHolds(b, x);
      }
      AscendingIsUnique(a[1..], b[1..]);
    }
  }

  lemma TailHolds(a: seq<RealtimeEvent>, x: RealtimeEvent)
    requires a != [] && StrictlyAscending(a)
    ensures x in a[1..] <==> x in a && x != a[0]
  {
    assert a == [a[0]] + a[1..];
  }

  // ----- producers: id allocation and push are separate steps -----

  /**
   * The tenant's id counter, the ids handed out but not pushed to this channel,
   * every push in order, the number of pushes since the list last expired, and
   * the list itself.
   */
  datatype Channel = Channel(counter: nat, inFlight: set<nat>, log: seq<RealtimeEvent>, live: nat, list: seq<RealtimeEvent>)

  const EMPTY := Channel(0, {}, [], 0, [])

  /** `Allocate` also stands for ids taken by the tenant's other channel, followed by `GiveUp`. */
  datatype Step = Allocate | Retain(e: RealtimeEvent) | GiveUp(id: nat) | Expire

  ghost predicate Enabled(s: Channel, step: Step) {
    match step
    case Allocate => true
    case Retain(e) => e.id in s.inFlight
    case GiveUp(id) => id in s.inFlight
    case Expire => true
  }

  ghost function Apply(s: Channel, step: Step): Channel {
    match step
    case Allocate => s.(counter := s.counter + 1, inFlight := s.inFlight + {s.counter + 1})
    case Retain(e) => s.(inFlight := s.inFlight - {e.id}, log := s.log + [e], live := s.live + 1, list := Pushed(s.list, e))
    case GiveUp(id) => s.(inFlight := s.inFlight - {id})
    case Expire => s.(live := 0, list := [])
  }

  ghost function After(run: seq<Step>): Channel {
    if run == [] then EMPTY else Apply(After(run[..|run| - 1]), run[|run| - 1])
  }

  ghost predicate Valid(run: seq<Step>) {
    run == [] || (Valid(run[..|run| - 1]) && Enabled(After(run[..|run| - 1]), run[|run| - 1]))
  }

  function Recent(log: seq<RealtimeEvent>, k: nat): seq<RealtimeEvent> {
    if k <= |log| then log[|log| - k..] else log
  }

  /** The pushes that the list should hold: the last 200 since it last expired. */
  function Kept(s: Channel): seq<RealtimeEvent> {
    Recent(s.log, if s.live < RETAINED_MAX then s.live else RETAINED_MAX)
  }

  ghost predicate IsReverse(a: seq<RealtimeEvent>, b: seq<RealtimeEvent>) {
    |a| == |b| && forall i :: 0 <= i < |a| ==> a[i] == b[|b| - 1 - i]
  }

  ghost predicate Inv(s: Channel) {
    && DistinctIds(s.log)
    && (forall i :: 0 <= i < |s.log| ==> s.log[i].id <= s.counter && s.log[i].id !in s.inFlight)
    && (forall id :: id in s.inFlight ==> id <= s.counter)
    && s.live <= |s.log|
    && IsReverse(s.list, Kept(s))
  }

  lemma RetainKeepsReverse(s: Channel, e: RealtimeEvent)
    requires s.live <= |s.log| && IsReverse(s.list, Kept(s))
    ensures IsReverse(Apply(s, Retain(e)).list, Kept(Apply(s, Retain(e))))
  {
    var t := Apply(s, Retain(e));
    forall i | 0 <= i < |t.list| ensures t.list[i] == t.log[|t.log| - 1 - i] {
      if i > 0 {
        assert t.list[i] == s.list[i - 1];
      }
    }
  }

  lemma RetainKeeps(s: Channel, e: RealtimeEvent)
    requires Inv(s) && e.id in s.inFlight
    ensures Inv(Apply(s, Retain(e)))
  {
    RetainKeepsReverse(s, e);
    hide Kept, IsReverse, Pushed;
  }

  lemma OtherStepsKeep(s: Channel, step: Step)
    requires Inv(s) && Enabled(s, step) && !step.Retain?
    ensures Inv(Apply(s, step))
  {
  }

  lemma {:induction false} InvHolds(run: seq<Step>)
    requires Valid(run)
    ensures Inv(After(run))
  {
    hide Inv, Apply;
    if run == [] {
      EmptyInv();
    } else {
      var s, step := After(run[..|run| - 1]), run[|run| - 1];
      InvHolds(run[..|run| - 1]);
      if step.Retain? {
        RetainKeeps(s, step.e);
      } else {
        OtherStepsKeep(s, step);
      }
    }
  }

  lemma EmptyInv()
    ensures Inv(EMPTY)
  {
  }

  /**
   * However id allocation and pushes of many producers interleave, a replay is
   * strictly ascending and holds exactly the events newer than the cursor among
   * the last 200 pushes since the list last expired.
   */
  lemma ReplayIsExact(run: seq<Step>, after: int)
    requires Valid(run)
    ensures var s := After(run);
            && StrictlyAscending(Replay(s.list, after))
            && forall x :: x in Replay(s.list, after) <==> x in Kept(s) && x.id > after
  {
    InvHolds(run);
    var s := After(run);
    ReversedIsDistinct(s.list, Kept(s));
    ReplayAscends(s.list, after);
    forall x ensures x in s.list <==> x in Kept(s) {
      ReversedHolds(s.list, Kept(s), x);
    }
  }

  lemma ReversedIsDistinct(a: seq<RealtimeEvent>, b: seq<RealtimeEvent>)
    requires IsReverse(a, b) && DistinctIds(b)
    ensures DistinctIds(a)
  {
  }

  lemma ReversedHolds(a: seq<RealtimeEvent>, b: seq<RealtimeEvent>, x: RealtimeEvent)
    requires IsReverse(a, b)
    ensures x in a <==> x in b
  {
    forall i | 0 <= i < |b| ensures b[i] in a {
      assert a[|a| - 1 - i] == b[i];
    }
  }

  /** Without an expiry the list holds exactly the last 200 pushes. */
  lemma {:induction false} NoExpiryKeepsAll(run: seq<Step>)
    requires Expire !in run
    ensures After(run).live == |After(run).log|
  {
    if run != [] {
      NoExpiryKeepsAll(run[..|run| - 1]);
      assert run[|run| - 1] in run;
    }
  }

  lemma KeptIsTail(s: Channel, j: nat)
    requires DistinctIds(s.log) && s.live <= |s.log| && j < |s.log|
    ensures s.log[j] in Kept(s) <==> j >= |s.log| - |Kept(s)|
  {
    var from := |s.log| - |Kept(s)|;
    assert Kept(s) == s.log[from..];
    if j >= from {
      assert s.log[from..][j - from] == s.log[j];
    }
  }

  /**
   * Exactly when resuming misses nothing: of the pushes from position `p` on, a
   * replay after the cursor holds all if and only if they are all still retained
   * and every one of their ids is above the cursor.
   */
  lemma NothingIsMissedIff(run: seq<Step>, p: nat, after: int)
    requires Valid(run) && p <= |After(run).log|
    ensures var s := After(run);
            (forall j :: p <= j < |s.log| ==> s.log[j] in Replay(s.list, after))
            <==> |s.log| - p <= |Kept(s)| && forall j :: p <= j < |s.log| ==> s.log[j].id > after
  {
    InvHolds(run);
    ReplayIsExact(run, after);
    hide Valid, After, Replay, Kept, IsReverse;
    var s := After(run);
    forall j: nat | p <= j < |s.log|
      ensures s.log[j] in Replay(s.list, after) <==> j >= |s.log| - |Kept(s)| && s.log[j].id > after
    {
      KeptIsTail(s, j);
    }
    if p < |s.log| {
      assert s.log[p] in Replay(s.list, after) ==> p >= |s.log| - |Kept(s)|;
    }
  }
}

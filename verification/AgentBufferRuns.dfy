/**
 * What holds in every state the agent's buffer can reach, and how a full buffer
 * drains when every flush is acknowledged.
 */
module AgentBufferRuns {
  import opened AgentBuffer

  datatype Op =
    | Put(samples: seq<Sample>, now: int)
    | Confirm(sequence: int)
    | Sweep(ttl: int, now: int)

  /** The buffer beside its history: every item ever enqueued, and how many were acknowledged. */
  datatype History = History(buf: Buffer, enqueued: seq<Item>, acked: nat)

  function Step(h: History, op: Op): History {
    match op
    case Put(samples, now) =>
      History(Enqueued(h.buf, samples, now), h.enqueued + [Item(h.buf.nextSeq, samples, now)], h.acked)
    case Confirm(sequence) =>
      var b := Acked(h.buf, sequence);
      History(b, h.enqueued, h.acked + |h.buf.items| - |b.items|)
    case Sweep(ttl, now) => h.(buf := Expired(h.buf, ttl, now))
  }

  function Run(maxBytes: int, start: int, ops: seq<Op>): History {
    if ops == [] then History(NewAt(maxBytes, start), [], 0)
    else Step(Run(maxBytes, start, ops[..|ops| - 1]), ops[|ops| - 1])
  }

  /** Readings of a clock that never goes back. */
  ghost predicate MonotoneClock(ops: seq<Op>) {
    forall i, j :: 0 <= i < j < |ops| && !ops[i].Confirm? && !ops[j].Confirm? ==> ops[i].now <= ops[j].now
  }

  /** The held items are the newest ones ever enqueued, numbered without a gap up to `nextSeq`. */
  ghost predicate HoldsNewest(h: History) {
    && |h.buf.items| <= |h.enqueued|
    && h.buf.items == h.enqueued[|h.enqueued| - |h.buf.items|..]
    && (forall i :: 0 <= i < |h.enqueued| ==> h.enqueued[i].sequence == h.buf.nextSeq - |h.enqueued| + i)
  }

  ghost predicate WithinBounds(b: Buffer) {
    && b.queued == TotalBytes(b.items)
    && (b.maxBytes >= 0 ==> |b.items| <= 256 && b.queued <= b.maxBytes)
  }

  ghost predicate Conserved(h: History) {
    |h.enqueued| == |h.buf.items| + h.acked + h.buf.droppedOverflow + h.buf.droppedExpired
  }

  ghost predicate InAgeOrder(items: seq<Item>) {
    forall i, j :: 0 <= i < j < |items| ==> items[i].createdAt <= items[j].createdAt
  }

  // ----- removal takes a prefix -----

  ghost predicate TakesPrefix(items: seq<Item>, why: Reason) {
    forall i, j :: 0 <= i < j < |items| && Goes(items[j], why) ==> Goes(items[i], why)
  }

  /** Where the items that go end. */
  lemma {:induction false} FirstToStay(items: seq<Item>, why: Reason) returns (k: nat)
    requires TakesPrefix(items, why)
    ensures k <= |items|
    ensures forall i :: 0 <= i < k ==> Goes(items[i], why)
    ensures forall i :: k <= i < |items| ==> !Goes(items[i], why)
    decreases |items|
  {
    hide Goes;
    k := |items|;
    if items != [] && !Goes(items[|items| - 1], why) {
      var front := items[..|items| - 1];
      assert forall i :: 0 <= i < |front| ==> front[i] == items[i];
      k := FirstToStay(front, why);
    }
  }

  lemma {:induction false} AllGo(items: seq<Item>, why: Reason)
    requires forall i :: 0 <= i < |items| ==> Goes(items[i], why)
    ensures Kept(items, why) == []
  {
    hide Goes;
    if items != [] {
      AllGo(items[..|items| - 1], why);
    }
  }

  /** What is kept of a first part that goes and a second part that stays. */
  lemma {:induction false} KeptOfSplit(items: seq<Item>, why: Reason, k: nat)
    requires k <= |items|
    requires forall i :: 0 <= i < k ==> Goes(items[i], why)
    requires forall i :: k <= i < |items| ==> !Goes(items[i], why)
    ensures Kept(items, why) == items[k..]
    decreases |items|
  {
    hide Goes, Kept;
    if k == |items| {
      AllGo(items, why);
    } else {
      var n := |items| - 1;
      var front := items[..n];
      assert forall i :: 0 <= i < |front| ==> front[i] == items[i];
      KeptOfSplit(front, why, k);
      KeptNext(items, n, why);
      assert items[..n + 1] == items && items[k..] == front[k..] + [items[n]];
    }
  }

  lemma KeptIsSuffix(items: seq<Item>, why: Reason)
    requires TakesPrefix(items, why)
    ensures var k := |items| - |Kept(items, why)|;
            && Kept(items, why) == items[k..]
            && (forall i :: 0 <= i < k ==> Goes(items[i], why))
            && (forall i :: k <= i < |items| ==> !Goes(items[i], why))
  {
    hide Goes, Kept;
    var k := FirstToStay(items, why);
    KeptOfSplit(items, why, k);
  }

  lemma {:induction false} BytesOfSuffix(items: seq<Item>, k: nat)
    requires k <= |items|
    ensures TotalBytes(items[k..]) <= TotalBytes(items)
  {
    if k > 0 {
      TotalBytesHead(items);
      assert items[1..][k - 1..] == items[k..];
      BytesOfSuffix(items[1..], k - 1);
    } else {
      assert items[0..] == items;
    }
  }

  lemma FitsKeepsSuffix(items: seq<Item>, k: nat, maxBytes: int)
    requires k <= |items| && Fits(items, maxBytes)
    ensures Fits(items[k..], maxBytes)
  {
    BytesOfSuffix(items, k);
  }

  /**
   * `Enqueue` keeps the longest suffix that fits: what it keeps fits (or is
   * empty), and nothing longer does.
   */
  lemma {:induction false} ExcessIsLeast(items: seq<Item>, maxBytes: int)
    ensures var k := Excess(items, maxBytes);
            && (items[k..] == [] || (|items[k..]| <= 256 && TotalBytes(items[k..]) <= maxBytes))
            && (forall i :: 0 <= i < k ==> |items[i..]| > 256 || TotalBytes(items[i..]) > maxBytes)
    decreases items
  {
    var k := Excess(items, maxBytes);
    if k == 0 {
      assert items[0..] == items;
    } else {
      ExcessIsLeast(items[1..], maxBytes);
      assert items[1..][k - 1..] == items[k..];
      forall i | 0 <= i < k ensures |items[i..]| > 256 || TotalBytes(items[i..]) > maxBytes {
        if i == 0 {
          assert items[0..] == items;
        } else {
          assert items[1..][i - 1..] == items[i..];
        }
      }
    }
  }

  // ----- every reachable state -----

  lemma PutKeeps(h: History, samples: seq<Sample>, now: int)
    requires HoldsNewest(h) && WithinBounds(h.buf) && Conserved(h)
    ensures var t := Step(h, Put(samples, now)); HoldsNewest(t) && WithinBounds(t.buf) && Conserved(t)
  {
    var items := h.buf.items + [Item(h.buf.nextSeq, samples, now)];
    ExcessIsLeast(items, h.buf.maxBytes);
    hide TotalBytes, Excess;
    EmptyFits(h.buf.maxBytes);
    var t := Step(h, Put(samples, now));
    assert items == t.enqueued[|t.enqueued| - |items|..];
  }

  lemma EmptyFits(maxBytes: int)
    ensures maxBytes >= 0 ==> Fits([], maxBytes)
  {
  }

  lemma ConfirmKeeps(h: History, sequence: int)
    requires HoldsNewest(h) && WithinBounds(h.buf) && Conserved(h)
    ensures var t := Step(h, Confirm(sequence)); HoldsNewest(t) && WithinBounds(t.buf) && Conserved(t)
  {
    var b := h.buf;
    hide Kept, TotalBytes, Fits;
    KeptIsSuffix(b.items, AckedUpTo(sequence));
    if b.maxBytes >= 0 {
      FitsKeepsSuffix(b.items, |b.items| - |Kept(b.items, AckedUpTo(sequence))|, b.maxBytes);
    }
  }

  lemma SweepKeeps(h: History, ttl: int, now: int)
    requires HoldsNewest(h) && WithinBounds(h.buf) && Conserved(h) && InAgeOrder(h.enqueued)
    ensures var t := Step(h, Sweep(ttl, now)); HoldsNewest(t) && WithinBounds(t.buf) && Conserved(t)
  {
    var b := h.buf;
    hide Kept, TotalBytes, Fits;
    KeptIsSuffix(b.items, CreatedBefore(now - ttl));
    if b.maxBytes >= 0 {
      FitsKeepsSuffix(b.items, |b.items| - |Kept(b.items, CreatedBefore(now - ttl))|, b.maxBytes);
    }
  }

  /** Items carry the clock readings of their `Put`s, so they are in age order. */
  lemma {:induction false} EnqueuedInAgeOrder(maxBytes: int, start: int, ops: seq<Op>, bound: int)
    requires MonotoneClock(ops)
    requires forall i :: 0 <= i < |ops| && !ops[i].Confirm? ==> ops[i].now <= bound
    ensures var e := Run(maxBytes, start, ops).enqueued;
            InAgeOrder(e) && forall i :: 0 <= i < |e| ==> e[i].createdAt <= bound
  {
    if ops != [] {
      var front, op := ops[..|ops| - 1], ops[|ops| - 1];
      EnqueuedInAgeOrder(maxBytes, start, front, if op.Confirm? then bound else op.now);
    }
  }

  ghost predicate Sound(h: History) { HoldsNewest(h) && WithinBounds(h.buf) && Conserved(h) }

  lemma StepKeepsSound(h: History, op: Op)
    requires Sound(h) && (op.Sweep? ==> InAgeOrder(h.enqueued))
    ensures Sound(Step(h, op))
  {
    hide HoldsNewest, WithinBounds, Conserved, Step, InAgeOrder;
    match op
    case Put(samples, now) => PutKeeps(h, samples, now);
    case Confirm(sequence) => ConfirmKeeps(h, sequence);
    case Sweep(ttl, now) => SweepKeeps(h, ttl, now);
  }

  lemma InitialIsSound(maxBytes: int, start: int)
    ensures Sound(Run(maxBytes, start, []))
  {
    EmptyFits(maxBytes);
  }

  lemma MonotoneFront(ops: seq<Op>)
    requires ops != [] && MonotoneClock(ops)
    ensures MonotoneClock(ops[..|ops| - 1])
    ensures !ops[|ops| - 1].Confirm? ==>
              forall i :: 0 <= i < |ops| - 1 && !ops[i].Confirm? ==> ops[..|ops| - 1][i].now <= ops[|ops| - 1].now
  {
  }

  lemma RunSnoc(maxBytes: int, start: int, ops: seq<Op>)
    requires ops != []
    ensures Run(maxBytes, start, ops) == Step(Run(maxBytes, start, ops[..|ops| - 1]), ops[|ops| - 1])
  {
    hide Step;
  }

  /**
   * Every reachable state, under a clock that never goes back: the held items
   * are the newest ones enqueued, numbered [nextSeq - len, nextSeq); the byte
   * count is the sum of sizes; both bounds hold; and every item enqueued is
   * held, acknowledged, or counted as dropped.
   */
  lemma {:induction false} ReachableStates(maxBytes: int, start: int, ops: seq<Op>)
    requires MonotoneClock(ops)
    ensures Sound(Run(maxBytes, start, ops))
  {
    hide *;
    if ops == [] {
      InitialIsSound(maxBytes, start);
    } else {
      var front, op := ops[..|ops| - 1], ops[|ops| - 1];
      MonotoneFront(ops);
      ReachableStates(maxBytes, start, front);
      if op.Sweep? {
        EnqueuedInAgeOrder(maxBytes, start, front, op.now);
      }
      StepKeepsSound(Run(maxBytes, start, front), op);
      RunSnoc(maxBytes, start, ops);
    }
  }

  lemma HeldSequencesAreAnInterval(maxBytes: int, start: int, ops: seq<Op>)
    requires MonotoneClock(ops)
    ensures var b := Run(maxBytes, start, ops).buf;
            forall i :: 0 <= i < |b.items| ==> b.items[i].sequence == b.nextSeq - |b.items| + i
  {
    ReachableStates(maxBytes, start, ops);
  }

  /**
   * The numbering starts at the persisted sequence, or at 1 below that, and every
   * item ever enqueued has the start plus its place.
   */
  lemma SequencesStartAtTheSavedOne(maxBytes: int, start: int, ops: seq<Op>)
    requires MonotoneClock(ops)
    ensures var h := Run(maxBytes, start, ops);
            && h.buf.nextSeq == (if start < 1 then 1 else start) + |h.enqueued|
            && (forall i :: 0 <= i < |h.enqueued| ==> h.enqueued[i].sequence == (if start < 1 then 1 else start) + i)
  {
    hide Run, MonotoneClock;
    ReachableStates(maxBytes, start, ops);
    NextCountsEnqueued(maxBytes, start, ops);
  }

  lemma {:induction false} NextCountsEnqueued(maxBytes: int, start: int, ops: seq<Op>)
    ensures var h := Run(maxBytes, start, ops); h.buf.nextSeq == (if start < 1 then 1 else start) + |h.enqueued|
  {
    hide Excess, TotalBytes, Kept;
    if ops != [] {
      NextCountsEnqueued(maxBytes, start, ops[..|ops| - 1]);
    }
  }

  // ----- what a sweep takes in a run -----

  /** A sweep at the end of any run takes exactly the held items older than its time to live. */
  lemma SweepTakesTheOld(maxBytes: int, start: int, ops: seq<Op>, ttl: int, now: int, it: Item)
    ensures it in Run(maxBytes, start, ops + [Sweep(ttl, now)]).buf.items
       <==> it in Run(maxBytes, start, ops).buf.items && it.createdAt >= now - ttl
  {
    assert (ops + [Sweep(ttl, now)])[..|ops|] == ops;
    HeldAfterSweepIff(Run(maxBytes, start, ops).buf, ttl, now, it);
  }

  /** No step but a `Put` brings in an item, and that is the new one at its own time. */
  lemma OnlyPutAdds(h: History, op: Op, it: Item)
    requires it in Step(h, op).buf.items && it !in h.buf.items
    ensures op.Put? && it.createdAt == op.now
  {
    hide Excess, TotalBytes, Kept;
    match op
    case Put(_, _) =>
    case Confirm(sequence) => HeldAfterAckIff(h.buf, sequence, it);
    case Sweep(ttl, now) => HeldAfterSweepIff(h.buf, ttl, now, it);
  }

  /**
   * Over every run with a clock that never goes back: whatever is held at the end
   * is within the time to live of every sweep there has been.
   */
  lemma {:induction false} NoHeldItemIsOverAge(maxBytes: int, start: int, ops: seq<Op>, i: nat, it: Item)
    requires MonotoneClock(ops) && i < |ops| && ops[i].Sweep? && ops[i].ttl >= 0
    requires it in Run(maxBytes, start, ops).buf.items
    ensures it.createdAt >= ops[i].now - ops[i].ttl
    decreases |ops|
  {
    var front, op := ops[..|ops| - 1], ops[|ops| - 1];
    var h := Run(maxBytes, start, front);
    RunSnoc(maxBytes, start, ops);
    MonotoneFront(ops);
    hide Run, MonotoneClock;
    if it !in h.buf.items {
      OnlyPutAdds(h, op, it);
    } else if i < |front| {
      NoHeldItemIsOverAge(maxBytes, start, front, i, it);
    } else {
      HeldAfterSweepIff(h.buf, op.ttl, op.now, it);
    }
  }

  // ----- draining -----

  ghost predicate Consecutive(items: seq<Item>) {
    forall i :: 0 <= i < |items| ==> items[i].sequence == items[0].sequence + i
  }

  /** Acknowledging the first item's sequence removes that item alone. */
  lemma AckOfFirstRemovesFirst(items: seq<Item>)
    requires items != [] && Consecutive(items)
    ensures Kept(items, AckedUpTo(items[0].sequence)) == items[1..]
  {
    KeptIsSuffix(items, AckedUpTo(items[0].sequence));
    var k := |items| - |Kept(items, AckedUpTo(items[0].sequence))|;
    assert k >= 1;
    assert k == 1 || Goes(items[1], AckedUpTo(items[0].sequence));
  }

  /** An accepted flush: the gateway acknowledges the sequence it was sent. */
  function Flushed(b: Buffer): Buffer
    requires b.items != []
  {
    Acked(b, b.items[0].sequence)
  }

  /** The batches of `n` accepted flushes in a row; an empty buffer sends nothing. */
  function Batches(b: Buffer, m: nat, n: nat): seq<seq<Item>>
    decreases n
  {
    if n == 0 || b.items == [] then [] else [Batch(b, m)] + Batches(Flushed(b), m, n - 1)
  }

  function AfterFlushes(b: Buffer, n: nat): Buffer
    decreases n
  {
    if n == 0 || b.items == [] then b else AfterFlushes(Flushed(b), n - 1)
  }

  lemma {:induction false} FlushesRemoveOneEach(b: Buffer, n: nat)
    requires Consecutive(b.items) && n <= |b.items|
    ensures AfterFlushes(b, n).items == b.items[n..]
    decreases n
  {
    hide Kept, TotalBytes;
    if n > 0 {
      AckOfFirstRemovesFirst(b.items);
      assert Flushed(b).items == b.items[1..];
      FlushesRemoveOneEach(Flushed(b), n - 1);
    }
  }

  /** `n` buffered items are gone after exactly `n` accepted flushes, no fewer. */
  lemma DrainTakesOneFlushPerItem(b: Buffer, n: nat)
    requires Consecutive(b.items) && n <= |b.items|
    ensures AfterFlushes(b, n).items == [] <==> n == |b.items|
  {
    FlushesRemoveOneEach(b, n);
  }

  function TimesSent(batches: seq<seq<Item>>, it: Item): nat {
    if batches == [] then 0 else (if it in batches[0] then 1 else 0) + TimesSent(batches[1..], it)
  }

  lemma FirstFlush(b: Buffer, m: nat, n: nat, it: Item)
    requires Consecutive(b.items) && b.items != [] && n > 0
    ensures Flushed(b).items == b.items[1..] && Consecutive(Flushed(b).items)
    ensures TimesSent(Batches(b, m, n), it)
         == (if it in Batch(b, m) then 1 else 0) + TimesSent(Batches(Flushed(b), m, n - 1), it)
  {
    AckOfFirstRemovesFirst(b.items);
    hide Kept, TotalBytes;
    var batches := Batches(b, m, n);
    assert batches[0] == Batch(b, m) && batches[1..] == Batches(Flushed(b), m, n - 1);
  }

  /**
   * With peek limit `m`, the item at index `j` is sent in exactly
   * min(j, m - 1) + 1 of the batches that drain the buffer.
   */
  lemma {:induction false} TransmissionsPerItem(b: Buffer, m: nat, j: nat)
    requires Consecutive(b.items) && m >= 1 && j < |b.items|
    ensures TimesSent(Batches(b, m, |b.items|), b.items[j]) == (if j < m then j else m - 1) + 1
    decreases j
  {
    hide Batches, Flushed, TimesSent;
    var it, n := b.items[j], |b.items|;
    FirstFlush(b, m, n, it);
    assert it in Batch(b, m) <==> j < m by {
      if j < m {
        assert Batch(b, m)[j] == it;
      }
    }
    var next := Flushed(b);
    if j == 0 {
      SentItemIsNotResent(next, m, n - 1, it);
    } else {
      assert next.items[j - 1] == it;
      TransmissionsPerItem(next, m, j - 1);
    }
  }

  /** Once acknowledged, an item is in no later batch. */
  lemma {:induction false} SentItemIsNotResent(b: Buffer, m: nat, n: nat, it: Item)
    requires Consecutive(b.items) && (b.items != [] ==> it.sequence < b.items[0].sequence)
    ensures TimesSent(Batches(b, m, n), it) == 0
    decreases n
  {
    hide Batches, Flushed, TimesSent, Batch;
    if n == 0 || b.items == [] {
      NothingSent(b, m, n, it);
    } else {
      FirstFlush(b, m, n, it);
      NotInBatch(b, m, it);
      SentItemIsNotResent(Flushed(b), m, n - 1, it);
    }
  }

  lemma NothingSent(b: Buffer, m: nat, n: nat, it: Item)
    requires n == 0 || b.items == []
    ensures TimesSent(Batches(b, m, n), it) == 0
  {
  }

  lemma NotInBatch(b: Buffer, m: nat, it: Item)
    requires Consecutive(b.items) && b.items != [] && it.sequence < b.items[0].sequence
    ensures it !in Batch(b, m)
    ensures |b.items| > 1 ==> it.sequence < b.items[1].sequence
  {
  }
}

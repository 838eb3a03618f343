/**
 * The scheduler's flush: up to five attempts to send the oldest batches, with
 * backoff in between, an acknowledgement on success, and the next sequence
 * handed to the callback that persists it.
 */
module AgentFlush {
  import opened Prelude
  import opened AgentBuffer
  import Backoff
  import Runs = AgentBufferRuns

  const FLUSH_ITEMS := 100
  const MAX_ATTEMPTS := 5

  /** Items older than a day are swept out; times are nanoseconds. */
  const TTL := 24 * 3600 * Backoff.SECOND

  /** The largest batch the gateway's schema admits. */
  const GATEWAY_MAX_SAMPLES := 5000

  /** What the world does to one attempt: throttle it, let it reach the gateway, cancel the sleep after it. */
  datatype Attempt = Attempt(throttled: bool, reached: bool, cancelled: bool, clock: nat)

  datatype Outcome = Skipped | NothingToSend | Delivered | Cancelled | GaveUp

  datatype Request = Request(sequence: int, samples: seq<Sample>)

  function Outgoing(b: Buffer): seq<Sample> { AllSamples(Batch(b, FLUSH_ITEMS)) }

  /** Above 80% of the byte bound a failed attempt is retried without sleeping. */
  predicate Draining(b: Buffer) { b.queued as real > 0.8 * b.maxBytes as real }

  predicate Admissible(batch: seq<Sample>) { |batch| <= GATEWAY_MAX_SAMPLES }

  /** What one attempt decides; without an outcome the next one follows. */
  function AttemptOutcome(b: Buffer, a: Attempt): Option<Outcome> {
    if a.throttled then Some(Skipped)
    else if Outgoing(b) == [] then Some(NothingToSend)
    else if a.reached && Admissible(Outgoing(b)) then Some(Delivered)
    else if !Draining(b) && a.cancelled then Some(Cancelled)
    else None
  }

  function FlushOutcome(b: Buffer, attempts: seq<Attempt>): Outcome
    decreases attempts
  {
    if attempts == [] then GaveUp
    else
      match AttemptOutcome(b, attempts[0])
      case Some(outcome) => outcome
      case None => FlushOutcome(b, attempts[1..])
  }

  function AfterFlush(b: Buffer, attempts: seq<Attempt>): Buffer {
    if FlushOutcome(b, attempts) == Delivered && b.items != [] then Acked(b, b.items[0].sequence) else b
  }

  /** The request a flush sends for the head of the buffer. */
  function HeadRequest(b: Buffer): Request {
    Request(if b.items == [] then 0 else b.items[0].sequence, Outgoing(b))
  }

  /** How many requests a flush sends: one per attempt until one of them decides. */
  function Sends(b: Buffer, attempts: seq<Attempt>): nat
    decreases attempts
  {
    if attempts == [] || attempts[0].throttled || Outgoing(b) == [] then 0
    else 1 + if AttemptOutcome(b, attempts[0]).Some? then 0 else Sends(b, attempts[1..])
  }

  /** How long it sleeps, the attempts being the `n`-th and following. */
  function Sleeps(b: Buffer, attempts: seq<Attempt>, n: nat): int
    decreases attempts
  {
    if attempts == [] || AttemptOutcome(b, attempts[0]).Some? then 0
    else (if Draining(b) then 0 else Backoff.DelayOf(n, attempts[0].clock)) + Sleeps(b, attempts[1..], n + 1)
  }

  function Copies(r: Request, n: nat): seq<Request> { seq(n, _ => r) }

  class Scheduler {
    const buf: Limited
    var persisted: int
    var sent: seq<Request>

    constructor (buf: Limited, persisted: int)
      ensures this.buf == buf && this.persisted == persisted && sent == []
    {
      this.buf, this.persisted, sent := buf, persisted, [];
    }

    /**
     * One flush.  The buffer changes only on delivery, by the acknowledgement of
     * the first item; every request sent on the way is the same one.
     */
    method Flush(attempts: seq<Attempt>) returns (outcome: Outcome, slept: int)
      requires buf.Valid() && |attempts| == MAX_ATTEMPTS
      modifies this, buf, buf.backing
      ensures buf.Valid() && buf.backing == old(buf.backing)
      ensures outcome == FlushOutcome(old(buf.Contents()), attempts)
      ensures buf.Contents() == AfterFlush(old(buf.Contents()), attempts)
      ensures persisted == if outcome == Delivered then MaxInt(old(persisted), old(buf.nextSeq)) else old(persisted)
      ensures sent == old(sent) + Copies(HeadRequest(old(buf.Contents())), Sends(old(buf.Contents()), attempts))
      ensures slept == Sleeps(old(buf.Contents()), attempts, 0)
    {
      hide AttemptOutcome, Draining, Admissible, Outgoing, Acked, Backoff.DelayOf;
      ghost var b := buf.Contents();
      assert attempts[0..] == attempts;
      slept := 0;
      for attempt := 0 to MAX_ATTEMPTS
        invariant buf.Valid() && buf.Contents() == b && buf.backing == old(buf.backing)
        invariant persisted == old(persisted)
        invariant FlushOutcome(b, attempts) == FlushOutcome(b, attempts[attempt..])
        invariant sent == old(sent) + Copies(HeadRequest(b), attempt)
        invariant Sends(b, attempts) == attempt + Sends(b, attempts[attempt..])
        invariant Sleeps(b, attempts, 0) == slept + Sleeps(b, attempts[attempt..], attempt)
      {
        assert attempts[attempt..][0] == attempts[attempt] && attempts[attempt..][1..] == attempts[attempt + 1..];
        UndecidedSends(b, attempts[attempt..]);
        var decided, delay := TryOnce(attempts[attempt], attempt, b);
        MoreCopies(old(sent), HeadRequest(b), attempt);
        if decided.Some? {
          return decided.value, slept;
        }
        slept := slept + delay;
      }
      return GaveUp, slept;
    }

    /** The body of the retry loop; a cancelled sleep ends it. */
    method TryOnce(a: Attempt, attempt: nat, ghost b: Buffer) returns (decided: Option<Outcome>, delay: int)
      requires buf.Valid() && buf.Contents() == b && attempt < MAX_ATTEMPTS
      modifies this, buf, buf.backing
      ensures buf.Valid() && buf.backing == old(buf.backing)
      ensures decided == AttemptOutcome(b, a)
      ensures buf.Contents() == if decided == Some(Delivered) && b.items != [] then Acked(b, b.items[0].sequence) else b
      ensures persisted == if decided == Some(Delivered) then MaxInt(old(persisted), b.nextSeq) else old(persisted)
      ensures sent == old(sent) + (if a.throttled || Outgoing(b) == [] then [] else [HeadRequest(b)])
      ensures delay == if decided.Some? || Draining(b) then 0 else Backoff.DelayOf(attempt, a.clock)
    {
      hide AllSamples, Batch, Kept, TotalBytes, ApproxBytes, Goes, Backoff.Pow2, Backoff.DelayOf;
      if a.throttled {
        return Some(Skipped), 0;
      }
      var batch, firstSeq := buf.PeekBatch(FLUSH_ITEMS);
      if |batch| == 0 {
        return Some(NothingToSend), 0;
      }
      EmptyBufferSendsNothing(b);
      sent := sent + [Request(firstSeq, batch)];
      if a.reached && Admissible(batch) {
        Acknowledge(firstSeq);
        return Some(Delivered), 0;
      }
      if buf.queued as real > 0.8 * buf.maxBytes as real {
        return None, 0;
      }
      delay := Backoff.RetryDelay(attempt, a.clock);
      if a.cancelled {
        return Some(Cancelled), 0;
      }
      return None, delay;
    }

    /** The gateway has acknowledged the first item: drop it and hand on the next sequence. */
    method Acknowledge(sequence: int)
      requires buf.Valid()
      modifies this`persisted, buf, buf.backing
      ensures buf.Valid() && buf.backing == old(buf.backing)
      ensures buf.Contents() == Acked(old(buf.Contents()), sequence)
      ensures persisted == MaxInt(old(persisted), old(buf.nextSeq))
    {
      var _ := buf.Ack(sequence);
      persisted := MaxInt(persisted, buf.nextSeq);
    }
  }

  /** An attempt that does not end the flush has sent its request. */
  lemma UndecidedSends(b: Buffer, attempts: seq<Attempt>)
    requires attempts != []
    ensures AttemptOutcome(b, attempts[0]).None? ==> !attempts[0].throttled && Outgoing(b) != []
  {
  }

  lemma MoreCopies(before: seq<Request>, r: Request, n: nat)
    ensures before + Copies(r, n) + [] == before + Copies(r, n)
    ensures before + Copies(r, n) + [r] == before + Copies(r, n + 1)
  {
  }

  /** A flush that delivers has sent one request per attempt up to the first that gets through; one that gives up, all five. */
  lemma {:induction false} SendsCountAttempts(b: Buffer, attempts: seq<Attempt>, i: nat)
    ensures FlushOutcome(b, attempts) == GaveUp ==> Sends(b, attempts) == |attempts|
    ensures (GetsThrough(b, attempts, i) && Outgoing(b) != [] && Admissible(Outgoing(b))
             && forall j :: 0 <= j < i ==> !attempts[j].reached) ==> Sends(b, attempts) == i + 1
    decreases attempts
  {
    hide Outgoing, Admissible, Draining;
    if attempts != [] {
      var tail := attempts[1..];
      assert forall j :: 0 <= j < |tail| ==> tail[j] == attempts[j + 1];
      if i > 0 {
        SendsCountAttempts(b, tail, i - 1);
      } else {
        SendsCountAttempts(b, tail, 0);
      }
    }
  }

  /**
   * Sleeping: nothing above 80% of the byte bound; below it, at most 31 s in all,
   * and at least half of that when the flush gives up.
   */
  lemma FlushSleepsWithinBounds(b: Buffer, attempts: seq<Attempt>)
    requires |attempts| == MAX_ATTEMPTS
    ensures 5 * b.queued > 4 * b.maxBytes ==> Sleeps(b, attempts, 0) == 0
    ensures 0 <= Sleeps(b, attempts, 0) <= 31_000_000_000
    ensures 5 * b.queued <= 4 * b.maxBytes && FlushOutcome(b, attempts) == GaveUp ==>
              2 * Sleeps(b, attempts, 0) >= 31_000_000_000
  {
    SleepsFrom(b, attempts, 0);
    PowersUpTo5();
    assert Draining(b) <==> 5 * b.queued > 4 * b.maxBytes;
  }

  lemma PowersUpTo5()
    ensures Backoff.Pow2(0) == 1 && Backoff.Pow2(1) == 2 && Backoff.Pow2(2) == 4 && Backoff.Pow2(3) == 8
    ensures Backoff.Pow2(4) == 16 && Backoff.Pow2(5) == 32
  {
  }

  lemma DelayInRange(n: nat, jitter: nat)
    requires n < MAX_ATTEMPTS
    ensures Backoff.Pow2(n) * 1_000_000_000 <= 2 * Backoff.DelayOf(n, jitter) < 2 * Backoff.Pow2(n) * 1_000_000_000
    ensures Backoff.Pow2(n + 1) == 2 * Backoff.Pow2(n)
  {
    PowersUpTo5();
    var r := jitter % 1000;
    assert Backoff.DelayOf(n, jitter) == Backoff.Pow2(n) * 1_000_000_000 * (1000 + r) / 2000;
    assert Backoff.Pow2(n) * 1_000_000_000 * (1000 + r) == Backoff.Pow2(n) * 500_000 * (1000 + r) * 2000;
  }

  lemma {:induction false} SleepsFrom(b: Buffer, attempts: seq<Attempt>, n: nat)
    requires n + |attempts| <= MAX_ATTEMPTS
    ensures Draining(b) ==> Sleeps(b, attempts, n) == 0
    ensures 0 <= Sleeps(b, attempts, n) <= (Backoff.Pow2(n + |attempts|) - Backoff.Pow2(n)) * 1_000_000_000
    ensures !Draining(b) && FlushOutcome(b, attempts) == GaveUp ==>
              2 * Sleeps(b, attempts, n) >= (Backoff.Pow2(n + |attempts|) - Backoff.Pow2(n)) * 1_000_000_000
    decreases attempts
  {
    hide Draining, AttemptOutcome, Backoff.Pow2, Backoff.DelayOf;
    Backoff.Pow2Grows(n, n + |attempts|);
    if attempts != [] {
      DelayInRange(n, attempts[0].clock);
      SleepsFrom(b, attempts[1..], n + 1);
      AttemptsDoNotGiveUp(b, attempts[0]);
    }
  }

  lemma AttemptsDoNotGiveUp(b: Buffer, a: Attempt)
    ensures AttemptOutcome(b, a) != Some(GaveUp)
  {
  }

  /** A request carries the samples of the first hundred items, or of all of them. */
  lemma RequestCarriesTheOldest(b: Buffer)
    ensures |b.items| <= 100 ==> HeadRequest(b).samples == AllSamples(b.items)
    ensures |b.items| > 100 ==> HeadRequest(b).samples == AllSamples(b.items[..100])
    ensures b.items != [] ==> HeadRequest(b).sequence == b.items[0].sequence
  {
    hide AllSamples;
    assert |b.items| <= 100 ==> b.items[..|b.items|] == b.items;
  }

  lemma EmptyBufferSendsNothing(b: Buffer)
    ensures b.items == [] ==> Outgoing(b) == []
  {
  }

  /** Attempt `i` reaches the gateway and nothing before it ends the flush first. */
  ghost predicate GetsThrough(b: Buffer, attempts: seq<Attempt>, i: int) {
    && 0 <= i < |attempts| && attempts[i].reached && !attempts[i].throttled
    && forall j :: 0 <= j < i ==>
         !attempts[j].throttled && (Draining(b) || !attempts[j].cancelled || attempts[j].reached)
  }

  lemma GetsThroughLater(b: Buffer, attempts: seq<Attempt>)
    requires attempts != []
    ensures (exists i :: GetsThrough(b, attempts, i))
       <==> GetsThrough(b, attempts, 0) ||
            (!attempts[0].throttled && (Draining(b) || !attempts[0].cancelled || attempts[0].reached)
             && exists i :: GetsThrough(b, attempts[1..], i))
  {
    var tail := attempts[1..];
    forall i | GetsThrough(b, attempts, i) && i > 0 ensures GetsThrough(b, tail, i - 1) {
      assert forall j :: 0 <= j < i - 1 ==> tail[j] == attempts[j + 1];
    }
    forall i | GetsThrough(b, tail, i) && !attempts[0].throttled
               && (Draining(b) || !attempts[0].cancelled || attempts[0].reached)
      ensures GetsThrough(b, attempts, i + 1)
    {
      assert forall j :: 0 < j < i + 1 ==> attempts[j] == tail[j - 1];
    }
  }

  /** A flush delivers exactly when the batch is non-empty and admissible and some attempt gets through. */
  lemma {:induction false} DeliversIff(b: Buffer, attempts: seq<Attempt>)
    ensures FlushOutcome(b, attempts) == Delivered
       <==> Outgoing(b) != [] && Admissible(Outgoing(b)) && exists i :: GetsThrough(b, attempts, i)
    decreases attempts
  {
    hide Outgoing;
    if attempts != [] {
      DeliversIff(b, attempts[1..]);
      GetsThroughLater(b, attempts);
      assert GetsThrough(b, attempts, 0) <==> attempts[0].reached && !attempts[0].throttled;
    }
  }

  // ----- a head that the gateway always refuses -----

  /** A turn of the scheduler's loop: collect new samples and flush, or sweep out old items. */
  datatype Turn = CollectAndFlush(samples: seq<Sample>, now: int, attempts: seq<Attempt>) | DropExpired(now: int)

  function AfterTurn(b: Buffer, turn: Turn): Buffer {
    match turn
    case CollectAndFlush(samples, now, attempts) => AfterFlush(Enqueued(b, samples, now), attempts)
    case DropExpired(now) => Expired(b, TTL, now)
  }

  function AfterTurns(b: Buffer, turns: seq<Turn>): Buffer {
    if turns == [] then b else AfterTurn(AfterTurns(b, turns[..|turns| - 1]), turns[|turns| - 1])
  }

  /** The minute sweep takes exactly the held items that are more than 24 hours old. */
  lemma SweepTakesWhatIsADayOld(b: Buffer, now: int, it: Item)
    ensures it in AfterTurn(b, DropExpired(now)).items <==> it in b.items && it.createdAt >= now - 86_400_000_000_000
  {
    HeldAfterSweepIff(b, TTL, now, it);
  }

  /** The two drop counters have not moved. */
  predicate NothingDropped(b: Buffer, c: Buffer) {
    c.droppedOverflow == b.droppedOverflow && c.droppedExpired == b.droppedExpired
  }

  lemma {:induction false} PrefixHasFewerSamples(items: seq<Item>, n: nat)
    requires n <= |items|
    ensures |AllSamples(items[..n])| <= |AllSamples(items)|
  {
    if n < |items| {
      PrefixHasFewerSamples(items[..|items| - 1], n);
      assert items[..|items| - 1][..n] == items[..n];
    } else {
      assert items[..n] == items;
    }
  }

  lemma LongerBufferSendsNoLess(b: Buffer, c: Buffer)
    requires b.items <= c.items
    ensures |Outgoing(b)| <= |Outgoing(c)|
  {
    var x, y := Batch(b, FLUSH_ITEMS), Batch(c, FLUSH_ITEMS);
    assert x == y[..|x|];
    PrefixHasFewerSamples(y, |x|);
  }

  lemma TurnOnlyAddsDrops(b: Buffer, turn: Turn)
    ensures AfterTurn(b, turn).droppedOverflow >= b.droppedOverflow
    ensures AfterTurn(b, turn).droppedExpired >= b.droppedExpired
  {
    hide Excess, TotalBytes, Kept, FlushOutcome, Outgoing;
  }

  lemma {:induction false} TurnsOnlyAddDrops(b: Buffer, turns: seq<Turn>)
    ensures AfterTurns(b, turns).droppedOverflow >= b.droppedOverflow
    ensures AfterTurns(b, turns).droppedExpired >= b.droppedExpired
  {
    hide AfterTurn;
    if turns != [] {
      TurnsOnlyAddDrops(b, turns[..|turns| - 1]);
      TurnOnlyAddsDrops(AfterTurns(b, turns[..|turns| - 1]), turns[|turns| - 1]);
    }
  }

  lemma {:induction false} NoneGoneIsUnchanged(items: seq<Item>, why: Reason)
    requires |Kept(items, why)| == |items|
    ensures Kept(items, why) == items
  {
    hide Goes;
    if items != [] {
      NoneGoneIsUnchanged(items[..|items| - 1], why);
    }
  }

  /** With an oversized head, a turn that drops nothing delivers nothing either. */
  lemma OversizedHeadStays(b: Buffer, turn: Turn)
    requires !Admissible(Outgoing(b)) && NothingDropped(b, AfterTurn(b, turn))
    ensures b.items <= AfterTurn(b, turn).items && !Admissible(Outgoing(AfterTurn(b, turn)))
  {
    hide Outgoing, Excess, TotalBytes, Kept, FlushOutcome;
    match turn
    case CollectAndFlush(samples, now, attempts) =>
      var e := Enqueued(b, samples, now);
      assert Excess(b.items + [Item(b.nextSeq, samples, now)], b.maxBytes) == 0;
      assert e.items == b.items + [Item(b.nextSeq, samples, now)];
      LongerBufferSendsNoLess(b, e);
      DeliversIff(e, attempts);
    case DropExpired(now) =>
      NoneGoneIsUnchanged(b.items, CreatedBefore(now - TTL));
      LongerBufferSendsNoLess(b, Expired(b, TTL, now));
  }

  /**
   * If the oldest 100 batches together exceed the gateway's limit, no flush can
   * succeed: over any number of turns nothing is delivered and nothing leaves
   * the buffer until an overflow or the daily age limit drops it.
   */
  lemma {:induction false} OversizedHeadBlocksTheBuffer(b: Buffer, turns: seq<Turn>)
    requires !Admissible(Outgoing(b)) && NothingDropped(b, AfterTurns(b, turns))
    ensures var c := AfterTurns(b, turns); b.items <= c.items && !Admissible(Outgoing(c))
  {
    hide Outgoing, AfterTurn;
    if turns != [] {
      var front := turns[..|turns| - 1];
      var c := AfterTurns(b, front);
      TurnsOnlyAddDrops(b, front);
      TurnOnlyAddsDrops(c, turns[|turns| - 1]);
      OversizedHeadBlocksTheBuffer(b, front);
      OversizedHeadStays(c, turns[|turns| - 1]);
    }
  }

  // ----- which configurations can get there -----

  lemma {:induction false} BytesCountSamples(items: seq<Item>)
    ensures TotalBytes(items) == BYTES_PER_SAMPLE * |AllSamples(items)|
  {
    if items != [] {
      BytesCountSamples(items[..|items| - 1]);
    }
  }

  lemma {:induction false} BoundStays(maxBytes: int, start: int, ops: seq<Runs.Op>)
    ensures var b := Runs.Run(maxBytes, start, ops).buf; b.maxBytes == maxBytes && (maxBytes < 0 ==> b.items == [])
  {
    if ops != [] {
      BoundStays(maxBytes, start, ops[..|ops| - 1]);
      StepKeepsBound(Runs.Run(maxBytes, start, ops[..|ops| - 1]), ops[|ops| - 1]);
    }
  }

  lemma StepKeepsBound(h: Runs.History, op: Runs.Op)
    ensures var b := Runs.Step(h, op).buf;
            b.maxBytes == h.buf.maxBytes && (b.maxBytes < 0 && h.buf.items == [] ==> b.items == [])
  {
    hide TotalBytes, Excess, Kept;
    if op.Put? && h.buf.maxBytes < 0 && h.buf.items == [] {
      var it := Item(h.buf.nextSeq, op.samples, op.now);
      assert [] + [it] == [it] && [it][1..] == [];
      ExcessStep([it], h.buf.maxBytes);
      ExcessStep([], h.buf.maxBytes);
    }
  }

  /** A state the buffer can reach in which the oldest 100 batches exceed the gateway's limit. */
  ghost predicate ReachesOversizedHead(maxBytes: int) {
    exists start, ops :: Runs.MonotoneClock(ops) && !Admissible(Outgoing(Runs.Run(maxBytes, start, ops).buf))
  }

  lemma SmallBufferIsAdmissible(maxBytes: int, start: int, ops: seq<Runs.Op>)
    requires Runs.MonotoneClock(ops) && maxBytes < (GATEWAY_MAX_SAMPLES + 1) * BYTES_PER_SAMPLE
    ensures Admissible(Outgoing(Runs.Run(maxBytes, start, ops).buf))
  {
    hide Runs.Run, TotalBytes, AllSamples;
    var b := Runs.Run(maxBytes, start, ops).buf;
    BoundStays(maxBytes, start, ops);
    Runs.ReachableStates(maxBytes, start, ops);
    BytesCountSamples(b.items);
    PrefixHasFewerSamples(b.items, |Batch(b, FLUSH_ITEMS)|);
    if maxBytes < 0 {
      EmptyBufferSendsNothing(b);
    }
  }

  lemma LargeBufferReachesOversizedHead(maxBytes: int)
    requires maxBytes >= (GATEWAY_MAX_SAMPLES + 1) * BYTES_PER_SAMPLE
    ensures ReachesOversizedHead(maxBytes)
  {
    var samples := seq(GATEWAY_MAX_SAMPLES + 1, _ => Sample("m", "r", 0.0));
    var ops := [Runs.Put(samples, 0)];
    assert ops[..0] == [] && ops[|ops| - 1] == Runs.Put(samples, 0);
    assert Runs.Run(maxBytes, 1, []) == Runs.History(NewAt(maxBytes, 1), [], 0);
    var b := Runs.Run(maxBytes, 1, ops).buf;
    assert b == Enqueued(NewAt(maxBytes, 1), samples, 0);
    OneBigItem(NewAt(maxBytes, 1), samples);
    assert Runs.MonotoneClock(ops) && !Admissible(Outgoing(b));
  }

  lemma OneBigItem(b: Buffer, samples: seq<Sample>)
    requires b.items == [] && ApproxBytes(samples) <= b.maxBytes
    ensures Outgoing(Enqueued(b, samples, 0)) == samples
  {
    var it := Item(b.nextSeq, samples, 0);
    assert [] + [it] == [it] && [it][..0] == [] && [it][0..] == [it] && [it][..1] == [it];
    assert TotalBytes([it]) == ApproxBytes(samples);
    ExcessStep([it], b.maxBytes);
    EnqueuedIs(b, samples, 0, [it]);
    hide Excess, TotalBytes, Enqueued;
    assert Batch(Enqueued(b, samples, 0), FLUSH_ITEMS) == [it];
    assert AllSamples([it]) == [] + samples;
  }

  /**
   * Whether the buffer can get stuck that way depends on its byte bound alone: it
   * can if and only if the bound has room for one sample more than the gateway
   * admits.
   */
  lemma OversizedHeadIsReachableIff(maxBytes: int)
    ensures ReachesOversizedHead(maxBytes) <==> maxBytes >= 5001 * 256
  {
    if maxBytes >= (GATEWAY_MAX_SAMPLES + 1) * BYTES_PER_SAMPLE {
      LargeBufferReachesOversizedHead(maxBytes);
    } else {
      forall start, ops | Runs.MonotoneClock(ops) ensures Admissible(Outgoing(Runs.Run(maxBytes, start, ops).buf)) {
        SmallBufferIsAdmissible(maxBytes, start, ops);
      }
    }
  }

  /** A head within the limit can be delivered by a single attempt that gets through. */
  lemma AdmissibleHeadIsDeliverable(b: Buffer, attempts: seq<Attempt>)
    requires attempts != [] && !attempts[0].throttled && attempts[0].reached
    ensures FlushOutcome(b, attempts) == Delivered <==> Outgoing(b) != [] && Admissible(Outgoing(b))
  {
    DeliversIff(b, attempts);
    assert GetsThrough(b, attempts, 0);
  }
}

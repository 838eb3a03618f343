/**
 * The agent's bounded in-memory buffer: batches with consecutive sequence
 * numbers, dropped oldest first when full, dropped by age, and removed by
 * acknowledgement.  The Go slice is modelled as a window of a backing array,
 * so that appending and compaction happen in place as in the original.
 */
module AgentBuffer {
  datatype Sample = Sample(metric: string, resourceId: string, value: real)

  datatype Item = Item(sequence: int, samples: seq<Sample>, createdAt: int)

  const MAX_ITEMS := 256
  const BYTES_PER_SAMPLE := 256

  function ApproxBytes(samples: seq<Sample>): nat { |samples| * BYTES_PER_SAMPLE }

  function TotalBytes(items: seq<Item>): nat {
    if items == [] then 0 else TotalBytes(items[..|items| - 1]) + ApproxBytes(items[|items| - 1].samples)
  }

  function AllSamples(items: seq<Item>): seq<Sample> {
    if items == [] then [] else AllSamples(items[..|items| - 1]) + items[|items| - 1].samples
  }

  datatype Buffer = Buffer(
    items: seq<Item>, nextSeq: int, maxBytes: int, queued: int, droppedOverflow: nat, droppedExpired: nat)

  function NewAt(maxBytes: int, startSequence: int): Buffer {
    Buffer([], if startSequence < 1 then 1 else startSequence, maxBytes, 0, 0, 0)
  }

  predicate Fits(items: seq<Item>, maxBytes: int) { |items| <= MAX_ITEMS && TotalBytes(items) <= maxBytes }

  /** How many of the oldest items must go. */
  function Excess(items: seq<Item>, maxBytes: int): (k: nat)
    ensures k <= |items|
  {
    if items == [] || Fits(items, maxBytes) then 0 else 1 + Excess(items[1..], maxBytes)
  }

  function Enqueued(b: Buffer, samples: seq<Sample>, now: int): Buffer {
    var items := b.items + [Item(b.nextSeq, samples, now)];
    var k := Excess(items, b.maxBytes);
    b.(items := items[k..], nextSeq := b.nextSeq + 1, queued := TotalBytes(items[k..]),
       droppedOverflow := b.droppedOverflow + k)
  }

  lemma EnqueuedIs(b: Buffer, samples: seq<Sample>, now: int, items: seq<Item>)
    requires items == b.items + [Item(b.nextSeq, samples, now)]
    ensures var k := Excess(items, b.maxBytes);
            Enqueued(b, samples, now)
            == Buffer(items[k..], b.nextSeq + 1, b.maxBytes, TotalBytes(items[k..]), b.droppedOverflow + k, b.droppedExpired)
  {
  }

  /** Why an item is taken out: acknowledged, or older than a cutoff. */
  datatype Reason = AckedUpTo(sequence: int) | CreatedBefore(cutoff: int)

  predicate Goes(it: Item, why: Reason) {
    match why
    case AckedUpTo(sequence) => it.sequence <= sequence
    case CreatedBefore(cutoff) => it.createdAt < cutoff
  }

  function Kept(items: seq<Item>, why: Reason): (kept: seq<Item>)
    ensures |kept| <= |items|
  {
    if items == [] then []
    else
      var last := items[|items| - 1];
      Kept(items[..|items| - 1], why) + if Goes(last, why) then [] else [last]
  }

  function Acked(b: Buffer, sequence: int): Buffer {
    var kept := Kept(b.items, AckedUpTo(sequence));
    b.(items := kept, queued := TotalBytes(kept))
  }

  function Expired(b: Buffer, ttl: int, now: int): Buffer {
    var kept := Kept(b.items, CreatedBefore(now - ttl));
    b.(items := kept, queued := TotalBytes(kept), droppedExpired := b.droppedExpired + |b.items| - |kept|)
  }

  /** What a flush sends: the samples of the first `maxItems` items under the first one's sequence. */
  function Batch(b: Buffer, maxItems: nat): seq<Item> { b.items[..if maxItems <= |b.items| then maxItems else |b.items|] }

  /** Samples come out in the order of their items. */
  lemma {:induction false} SamplesKeepOrder(a: seq<Item>, b: seq<Item>)
    ensures AllSamples(a + b) == AllSamples(a) + AllSamples(b)
    decreases |b|
  {
    if b == [] {
      assert a + b == a && AllSamples(a) + [] == AllSamples(a);
    } else {
      var front, last := b[..|b| - 1], b[|b| - 1];
      SamplesKeepOrder(a, front);
      assert (a + b)[..|a + b| - 1] == a + front && (a + b)[|a + b| - 1] == last;
      assert AllSamples(a) + (AllSamples(front) + last.samples) == (AllSamples(a) + AllSamples(front)) + last.samples;
    }
  }

  lemma SamplesOfOne(it: Item)
    ensures AllSamples([it]) == it.samples
  {
    assert [it][..0] == [] && [] + it.samples == it.samples;
  }

  /** What a removal keeps is what does not go. */
  lemma {:induction false} KeptHolds(items: seq<Item>, why: Reason, it: Item)
    ensures it in Kept(items, why) <==> it in items && !Goes(it, why)
  {
    hide Goes;
    if items != [] {
      KeptHolds(items[..|items| - 1], why, it);
    }
  }

  /** After a sweep an item is still held exactly when it is no older than the time to live. */
  lemma HeldAfterSweepIff(b: Buffer, ttl: int, now: int, it: Item)
    ensures it in Expired(b, ttl, now).items <==> it in b.items && it.createdAt >= now - ttl
  {
    hide Kept;
    KeptHolds(b.items, CreatedBefore(now - ttl), it);
  }

  /** After an acknowledgement an item is still held exactly when its sequence lies beyond it. */
  lemma HeldAfterAckIff(b: Buffer, sequence: int, it: Item)
    ensures it in Acked(b, sequence).items <==> it in b.items && it.sequence > sequence
  {
    hide Kept;
    KeptHolds(b.items, AckedUpTo(sequence), it);
  }

  lemma {:induction false} TotalBytesHead(items: seq<Item>)
    requires items != []
    ensures TotalBytes(items) == ApproxBytes(items[0].samples) + TotalBytes(items[1..])
  {
    if |items| > 1 {
      TotalBytesHead(items[..|items| - 1]);
      assert items[..|items| - 1][1..] == items[1..][..|items| - 2];
    } else {
      assert items[..0] == [] && items[1..] == [];
    }
  }

  lemma TotalBytesSnoc(items: seq<Item>, it: Item)
    ensures TotalBytes(items + [it]) == TotalBytes(items) + ApproxBytes(it.samples)
  {
    assert (items + [it])[..|items|] == items;
  }

  lemma ExcessStep(items: seq<Item>, maxBytes: int)
    ensures items == [] || Fits(items, maxBytes) ==> Excess(items, maxBytes) == 0
    ensures items != [] && !Fits(items, maxBytes) ==> Excess(items, maxBytes) == 1 + Excess(items[1..], maxBytes)
  {
  }

  function FreedBytes(items: seq<Item>, why: Reason): nat {
    if items == [] then 0
    else
      var last := items[|items| - 1];
      FreedBytes(items[..|items| - 1], why) + if Goes(last, why) then ApproxBytes(last.samples) else 0
  }

  lemma {:induction false} FreedBalances(items: seq<Item>, why: Reason)
    ensures TotalBytes(items) == TotalBytes(Kept(items, why)) + FreedBytes(items, why)
  {
    hide Goes, ApproxBytes;
    if items != [] {
      var init := items[..|items| - 1];
      FreedBalances(init, why);
      assert Kept(init, why) + [] == Kept(init, why);
      TotalBytesSnoc(Kept(init, why), items[|items| - 1]);
    }
  }

  lemma NoneKept(why: Reason)
    ensures Kept([], why) == [] && FreedBytes([], why) == 0
  {
  }

  lemma KeptNext(items: seq<Item>, i: nat, why: Reason)
    requires i < |items|
    ensures Kept(items[..i + 1], why) == if Goes(items[i], why) then Kept(items[..i], why) else Kept(items[..i], why) + [items[i]]
    ensures FreedBytes(items[..i + 1], why)
         == FreedBytes(items[..i], why) + if Goes(items[i], why) then ApproxBytes(items[i].samples) else 0
  {
    hide Goes;
    assert items[..i + 1][..i] == items[..i];
    assert Kept(items[..i], why) + [] == Kept(items[..i], why);
  }

  /** One more item of `items` has been looked at. */
  lemma NextSeen(items: seq<Item>, seen: seq<Item>, rest: seq<Item>, why: Reason)
    requires seen + rest == items && rest != []
    ensures var (it, now) := (rest[0], seen + [rest[0]]);
            && now + rest[1..] == items
            && Kept(now, why) == (if Goes(it, why) then Kept(seen, why) else Kept(seen, why) + [it])
            && FreedBytes(now, why) == FreedBytes(seen, why) + if Goes(it, why) then ApproxBytes(it.samples) else 0
  {
    hide Kept, FreedBytes, Goes, ApproxBytes;
    var now := seen + [rest[0]];
    KeptNext(now, |seen|, why);
    assert now[..|seen| + 1] == now && now[..|seen|] == seen;
  }

  class Limited {
    var backing: array<Item>
    var off: nat
    var len: nat
    var nextSeq: int
    const maxBytes: int
    var queued: int
    var droppedOverflow: nat
    var droppedExpired: nat

    ghost predicate Valid()
      reads this, backing
    {
      off + len <= backing.Length && queued == TotalBytes(backing[off..off + len])
    }

    ghost function Contents(): Buffer
      reads this, backing
      requires off + len <= backing.Length
    {
      Buffer(backing[off..off + len], nextSeq, maxBytes, queued, droppedOverflow, droppedExpired)
    }

    constructor (maxBytes: int, startSequence: int)
      ensures Valid() && fresh(backing) && Contents() == NewAt(maxBytes, startSequence)
    {
      this.maxBytes := maxBytes;
      backing := new Item[0];
      off, len, queued, droppedOverflow, droppedExpired := 0, 0, 0, 0, 0;
      nextSeq := if startSequence < 1 then 1 else startSequence;
    }

    /** Go's `append`: in place while the backing array has room, otherwise into a larger copy. */
    method Append(it: Item, ghost items: seq<Item>)
      requires Valid() && backing[off..off + len] == items
      modifies this`backing, this`off, this`len, backing
      ensures off + len <= backing.Length && (backing == old(backing) || fresh(backing))
      ensures backing[off..off + len] == items + [it]
    {
      if off + len == backing.Length {
        var larger := new Item[2 * len + 1];
        for i := 0 to len
          invariant forall k :: 0 <= k < i ==> larger[k] == old(backing[off + k])
          invariant backing == old(backing) && off == old(off) && len == old(len)
          invariant backing[..] == old(backing[..])
        {
          larger[i] := backing[off + i];
        }
        backing, off := larger, 0;
      }
      backing[off + len] := it;
      len := len + 1;
    }

    method Enqueue(samples: seq<Sample>, now: int) returns (sequence: int)
      requires Valid()
      modifies this, backing
      ensures Valid() && (backing == old(backing) || fresh(backing))
      ensures sequence == old(nextSeq) && Contents() == Enqueued(old(Contents()), samples, now)
    {
      hide TotalBytes, Excess, ApproxBytes, Enqueued;
      ghost var before := backing[off..off + len];
      ghost var items := before + [Item(nextSeq, samples, now)];
      EnqueuedIs(Contents(), samples, now, items);
      TotalBytesSnoc(before, Item(nextSeq, samples, now));
      sequence := nextSeq;
      nextSeq := nextSeq + 1;
      Append(Item(sequence, samples, now), before);
      queued := queued + ApproxBytes(samples);
      DropOldestWhileFull(items);
    }

    /** The overflow loop of `Enqueue`: drop the oldest item while a bound is exceeded. */
    method DropOldestWhileFull(ghost items: seq<Item>)
      requires Valid() && backing[off..off + len] == items
      modifies this`off, this`len, this`queued, this`droppedOverflow
      ensures Valid()
      ensures backing[off..off + len] == items[Excess(items, maxBytes)..]
      ensures droppedOverflow == old(droppedOverflow) + Excess(items, maxBytes)
    {
      hide TotalBytes, Excess;
      ghost var dropped := 0;
      assert items[0..] == items;
      while (len > MAX_ITEMS || queued > maxBytes) && len > 0
        invariant dropped <= |items| && off == old(off) + dropped && len == |items| - dropped
        invariant queued == TotalBytes(items[dropped..])
        invariant dropped + Excess(items[dropped..], maxBytes) == Excess(items, maxBytes)
        invariant droppedOverflow == old(droppedOverflow) + dropped
        decreases len
      {
        TotalBytesHead(items[dropped..]);
        ExcessStep(items[dropped..], maxBytes);
        assert items[dropped..][1..] == items[dropped + 1..];
        assert backing[off] == items[dropped..][0];
        queued := queued - ApproxBytes(backing[off].samples);
        off, len := off + 1, len - 1;
        droppedOverflow := droppedOverflow + 1;
        dropped := dropped + 1;
      }
      ExcessStep(items[dropped..], maxBytes);
      assert backing[off..off + len] == items[dropped..];
    }

    method PeekBatch(maxItems: nat) returns (batch: seq<Sample>, firstSeq: int)
      requires Valid()
      ensures batch == AllSamples(Batch(Contents(), maxItems))
      ensures firstSeq == if Contents().items == [] then 0 else Contents().items[0].sequence
    {
      if len == 0 {
        return [], 0;
      }
      batch, firstSeq := [], backing[off].sequence;
      ghost var items := backing[off..off + len];
      var i := 0;
      while i < len && i < maxItems
        invariant i <= len && i <= maxItems && batch == AllSamples(items[..i])
      {
        assert items[..i + 1][..i] == items[..i];
        batch := batch + backing[off + i].samples;
        i := i + 1;
      }
    }

    /** In-place compaction shared by `Ack` and `DropExpired`: kept items slide down the array. */
    method Compact(why: Reason) returns (removed: nat)
      requires Valid()
      modifies this`len, this`queued, backing
      ensures Valid() && removed == old(len) - len
      ensures backing[off..off + len] == Kept(old(backing[off..off + len]), why)
    {
      hide TotalBytes, Kept, Goes, FreedBytes;
      FreedBalances(backing[off..off + len], why);
      var kept, freed := 0, 0;
      kept, removed, freed := Slide(why, backing[off..off + len]);
      len := kept;
      queued := queued - freed;
    }

    /** The loop of the compaction: counts what goes and adds up its size. */
    method Slide(why: Reason, ghost items: seq<Item>) returns (kept: nat, removed: nat, freed: nat)
      requires off + len <= backing.Length && backing[off..off + len] == items
      modifies backing
      ensures kept + removed == len
      ensures backing[off..off + kept] == Kept(items, why) && freed == FreedBytes(items, why)
    {
      hide Kept, Goes, FreedBytes, ApproxBytes;
      var a, start, end := backing, off, off + len;
      var read, write := start, start;
      ghost var seen, done, rest := [], Kept([], why), items;
      removed, freed := 0, 0;
      NoneKept(why);
      while read < end
        invariant start <= write <= read <= end && removed == read - write
        invariant seen + rest == items
        invariant done == Kept(seen, why) && freed == FreedBytes(seen, why)
        invariant a[start..write] == done && a[read..end] == rest
      {
        var keep, bytes := KeepOrSkip(a, why, start, write, read, end, done, rest);
        NextSeen(items, seen, rest, why);
        seen := seen + [rest[0]];
        if keep {
          done, write := done + [rest[0]], write + 1;
        } else {
          removed, freed := removed + 1, freed + bytes;
        }
        read, rest := read + 1, rest[1..];
      }
      kept := write - start;
      assert rest == [] && seen + [] == seen;
    }

    /** One turn of that loop; `kept = append(kept, it)` writes into the array being read. */
    static method KeepOrSkip(
      a: array<Item>, why: Reason, start: nat, write: nat, read: nat, end: nat, ghost done: seq<Item>, ghost rest: seq<Item>)
      returns (keep: bool, bytes: nat)
      requires start <= write <= read < end <= a.Length
      requires a[start..write] == done && a[read..end] == rest
      modifies a
      ensures keep == !Goes(rest[0], why) && bytes == if keep then 0 else ApproxBytes(rest[0].samples)
      ensures a[start..if keep then write + 1 else write] == if keep then done + [rest[0]] else done
      ensures a[read + 1..end] == rest[1..]
    {
      var it := a[read];
      assert it == rest[0];
      keep, bytes := !Goes(it, why), 0;
      if keep {
        a[write] := it;
      } else {
        bytes := ApproxBytes(it.samples);
      }
    }

    method Ack(ackedSequence: int) returns (removed: nat)
      requires Valid()
      modifies this, backing
      ensures Valid() && backing == old(backing)
      ensures Contents() == Acked(old(Contents()), ackedSequence)
      ensures removed == |old(Contents()).items| - |Contents().items|
    {
      removed := Compact(AckedUpTo(ackedSequence));
    }

    method DropExpired(ttl: int, now: int) returns (removed: nat)
      requires Valid()
      modifies this, backing
      ensures Valid() && backing == old(backing)
      ensures Contents() == Expired(old(Contents()), ttl, now)
      ensures removed == |old(Contents()).items| - |Contents().items|
    {
      hide TotalBytes, Kept;
      var cutoff := now - ttl;
      removed := Compact(CreatedBefore(cutoff));
      droppedExpired := droppedExpired + removed;
    }
  }
}

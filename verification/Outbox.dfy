/**
 * The outbox dispatcher: claim the first pending rows, publish each, record
 * the outcome, give up after a capped number of attempts.  Rows are kept in
 * creation order; ticks run one after another, and any tick may break off
 * before its outcomes are recorded.
 */
module Outbox {
  import opened Prelude

  datatype Status = Pending | Sent | Failed

  datatype Row = Row(id: int, availableAt: int, attempts: nat, status: Status)

  /** How a tick ends: with both status updates, with the first only, or with neither. */
  datatype Ending = Complete | OnlySentRecorded | NothingRecorded

  predicate Claimable(r: Row, now: int) { r.status == Pending && r.availableAt <= now }

  /** Number of claimable rows among the first `i`. */
  function Ahead(rows: seq<Row>, now: int, i: nat): nat
    requires i <= |rows|
  {
    if i == 0 then 0 else Ahead(rows, now, i - 1) + if Claimable(rows[i - 1], now) then 1 else 0
  }

  predicate IsClaimed(rows: seq<Row>, now: int, batchSize: nat, i: nat)
    requires i < |rows|
  {
    Claimable(rows[i], now) && Ahead(rows, now, i) < batchSize
  }

  // ----- the statements a tick is made of -----

  /** The claiming update: one more attempt for every claimed row. */
  function AfterClaim(rows: seq<Row>, now: int, batchSize: nat): seq<Row> {
    seq(|rows|, i requires 0 <= i < |rows| =>
      if IsClaimed(rows, now, batchSize, i) then rows[i].(attempts := rows[i].attempts + 1) else rows[i])
  }

  /** The rows that update returns, of the first `n`. */
  function Claimed(rows: seq<Row>, now: int, batchSize: nat, n: nat): seq<Row>
    requires n <= |rows|
  {
    if n == 0 then [] else
      Claimed(rows, now, batchSize, n - 1)
      + if IsClaimed(rows, now, batchSize, n - 1) then [AfterClaim(rows, now, batchSize)[n - 1]] else []
  }

  /** A bulk status update by id. */
  function Updated(rows: seq<Row>, ids: seq<int>, status: Status): seq<Row> {
    seq(|rows|, i requires 0 <= i < |rows| => if rows[i].id in ids then rows[i].(status := status) else rows[i])
  }

  predicate UniqueIds(rows: seq<Row>) { forall i, j :: 0 <= i < j < |rows| ==> rows[i].id != rows[j].id }

  // ----- what a tick does to each row -----

  predicate GivesUp(r: Row, maxAttempts: int) { r.attempts + 1 >= maxAttempts }

  function StatusAfter(r: Row, ok: bool, maxAttempts: int, end: Ending): Status {
    if ok then (if end == NothingRecorded then Pending else Sent)
    else if end == Complete && GivesUp(r, maxAttempts) then Failed else Pending
  }

  function RowAfter(r: Row, claimed: bool, ok: bool, maxAttempts: int, end: Ending): Row {
    if claimed then r.(attempts := r.attempts + 1, status := StatusAfter(r, ok, maxAttempts, end)) else r
  }

  function Ticked(rows: seq<Row>, now: int, ok: set<int>, batchSize: nat, maxAttempts: int, end: Ending): seq<Row> {
    seq(|rows|, i requires 0 <= i < |rows| =>
      RowAfter(rows[i], IsClaimed(rows, now, batchSize, i), rows[i].id in ok, maxAttempts, end))
  }

  function SentRows(rows: seq<Row>): nat {
    if rows == [] then 0 else SentRows(rows[..|rows| - 1]) + if rows[|rows| - 1].status == Sent then 1 else 0
  }

  class OutboxDispatcher {
    const batchSize: nat
    const maxAttempts: int
    var rows: seq<Row>

    constructor (batchSize: nat, maxAttempts: int, rows: seq<Row>)
      requires UniqueIds(rows)
      ensures this.batchSize == batchSize && this.maxAttempts == maxAttempts && this.rows == rows
    {
      this.batchSize, this.maxAttempts, this.rows := batchSize, maxAttempts, rows;
    }

    /**
     * One tick at time `now`.  The publisher accepts the rows in `ok`; a tick
     * that breaks off returns nothing.
     */
    method Tick(now: int, ok: set<int>, end: Ending) returns (count: Option<nat>)
      requires UniqueIds(rows)
      modifies this`rows
      ensures rows == Ticked(old(rows), now, ok, batchSize, maxAttempts, end) && UniqueIds(rows)
      ensures end == Complete ==> count == Some(SentRows(rows) - SentRows(old(rows)))
    {
      ghost var was := rows;
      var batch := Claimed(rows, now, batchSize, |rows|);
      CountIsSettled(was, now, ok, batchSize, maxAttempts, |was|);
      hide *;
      rows := AfterClaim(rows, now, batchSize);
      if |batch| == 0 {
        NothingClaimed(was, now, ok, batchSize, maxAttempts, end);
        return Some(0);
      }

      var sentIds, failedIds := PublishAll(batch, ok);
      TickIsPointwise(was, now, ok, batchSize, maxAttempts);

      if end == NothingRecorded {
        return None;
      }
      if |sentIds| > 0 {
        rows := Updated(rows, sentIds, Sent);
      }
      assert rows == Ticked(was, now, ok, batchSize, maxAttempts, OnlySentRecorded);
      if end == OnlySentRecorded {
        return None;
      }
      if |failedIds| > 0 {
        rows := Updated(rows, failedIds, Failed);
      }
      count := Some(|sentIds|);
    }

    /** Offers each row of a batch to the publisher, and sorts out the ids to update. */
    method PublishAll(batch: seq<Row>, ok: set<int>) returns (sentIds: seq<int>, failedIds: seq<int>)
      ensures sentIds == Published(batch, ok) && failedIds == Exhausted(batch, ok, maxAttempts)
    {
      sentIds, failedIds := [], [];
      for j := 0 to |batch|
        invariant sentIds == Published(batch[..j], ok)
        invariant failedIds == Exhausted(batch[..j], ok, maxAttempts)
      {
        hide *;
        OneMore(batch, ok, maxAttempts, j);
        if batch[j].id in ok {
          sentIds := sentIds + [batch[j].id];
        } else if batch[j].attempts >= maxAttempts {
          failedIds := failedIds + [batch[j].id];
        }
      }
      assert batch[..|batch|] == batch;
    }
  }

  /** Ids of the rows of a batch that the publisher accepts, in order. */
  function Published(batch: seq<Row>, ok: set<int>): seq<int> {
    if batch == [] then [] else
      var b := batch[|batch| - 1];
      Published(batch[..|batch| - 1], ok) + if b.id in ok then [b.id] else []
  }

  /** Ids of the rows of a batch that it refuses for the last time, in order. */
  function Exhausted(batch: seq<Row>, ok: set<int>, maxAttempts: int): seq<int> {
    if batch == [] then [] else
      var b := batch[|batch| - 1];
      Exhausted(batch[..|batch| - 1], ok, maxAttempts)
      + if b.id !in ok && b.attempts >= maxAttempts then [b.id] else []
  }

  lemma OneMore(batch: seq<Row>, ok: set<int>, maxAttempts: int, j: nat)
    requires j < |batch|
    ensures var b := batch[j];
            && Published(batch[..j + 1], ok) == Published(batch[..j], ok) + (if b.id in ok then [b.id] else [])
            && Exhausted(batch[..j + 1], ok, maxAttempts)
               == Exhausted(batch[..j], ok, maxAttempts)
                  + (if b.id !in ok && b.attempts >= maxAttempts then [b.id] else [])
  {
    assert batch[..j + 1][..j] == batch[..j];
  }

  lemma {:induction false} BatchIds(batch: seq<Row>, ok: set<int>, maxAttempts: int)
    ensures forall id :: id in Published(batch, ok) <==> id in ok && exists b :: b in batch && b.id == id
    ensures forall id :: id in Exhausted(batch, ok, maxAttempts) <==>
              id !in ok && exists b :: b in batch && b.id == id && b.attempts >= maxAttempts
  {
    if batch != [] {
      var init, last := batch[..|batch| - 1], batch[|batch| - 1];
      BatchIds(init, ok, maxAttempts);
      assert forall b :: b in batch <==> b in init || b == last;
    }
  }

  lemma {:induction false} ClaimedRows(rows: seq<Row>, now: int, batchSize: nat, n: nat)
    requires n <= |rows|
    ensures forall r :: r in Claimed(rows, now, batchSize, n) <==>
              exists i :: 0 <= i < n && IsClaimed(rows, now, batchSize, i) && r == AfterClaim(rows, now, batchSize)[i]
  {
    if n > 0 {
      ClaimedRows(rows, now, batchSize, n - 1);
    }
  }

  /** Which ids the loop collects, in terms of the rows the tick began with. */
  lemma CollectedIds(rows: seq<Row>, now: int, ok: set<int>, batchSize: nat, maxAttempts: int, i: nat)
    requires UniqueIds(rows) && i < |rows|
    ensures var batch := Claimed(rows, now, batchSize, |rows|);
            && (rows[i].id in Published(batch, ok) <==> IsClaimed(rows, now, batchSize, i) && rows[i].id in ok)
            && (rows[i].id in Exhausted(batch, ok, maxAttempts)
                <==> IsClaimed(rows, now, batchSize, i) && rows[i].id !in ok && GivesUp(rows[i], maxAttempts))
  {
    hide Claimed, Published, Exhausted, Ahead;
    var batch := Claimed(rows, now, batchSize, |rows|);
    BatchIds(batch, ok, maxAttempts);
    ClaimedRows(rows, now, batchSize, |rows|);
    assert forall b :: b in batch && b.id == rows[i].id ==> b == AfterClaim(rows, now, batchSize)[i];
    if IsClaimed(rows, now, batchSize, i) {
      assert AfterClaim(rows, now, batchSize)[i] in batch;
    }
  }

  /** The claiming update and the two status updates together settle each row as `RowAfter` says. */
  lemma TickIsPointwise(rows: seq<Row>, now: int, ok: set<int>, batchSize: nat, maxAttempts: int)
    requires UniqueIds(rows)
    ensures var batch := Claimed(rows, now, batchSize, |rows|);
            var claimed := AfterClaim(rows, now, batchSize);
            var sent := Published(batch, ok);
            var failed := Exhausted(batch, ok, maxAttempts);
            var sentRows := Updated(claimed, sent, Sent);
            && claimed == Ticked(rows, now, ok, batchSize, maxAttempts, NothingRecorded)
            && sentRows == Ticked(rows, now, ok, batchSize, maxAttempts, OnlySentRecorded)
            && Updated(sentRows, failed, Failed) == Ticked(rows, now, ok, batchSize, maxAttempts, Complete)
            && (|sent| == 0 ==> sentRows == claimed) && (|failed| == 0 ==> Updated(sentRows, failed, Failed) == sentRows)
    ensures forall end :: UniqueIds(Ticked(rows, now, ok, batchSize, maxAttempts, end))
  {
    hide Claimed, Published, Exhausted, Ahead;
    forall i: nat | i < |rows|
      ensures var batch := Claimed(rows, now, batchSize, |rows|);
              && (rows[i].id in Published(batch, ok) <==> IsClaimed(rows, now, batchSize, i) && rows[i].id in ok)
              && (rows[i].id in Exhausted(batch, ok, maxAttempts)
                  <==> IsClaimed(rows, now, batchSize, i) && rows[i].id !in ok && GivesUp(rows[i], maxAttempts))
    {
      CollectedIds(rows, now, ok, batchSize, maxAttempts, i);
    }
  }

  /** The number of published ids is the number of rows that became sent. */
  lemma {:induction false} CountIsSettled(rows: seq<Row>, now: int, ok: set<int>, batchSize: nat, maxAttempts: int, n: nat)
    requires n <= |rows|
    ensures SentRows(Ticked(rows, now, ok, batchSize, maxAttempts, Complete)[..n])
         == SentRows(rows[..n]) + |Published(Claimed(rows, now, batchSize, n), ok)|
    ensures n == |rows| ==> rows[..n] == rows
    ensures n == |rows| ==> var t := Ticked(rows, now, ok, batchSize, maxAttempts, Complete); t[..n] == t
  {
    if n > 0 {
      CountIsSettled(rows, now, ok, batchSize, maxAttempts, n - 1);
      var t := Ticked(rows, now, ok, batchSize, maxAttempts, Complete);
      assert t[..n][..n - 1] == t[..n - 1] && rows[..n][..n - 1] == rows[..n - 1];
      var init := Claimed(rows, now, batchSize, n - 1);
      PublishedAppends(init, AfterClaim(rows, now, batchSize)[n - 1], ok);
      assert init + [] == init;
    }
  }

  lemma PublishedAppends(batch: seq<Row>, b: Row, ok: set<int>)
    ensures |Published(batch + [b], ok)| == |Published(batch, ok)| + if b.id in ok then 1 else 0
  {
    assert (batch + [b])[..|batch|] == batch;
  }

  lemma NothingClaimed(rows: seq<Row>, now: int, ok: set<int>, batchSize: nat, maxAttempts: int, end: Ending)
    requires Claimed(rows, now, batchSize, |rows|) == []
    ensures AfterClaim(rows, now, batchSize) == rows == Ticked(rows, now, ok, batchSize, maxAttempts, end)
  {
    hide Claimed, Ahead;
    ClaimedRows(rows, now, batchSize, |rows|);
    assert forall i: nat :: i < |rows| && IsClaimed(rows, now, batchSize, i) ==>
      AfterClaim(rows, now, batchSize)[i] in Claimed(rows, now, batchSize, |rows|);
  }
}

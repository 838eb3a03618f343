/**
 * Whole runs of the dispatcher: every pending row is settled within a bounded
 * number of completed ticks, whatever the publisher does and however many
 * ticks break off in between, and the final status tells what was published.
 */
module OutboxRuns {
  import opened Prelude
  import opened Outbox

  /** One tick, and the rows that other transactions append behind it. */
  datatype Round = Round(now: int, ok: set<int>, end: Ending, arrivals: seq<Row>)

  function Next(rows: seq<Row>, r: Round, batchSize: nat, maxAttempts: int): seq<Row> {
    Ticked(rows, r.now, r.ok, batchSize, maxAttempts, r.end) + r.arrivals
  }

  function Play(rows: seq<Row>, rounds: seq<Round>, batchSize: nat, maxAttempts: int): (out: seq<Row>)
    ensures |out| >= |rows|
    decreases |rounds|
  {
    if rounds == [] then rows else Play(Next(rows, rounds[0], batchSize, maxAttempts), rounds[1..], batchSize, maxAttempts)
  }

  function Completed(rounds: seq<Round>): nat {
    if rounds == [] then 0 else (if rounds[0].end == Complete then 1 else 0) + Completed(rounds[1..])
  }

  /** How many rows before row `k` are still pending: its place in the queue. */
  function PendingAhead(rows: seq<Row>, k: nat): nat
    requires k <= |rows|
  {
    if k == 0 then 0 else PendingAhead(rows, k - 1) + if rows[k - 1].status == Pending then 1 else 0
  }

  predicate AvailableThroughout(r: Row, rounds: seq<Round>) {
    forall i :: 0 <= i < |rounds| ==> r.availableAt <= rounds[i].now
  }

  /** A row is attempted at least once, whatever the configured cap. */
  function Cap(maxAttempts: int): (m: int)
    ensures m >= 1
  {
    MaxInt(maxAttempts, 1)
  }

  // ----- settled rows stay settled; the queue only shortens -----

  lemma {:induction false} RowsKeepTheirNature(rows: seq<Row>, rounds: seq<Round>, batchSize: nat, maxAttempts: int, k: nat)
    requires k < |rows|
    ensures var r := Play(rows, rounds, batchSize, maxAttempts)[k];
            && r.id == rows[k].id && r.availableAt == rows[k].availableAt && (rows[k].status != Pending ==> r == rows[k])
    decreases |rounds|
  {
    hide Ahead, StatusAfter;
    if rounds != [] {
      RowsKeepTheirNature(Next(rows, rounds[0], batchSize, maxAttempts), rounds[1..], batchSize, maxAttempts, k);
    }
  }

  lemma {:induction false} ClaimableAheadArePending(rows: seq<Row>, now: int, k: nat)
    requires k <= |rows|
    ensures Ahead(rows, now, k) <= PendingAhead(rows, k) <= k
  {
    if k > 0 {
      ClaimableAheadArePending(rows, now, k - 1);
    }
  }

  lemma {:induction false} QueueOnlyShortens(rows: seq<Row>, r: Round, batchSize: nat, maxAttempts: int, k: nat)
    requires k <= |rows|
    ensures PendingAhead(Next(rows, r, batchSize, maxAttempts), k) <= PendingAhead(rows, k)
  {
    hide Ahead;
    if k > 0 {
      QueueOnlyShortens(rows, r, batchSize, maxAttempts, k - 1);
    }
  }

  // ----- the bound when the rows ahead are available too -----

  /** A row within the first batch is claimed at every tick, so its attempts run out. */
  lemma {:induction false} FirstBatchSettles(rows: seq<Row>, rounds: seq<Round>, batchSize: nat, maxAttempts: int, k: nat)
    requires k < |rows| && rows[k].status == Pending && AvailableThroughout(rows[k], rounds)
    requires PendingAhead(rows, k) < batchSize
    requires Completed(rounds) >= 1 && Completed(rounds) + rows[k].attempts >= maxAttempts
    ensures Play(rows, rounds, batchSize, maxAttempts)[k].status != Pending
    decreases |rounds|
  {
    var r, next := rounds[0], Next(rows, rounds[0], batchSize, maxAttempts);
    ClaimableAheadArePending(rows, r.now, k);
    assert IsClaimed(rows, r.now, batchSize, k);
    QueueOnlyShortens(rows, r, batchSize, maxAttempts, k);
    RowsKeepTheirNature(next, rounds[1..], batchSize, maxAttempts, k);
    if next[k].status == Pending {
      FirstBatchSettles(next, rounds[1..], batchSize, maxAttempts, k);
    }
  }

  /** Pending rows before `k` that are not in the first batch. */
  function Beyond(rows: seq<Row>, batchSize: nat, k: nat): nat
    requires k <= |rows|
  {
    if k == 0 then 0 else
      Beyond(rows, batchSize, k - 1)
      + if rows[k - 1].status == Pending && PendingAhead(rows, k - 1) >= batchSize then 1 else 0
  }

  lemma {:induction false} FirstBatchIsFull(rows: seq<Row>, batchSize: nat, k: nat)
    requires k <= |rows|
    ensures Beyond(rows, batchSize, k) == MaxInt(PendingAhead(rows, k) - batchSize, 0)
  {
    if k > 0 {
      FirstBatchIsFull(rows, batchSize, k - 1);
    }
  }

  /** Once the first batch has had its completed ticks, the queue is a batch shorter. */
  lemma {:induction false} QueueShortensByABatch(rows: seq<Row>, rounds: seq<Round>, batchSize: nat, maxAttempts: int, k: nat)
    requires k <= |rows| && Completed(rounds) >= Cap(maxAttempts)
    requires forall i :: 0 <= i < k ==> AvailableThroughout(rows[i], rounds)
    ensures PendingAhead(Play(rows, rounds, batchSize, maxAttempts), k) <= Beyond(rows, batchSize, k)
  {
    hide Play, AvailableThroughout, Completed;
    if k > 0 {
      QueueShortensByABatch(rows, rounds, batchSize, maxAttempts, k - 1);
      RowsKeepTheirNature(rows, rounds, batchSize, maxAttempts, k - 1);
      if rows[k - 1].status == Pending && PendingAhead(rows, k - 1) < batchSize {
        FirstBatchSettles(rows, rounds, batchSize, maxAttempts, k - 1);
      }
    }
  }

  lemma {:induction false} PlayAppends(rows: seq<Row>, a: seq<Round>, b: seq<Round>, batchSize: nat, maxAttempts: int)
    ensures Play(rows, a + b, batchSize, maxAttempts)
         == Play(Play(rows, a, batchSize, maxAttempts), b, batchSize, maxAttempts)
    decreases |a|
  {
    hide Next;
    if a == [] {
      assert a + b == b;
    } else {
      assert (a + b)[0] == a[0] && (a + b)[1..] == a[1..] + b;
      PlayAppends(Next(rows, a[0], batchSize, maxAttempts), a[1..], b, batchSize, maxAttempts);
    }
  }

  /** Cut a run just after its `m`-th completed tick. */
  lemma {:induction false} CutAfter(rounds: seq<Round>, m: nat) returns (a: seq<Round>, b: seq<Round>)
    requires m <= Completed(rounds)
    ensures rounds == a + b && Completed(a) == m && Completed(b) == Completed(rounds) - m
    decreases |rounds|
  {
    if m == 0 {
      a, b := [], rounds;
    } else {
      var c, d := CutAfter(rounds[1..], if rounds[0].end == Complete then m - 1 else m);
      a, b := [rounds[0]] + c, d;
      assert a[1..] == c;
    }
  }

  /**
   * A pending row with `p` pending rows ahead of it, all of them available, is
   * settled within `maxAttempts * (p / batchSize + 1)` completed ticks: whatever
   * the publisher does, whatever arrives behind, and however many ticks break
   * off in between.
   */
  lemma {:induction false} SettledWithinBatches(rows: seq<Row>, rounds: seq<Round>, batchSize: nat, maxAttempts: int, k: nat)
    requires k < |rows| && batchSize >= 1
    requires forall i :: 0 <= i <= k ==> AvailableThroughout(rows[i], rounds)
    requires Completed(rounds) >= Cap(maxAttempts) * (PendingAhead(rows, k) / batchSize + 1)
    ensures Play(rows, rounds, batchSize, maxAttempts)[k].status != Pending
    decreases PendingAhead(rows, k)
  {
    var p, m := PendingAhead(rows, k), Cap(maxAttempts);
    BatchesLeft(m, p / batchSize);
    RowsKeepTheirNature(rows, rounds, batchSize, maxAttempts, k);
    if rows[k].status == Pending && p < batchSize {
      FirstBatchSettles(rows, rounds, batchSize, maxAttempts, k);
    } else if rows[k].status == Pending {
      hide Play, Completed, PendingAhead, Beyond, Cap;
      var a, b := CutAfter(rounds, m);
      var mid := Play(rows, a, batchSize, maxAttempts);
      PlayAppends(rows, a, b, batchSize, maxAttempts);
      AvailabilityLasts(rows, a, b, batchSize, maxAttempts, k);
      QueueShortensByABatch(rows, a, batchSize, maxAttempts, k);
      FirstBatchIsFull(rows, batchSize, k);
      FewerBatches(m, PendingAhead(mid, k), p, batchSize);
      SettledWithinBatches(mid, b, batchSize, maxAttempts, k);
    }
  }

  lemma AvailabilityLasts(rows: seq<Row>, a: seq<Round>, b: seq<Round>, batchSize: nat, maxAttempts: int, k: nat)
    requires k < |rows| && forall i :: 0 <= i <= k ==> AvailableThroughout(rows[i], a + b)
    ensures forall i :: 0 <= i <= k ==> AvailableThroughout(rows[i], a)
    ensures forall i :: 0 <= i <= k ==> AvailableThroughout(Play(rows, a, batchSize, maxAttempts)[i], b)
  {
    hide Play;
    forall i: nat | i <= k
      ensures AvailableThroughout(rows[i], a) && AvailableThroughout(Play(rows, a, batchSize, maxAttempts)[i], b)
    {
      assert AvailableThroughout(rows[i], a + b);
      RowsKeepTheirNature(rows, a, batchSize, maxAttempts, i);
      assert forall j :: 0 <= j < |a| ==> (a + b)[j] == a[j];
      assert forall j :: 0 <= j < |b| ==> (a + b)[|a| + j] == b[j];
    }
  }

  lemma BatchesLeft(m: nat, q: nat)
    ensures m * (q + 1) == m * q + m
  {
  }

  lemma FewerBatches(m: nat, left: nat, p: nat, batchSize: nat)
    requires batchSize >= 1 && left + batchSize <= p
    ensures m * (p / batchSize + 1) - m >= m * (left / batchSize + 1)
  {
    var q, s := left / batchSize, p / batchSize;
    assert batchSize * q <= left && p < batchSize * s + batchSize;
    QuotientDrops(q, s, left, p, batchSize);
    ProductIsMonotone(m, q + 1, s);
    BatchesLeft(m, s);
  }

  lemma QuotientDrops(q: nat, s: nat, left: nat, p: nat, batchSize: nat)
    requires batchSize * q <= left && p < batchSize * s + batchSize && left + batchSize <= p
    ensures q + 1 <= s
  {
    if s <= q {
      ProductIsMonotone(batchSize, s, q);
    }
  }

  lemma ProductIsMonotone(m: nat, x: int, y: int)
    requires x <= y
    ensures m * x <= m * y
  {
  }

  // ----- the bound when rows ahead may become available at any time -----

  /** Attempts a pending row can still take. */
  function Remaining(r: Row, maxAttempts: int): nat {
    if r.status == Pending then MaxInt(maxAttempts - r.attempts, 1) else 0
  }

  function Work(rows: seq<Row>, maxAttempts: int, k: nat): nat
    requires k <= |rows|
  {
    if k == 0 then 0 else Work(rows, maxAttempts, k - 1) + Remaining(rows[k - 1], maxAttempts)
  }

  function MinNat(x: nat, y: nat): nat { if x <= y then x else y }

  /** A completed tick takes one attempt off every row it claims. */
  lemma {:induction false} TickWorks(rows: seq<Row>, r: Round, batchSize: nat, maxAttempts: int, k: nat)
    requires k <= |rows|
    ensures Work(Next(rows, r, batchSize, maxAttempts), maxAttempts, k)
            + (if r.end == Complete then MinNat(Ahead(rows, r.now, k), batchSize) else 0) <= Work(rows, maxAttempts, k)
  {
    if k > 0 {
      TickWorks(rows, r, batchSize, maxAttempts, k - 1);
      assert Next(rows, r, batchSize, maxAttempts)[k - 1]
          == RowAfter(rows[k - 1], IsClaimed(rows, r.now, batchSize, k - 1), rows[k - 1].id in r.ok, maxAttempts, r.end);
    }
  }

  /** What must be worked off before row `k` is settled, the row itself counted a full batch per attempt. */
  function Load(rows: seq<Row>, batchSize: nat, maxAttempts: int, k: nat): nat
    requires k < |rows|
  {
    Work(rows, maxAttempts, k) + batchSize * Remaining(rows[k], maxAttempts)
  }

  lemma TickTakesABatch(rows: seq<Row>, r: Round, batchSize: nat, maxAttempts: int, k: nat)
    requires k < |rows| && rows[k].status == Pending && rows[k].availableAt <= r.now
    ensures Load(Next(rows, r, batchSize, maxAttempts), batchSize, maxAttempts, k)
            + (if r.end == Complete then batchSize else 0) <= Load(rows, batchSize, maxAttempts, k)
  {
    TickWorks(rows, r, batchSize, maxAttempts, k);
    var next := Next(rows, r, batchSize, maxAttempts);
    assert next[k] == RowAfter(rows[k], IsClaimed(rows, r.now, batchSize, k), rows[k].id in r.ok, maxAttempts, r.end);
    hide Next, Work, Ahead;
    var before, after := Remaining(rows[k], maxAttempts), Remaining(next[k], maxAttempts);
    ProductIsMonotone(batchSize, after, before);
    if IsClaimed(rows, r.now, batchSize, k) && r.end == Complete {
      ProductIsMonotone(batchSize, after + 1, before);
      BatchesLeft(batchSize, after);
    }
  }

  lemma {:induction false} LoadFalls(rows: seq<Row>, rounds: seq<Round>, batchSize: nat, maxAttempts: int, k: nat)
    requires k < |rows| && AvailableThroughout(rows[k], rounds)
    ensures var out := Play(rows, rounds, batchSize, maxAttempts);
            out[k].status == Pending ==>
              Load(out, batchSize, maxAttempts, k) + batchSize * Completed(rounds) <= Load(rows, batchSize, maxAttempts, k)
    decreases |rounds|
  {
    hide Next, Load;
    var out := Play(rows, rounds, batchSize, maxAttempts);
    RowsKeepTheirNature(rows, rounds, batchSize, maxAttempts, k);
    if rounds != [] && out[k].status == Pending {
      var next := Next(rows, rounds[0], batchSize, maxAttempts);
      assert next == Play(rows, rounds[..1], batchSize, maxAttempts);
      RowsKeepTheirNature(rows, rounds[..1], batchSize, maxAttempts, k);
      TickTakesABatch(rows, rounds[0], batchSize, maxAttempts, k);
      LoadFalls(next, rounds[1..], batchSize, maxAttempts, k);
      BatchesLeft(batchSize, Completed(rounds[1..]));
    }
  }

  lemma {:induction false} WorkIsBounded(rows: seq<Row>, maxAttempts: int, k: nat)
    requires k <= |rows|
    ensures Work(rows, maxAttempts, k) <= Cap(maxAttempts) * PendingAhead(rows, k)
  {
    if k > 0 {
      WorkIsBounded(rows, maxAttempts, k - 1);
      BatchesLeft(Cap(maxAttempts), PendingAhead(rows, k - 1));
    }
  }

  /** Completed ticks that suffice behind `p` pending rows. */
  function TicksBehind(p: nat, batchSize: nat, maxAttempts: int): nat
    requires batchSize >= 1
  {
    Cap(maxAttempts) + Cap(maxAttempts) * p / batchSize
  }

  lemma TicksBehindSuffice(n: nat, p: nat, batchSize: nat, maxAttempts: int)
    requires batchSize >= 1 && n >= TicksBehind(p, batchSize, maxAttempts)
    ensures batchSize * n + batchSize > Cap(maxAttempts) * p + batchSize * Cap(maxAttempts)
  {
    hide Cap;
    var m, q := Cap(maxAttempts), Cap(maxAttempts) * p / batchSize;
    assert Cap(maxAttempts) * p < batchSize * q + batchSize;
    ProductIsMonotone(batchSize, m + q, n);
    assert batchSize * (m + q) == batchSize * m + batchSize * q;
  }

  /**
   * If only the row itself is known to be available, it is settled within
   * `maxAttempts + maxAttempts * p / batchSize` completed ticks, however the rows
   * ahead become available.
   */
  lemma SettledWhateverIsAhead(rows: seq<Row>, rounds: seq<Round>, batchSize: nat, maxAttempts: int, k: nat)
    requires k < |rows| && batchSize >= 1 && AvailableThroughout(rows[k], rounds)
    requires Completed(rounds) >= TicksBehind(PendingAhead(rows, k), batchSize, maxAttempts)
    ensures Play(rows, rounds, batchSize, maxAttempts)[k].status != Pending
  {
    hide TicksBehind, Play, Work, PendingAhead, Completed, Cap, Remaining, AvailableThroughout;
    LoadFalls(rows, rounds, batchSize, maxAttempts, k);
    WorkIsBounded(rows, maxAttempts, k);
    TicksBehindSuffice(Completed(rounds), PendingAhead(rows, k), batchSize, maxAttempts);
    var out := Play(rows, rounds, batchSize, maxAttempts);
    RemainingInRange(rows[k], maxAttempts);
    RemainingInRange(out[k], maxAttempts);
    ProductIsMonotone(batchSize, Remaining(rows[k], maxAttempts), Cap(maxAttempts));
    if out[k].status == Pending {
      ProductIsMonotone(batchSize, 1, Remaining(out[k], maxAttempts));
    }
  }

  lemma RemainingInRange(r: Row, maxAttempts: int)
    ensures Remaining(r, maxAttempts) <= Cap(maxAttempts)
    ensures r.status == Pending ==> Remaining(r, maxAttempts) >= 1
  {
  }

  // ----- both bounds are needed -----

  function Fresh(id: int, availableAt: int): Row { Row(id, availableAt, 0, Pending) }

  function Refusing(now: int): Round { Round(now, {}, Complete, []) }

  /** Four new rows, the second of which becomes available one tick late. */
  function LateSecond(): seq<Row> { [Fresh(0, 0), Fresh(1, 1), Fresh(2, 0), Fresh(3, 0)] }

  lemma FourRefusals()
    ensures Play(LateSecond(), [Refusing(0), Refusing(1), Refusing(2), Refusing(3)], 2, 2)[3].status == Pending
  {
    var s0 := LateSecond();
    var s1 := [Row(0, 0, 1, Pending), Fresh(1, 1), Row(2, 0, 1, Pending), Fresh(3, 0)];
    var s2 := [Row(0, 0, 2, Failed), Row(1, 1, 1, Pending), Row(2, 0, 1, Pending), Fresh(3, 0)];
    var s3 := [Row(0, 0, 2, Failed), Row(1, 1, 2, Failed), Row(2, 0, 2, Failed), Fresh(3, 0)];
    var s4 := [Row(0, 0, 2, Failed), Row(1, 1, 2, Failed), Row(2, 0, 2, Failed), Row(3, 0, 1, Pending)];
    RefusedFour(s0, 0);
    assert Next(s0, Refusing(0), 2, 2) == s1;
    RefusedFour(s1, 1);
    assert Next(s1, Refusing(1), 2, 2) == s2;
    RefusedFour(s2, 2);
    assert Next(s2, Refusing(2), 2, 2) == s3;
    RefusedFour(s3, 3);
    assert Next(s3, Refusing(3), 2, 2) == s4;
    hide Next;
    var rounds := [Refusing(0), Refusing(1), Refusing(2), Refusing(3)];
    assert rounds[1..][1..][1..][1..] == [];
  }

  lemma RefusedFour(s: seq<Row>, now: int)
    requires |s| == 4
    ensures Next(s, Refusing(now), 2, 2) == seq(4, i requires 0 <= i < 4 =>
              RowAfter(s[i], IsClaimed(s, now, 2, i), false, 2, Complete))
    ensures Ahead(s, now, 1) == if Claimable(s[0], now) then 1 else 0
    ensures Ahead(s, now, 2) == Ahead(s, now, 1) + if Claimable(s[1], now) then 1 else 0
    ensures Ahead(s, now, 3) == Ahead(s, now, 2) + if Claimable(s[2], now) then 1 else 0
  {
    assert Next(s, Refusing(now), 2, 2) == Ticked(s, now, {}, 2, 2, Complete);
  }

  /**
   * Without the rows ahead being available, `maxAttempts * (p / batchSize + 1)`
   * ticks are not enough: with batches of two and two attempts, a row behind
   * three is still pending after four, one short of the bound that always holds.
   */
  lemma LateRowsDelayTheOthers()
    ensures exists rows: seq<Row>, rounds: seq<Round> ::
              && |rows| == 4 && rows[3].status == Pending && AvailableThroughout(rows[3], rounds)
              && PendingAhead(rows, 3) == 3 && Completed(rounds) == 2 * (3 / 2 + 1) == TicksBehind(3, 2, 2) - 1
              && Play(rows, rounds, 2, 2)[3].status == Pending
  {
    var rows, rounds := LateSecond(), [Refusing(0), Refusing(1), Refusing(2), Refusing(3)];
    FourRefusals();
    assert rounds[1..] == [Refusing(1), Refusing(2), Refusing(3)] && rounds[1..][1..] == [Refusing(2), Refusing(3)];
    assert rounds[1..][1..][1..] == [Refusing(3)];
    hide Play;
    assert PendingAhead(rows, 2) == 2;
    assert Completed(rounds[1..]) == 3;
  }

  // ----- what the final status says -----

  /** One claim of a row: whether its publish succeeded, and how the tick ended. */
  datatype Claim = Claim(ok: bool, end: Ending)

  /** Every claim of row `k` during a run. */
  function Claims(rows: seq<Row>, rounds: seq<Round>, batchSize: nat, maxAttempts: int, k: nat): seq<Claim>
    requires k < |rows|
    decreases |rounds|
  {
    if rounds == [] then [] else
      (if IsClaimed(rows, rounds[0].now, batchSize, k) then [Claim(rows[k].id in rounds[0].ok, rounds[0].end)] else [])
      + Claims(Next(rows, rounds[0], batchSize, maxAttempts), rounds[1..], batchSize, maxAttempts, k)
  }

  /** The `attempt`-th claim of a row settles it. */
  predicate Settles(c: Claim, attempt: int, maxAttempts: int) {
    if c.ok then c.end != NothingRecorded else c.end == Complete && attempt >= maxAttempts
  }

  lemma {:induction false} SettledRowsAreNotClaimed(rows: seq<Row>, rounds: seq<Round>, batchSize: nat, maxAttempts: int, k: nat)
    requires k < |rows| && rows[k].status != Pending
    ensures Claims(rows, rounds, batchSize, maxAttempts, k) == []
    decreases |rounds|
  {
    if rounds != [] {
      SettledRowsAreNotClaimed(Next(rows, rounds[0], batchSize, maxAttempts), rounds[1..], batchSize, maxAttempts, k);
    }
  }

  /** The history of a pending row's claims decides its attempts and its status; only the last claim can settle it. */
  lemma {:induction false} HistoryDecides(rows: seq<Row>, rounds: seq<Round>, batchSize: nat, maxAttempts: int, k: nat)
    requires k < |rows| && rows[k].status == Pending
    ensures var h := Claims(rows, rounds, batchSize, maxAttempts, k);
            var r := Play(rows, rounds, batchSize, maxAttempts)[k];
            && r.attempts == rows[k].attempts + |h|
            && (forall i :: 0 <= i < |h| - 1 ==> !Settles(h[i], rows[k].attempts + i + 1, maxAttempts))
            && r.status == (if h == [] || !Settles(h[|h| - 1], r.attempts, maxAttempts) then Pending
                            else if h[|h| - 1].ok then Sent else Failed)
    decreases |rounds|
  {
    if rounds != [] {
      var r, rest, next := rounds[0], rounds[1..], Next(rows, rounds[0], batchSize, maxAttempts);
      var after := Claims(next, rest, batchSize, maxAttempts, k);
      var claimed := IsClaimed(rows, r.now, batchSize, k);
      var h := Claims(rows, rounds, batchSize, maxAttempts, k);
      assert next[k] == RowAfter(rows[k], claimed, rows[k].id in r.ok, maxAttempts, r.end);
      hide Next, IsClaimed, Claims;
      RowsKeepTheirNature(next, rest, batchSize, maxAttempts, k);
      if next[k].status != Pending {
        SettledRowsAreNotClaimed(next, rest, batchSize, maxAttempts, k);
      } else {
        HistoryDecides(next, rest, batchSize, maxAttempts, k);
        assert claimed ==> forall i :: 0 < i < |h| ==> h[i] == after[i - 1];
      }
    }
  }

  /**
   * A row that starts with no attempts, claimed only by ticks that complete, ends
   * failed exactly when its first `maxAttempts` publishes all failed, sent exactly
   * when its last one succeeded, and is never published again after that.
   */
  lemma FailedIffEveryAttemptFailed(rows: seq<Row>, rounds: seq<Round>, batchSize: nat, maxAttempts: int, k: nat)
    requires k < |rows| && rows[k].status == Pending && rows[k].attempts == 0
    requires forall i :: 0 <= i < |rounds| ==> rounds[i].end == Complete
    ensures var h := Claims(rows, rounds, batchSize, maxAttempts, k);
            var status := Play(rows, rounds, batchSize, maxAttempts)[k].status;
            var m := Cap(maxAttempts);
            && (status == Failed <==> |h| >= m && forall i :: 0 <= i < m ==> !h[i].ok)
            && (status == Sent <==> exists i :: 0 <= i < |h| && h[i].ok)
            && (status == Pending <==> |h| < m && forall i :: 0 <= i < |h| ==> !h[i].ok)
            && |h| <= m && forall i :: 0 <= i < |h| - 1 ==> !h[i].ok
  {
    var h := Claims(rows, rounds, batchSize, maxAttempts, k);
    HistoryDecides(rows, rounds, batchSize, maxAttempts, k);
    ClaimsAreOfRounds(rows, rounds, batchSize, maxAttempts, k);
    hide Play, Claims;
    if |h| > 0 {
      var last := h[|h| - 1];
      assert last.end == Complete;
      assert |h| > 1 ==> !Settles(h[|h| - 2], |h| - 1, maxAttempts) && h[|h| - 2].end == Complete;
    }
  }

  lemma {:induction false} ClaimsAreOfRounds(rows: seq<Row>, rounds: seq<Round>, batchSize: nat, maxAttempts: int, k: nat)
    requires k < |rows| && forall i :: 0 <= i < |rounds| ==> rounds[i].end == Complete
    ensures forall c :: c in Claims(rows, rounds, batchSize, maxAttempts, k) ==> c.end == Complete
    decreases |rounds|
  {
    if rounds != [] {
      ClaimsAreOfRounds(Next(rows, rounds[0], batchSize, maxAttempts), rounds[1..], batchSize, maxAttempts, k);
    }
  }
}
